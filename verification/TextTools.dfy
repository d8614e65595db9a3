/** The parts of Rust's `str` and `char` that the command language and the station rules rely on. */
module TextTools {
  /** `char::is_whitespace`: the Unicode White_Space property. */
  predicate IsWhitespace(c: char) {
    var n := c as int;
    || 9 <= n <= 13 || n == 0x20 || n == 0x85 || n == 0xA0 || n == 0x1680 || 0x2000 <= n <= 0x200A
    || n == 0x2028 || n == 0x2029 || n == 0x202F || n == 0x205F || n == 0x3000
  }

  predicate IsAsciiDigit(c: char) {
    '0' <= c <= '9'
  }

  predicate IsAsciiAlphabetic(c: char) {
    'a' <= c <= 'z' || 'A' <= c <= 'Z'
  }

  predicate IsAsciiAlphanumeric(c: char) {
    IsAsciiAlphabetic(c) || IsAsciiDigit(c)
  }

  function LowerChar(c: char): (r: char)
    ensures !('A' <= r <= 'Z')
    ensures IsWhitespace(r) <==> IsWhitespace(c)
  {
    if 'A' <= c <= 'Z' then (c as int + 32) as char else c
  }

  /** `to_ascii_lowercase` */
  function AsciiLower(s: string): (r: string)
    ensures |r| == |s|
    ensures forall i | 0 <= i < |s| :: r[i] == LowerChar(s[i])
  {
    seq(|s|, i requires 0 <= i < |s| => LowerChar(s[i]))
  }

  predicate EqIgnoreAsciiCase(a: string, b: string) {
    AsciiLower(a) == AsciiLower(b)
  }

  function TrimStart(s: string): (r: string)
    ensures r == "" || !IsWhitespace(r[0])
    decreases |s|
  {
    if s != "" && IsWhitespace(s[0]) then TrimStart(s[1..]) else s
  }

  function TrimEnd(s: string): (r: string)
    ensures r == "" || !IsWhitespace(r[|r| - 1])
    ensures r <= s
    decreases |s|
  {
    if s != "" && IsWhitespace(s[|s| - 1]) then TrimEnd(s[..|s| - 1]) else s
  }

  function Trim(s: string): string {
    TrimEnd(TrimStart(s))
  }

  lemma {:induction false} TrimStartIsSuffix(s: string) returns (k: nat)
    ensures k <= |s| && TrimStart(s) == s[k..]
    decreases |s|
  {
    if s != "" && IsWhitespace(s[0]) {
      k := TrimStartIsSuffix(s[1..]);
      k := k + 1;
    } else {
      k := 0;
    }
  }

  /** Trimming cuts a slice out of the text. */
  lemma TrimIsSlice(s: string) returns (k: nat)
    ensures k + |Trim(s)| <= |s| && Trim(s) == s[k..k + |Trim(s)|]
  {
    k := TrimStartIsSuffix(s);
  }

  lemma TrimIsStable(s: string)
    ensures Trim(Trim(s)) == Trim(s)
  {
    var start, t := TrimStart(s), Trim(s);
    if t != "" { assert t[0] == start[0]; }
  }

  predicate IsBlank(s: string) {
    Trim(s) == ""
  }

  /** Nothing is left after trimming exactly when there is nothing but white space. */
  lemma {:induction false} BlankIsAllWhitespace(s: string)
    ensures IsBlank(s) <==> forall c | c in s :: IsWhitespace(c)
    decreases |s|
  {
    var t := TrimStart(s);
    if s != "" && IsWhitespace(s[0]) {
      BlankIsAllWhitespace(s[1..]);
      assert s == [s[0]] + s[1..];
    } else if s != "" {
      assert t == s;
      KeepsHead(s);
    }
  }

  lemma {:induction false} KeepsHead(s: string)
    requires s != "" && !IsWhitespace(s[0])
    ensures TrimEnd(s) != ""
    decreases |s|
  {
    if IsWhitespace(s[|s| - 1]) { KeepsHead(s[..|s| - 1]); }
  }

  /** The pieces of `s` between the characters that are not part of a word. */
  function Words(s: string): (r: seq<string>)
    ensures r != []
  {
    if s == "" then [""]
    else
      var rest := Words(s[1..]);
      if IsWordChar(s[0]) then [[s[0]] + rest[0]] + rest[1..] else [""] + rest
  }

  predicate IsWordChar(c: char) {
    IsAsciiAlphanumeric(c) || c == '_'
  }

  /** `w` stands in `s` at `k` as a whole word. */
  predicate IsWordAt(s: string, k: nat, w: string) {
    && k + |w| <= |s| && s[k..k + |w|] == w
    && (k > 0 ==> !IsWordChar(s[k - 1]))
    && (k + |w| < |s| ==> !IsWordChar(s[k + |w|]))
  }

  /** The first piece reaches up to the first character that is not part of a word. */
  lemma {:induction false} FirstWord(s: string)
    ensures var n := |Words(s)[0]|;
            && n <= |s| && Words(s)[0] == s[..n] && (forall i | 0 <= i < n :: IsWordChar(s[i]))
            && (n < |s| ==> !IsWordChar(s[n]))
    decreases |s|
  {
    if s != "" {
      FirstWord(s[1..]);
      if IsWordChar(s[0]) {
        var n := |Words(s)[0]|;
        assert forall i | 0 < i < n :: s[i] == s[1..][i - 1];
        assert s[..n] == [s[0]] + s[1..][..n - 1];
      }
    }
  }

  lemma ShiftWord(s: string, k: nat, w: string)
    requires s != "" && (k > 0 || !IsWordChar(s[0]))
    ensures IsWordAt(s, k + 1, w) <==> IsWordAt(s[1..], k, w)
  {
    if k + 1 + |w| <= |s| { assert s[k + 1..k + 1 + |w|] == s[1..][k..k + |w|]; }
  }

  lemma {:induction false} LaterWords(s: string, w: string)
    requires w != "" && forall i | 0 <= i < |w| :: IsWordChar(w[i])
    ensures w in Words(s)[1..] <==> exists k :: k > 0 && IsWordAt(s, k, w)
    decreases |s|
  {
    if s != "" {
      var t := s[1..];
      LaterWords(t, w);
      FirstWord(t);
      WordAtStart(t, w);
      if IsWordChar(s[0]) {
        assert Words(s)[1..] == Words(t)[1..];
        if k :| k > 0 && IsWordAt(t, k, w) { ShiftWord(s, k, w); }
        if k :| k > 0 && IsWordAt(s, k, w) {
          assert k > 1;
          ShiftWord(s, k - 1, w);
        }
      } else {
        assert Words(s)[1..] == Words(t);
        assert w in Words(t) <==> w == Words(t)[0] || w in Words(t)[1..];
        if k :| k > 0 && IsWordAt(t, k, w) { ShiftWord(s, k, w); }
        ShiftWord(s, 0, w);
        if k :| k > 0 && IsWordAt(s, k, w) { ShiftWord(s, k - 1, w); }
      }
    }
  }

  lemma WordAtStart(s: string, w: string)
    requires w != "" && forall i | 0 <= i < |w| :: IsWordChar(w[i])
    ensures w == Words(s)[0] <==> IsWordAt(s, 0, w)
  {
    FirstWord(s);
    var n := |Words(s)[0]|;
    if IsWordAt(s, 0, w) {
      assert forall i | 0 <= i < |w| :: s[i] == w[i];
    }
  }

  /** A word is among the pieces exactly when it stands in the text as a whole word. */
  lemma WordsAreWhole(s: string, w: string)
    requires w != "" && forall i | 0 <= i < |w| :: IsWordChar(w[i])
    ensures w in Words(s) <==> exists k :: IsWordAt(s, k, w)
  {
    LaterWords(s, w);
    WordAtStart(s, w);
    assert w in Words(s) <==> w == Words(s)[0] || w in Words(s)[1..];
  }
}
