/** The two-row edit distance behind "did you mean": what it computes, and what it is. */
module EditDistance {
  function Min(x: nat, y: nat): nat {
    if x <= y then x else y
  }

  /** The textbook recursion: the distance between the first `i` characters of `a` and the first `j` of `b`. */
  function Dist(a: string, b: string, i: nat, j: nat): nat
    requires i <= |a| && j <= |b|
    decreases i + j
  {
    if i == 0 then j
    else if j == 0 then i
    else
      var cost := if a[i - 1] == b[j - 1] then 0 else 1;
      Min(Min(Dist(a, b, i, j - 1) + 1, Dist(a, b, i - 1, j) + 1), Dist(a, b, i - 1, j - 1) + cost)
  }

  function Edit(a: string, b: string): nat {
    Dist(a, b, |a|, |b|)
  }

  // ---- an edit distance is the least cost of an edit script ----

  datatype Op = Keep | Change | Insert | Delete

  function OpCost(op: Op): nat {
    if op.Keep? then 0 else 1
  }

  ghost function Cost(ops: seq<Op>): nat {
    if ops == [] then 0 else Cost(ops[..|ops| - 1]) + OpCost(ops[|ops| - 1])
  }

  /** The script, read along both texts, turns the first `i` characters of `a` into the first `j` of `b`. */
  ghost predicate Turns(ops: seq<Op>, a: string, b: string, i: nat, j: nat)
    requires i <= |a| && j <= |b|
    decreases |ops|
  {
    if ops == [] then i == 0 && j == 0
    else
      var front := ops[..|ops| - 1];
      match ops[|ops| - 1]
      case Keep => i > 0 && j > 0 && a[i - 1] == b[j - 1] && Turns(front, a, b, i - 1, j - 1)
      case Change => i > 0 && j > 0 && Turns(front, a, b, i - 1, j - 1)
      case Insert => j > 0 && Turns(front, a, b, i, j - 1)
      case Delete => i > 0 && Turns(front, a, b, i - 1, j)
  }

  lemma {:induction false} NoScriptIsCheaper(ops: seq<Op>, a: string, b: string, i: nat, j: nat)
    requires i <= |a| && j <= |b| && Turns(ops, a, b, i, j)
    ensures Dist(a, b, i, j) <= Cost(ops)
    decreases |ops|
  {
    if ops != [] {
      var front := ops[..|ops| - 1];
      match ops[|ops| - 1]
      case Keep => NoScriptIsCheaper(front, a, b, i - 1, j - 1);
      case Change => NoScriptIsCheaper(front, a, b, i - 1, j - 1);
      case Insert => NoScriptIsCheaper(front, a, b, i, j - 1);
      case Delete => NoScriptIsCheaper(front, a, b, i - 1, j);
    }
  }

  lemma Append(ops: seq<Op>, op: Op)
    ensures (ops + [op])[..|ops + [op]| - 1] == ops && Cost(ops + [op]) == Cost(ops) + OpCost(op)
  {
    assert (ops + [op])[..|ops|] == ops;
  }

  lemma {:induction false} SomeScriptIsThatCheap(a: string, b: string, i: nat, j: nat) returns (ops: seq<Op>)
    requires i <= |a| && j <= |b|
    ensures Turns(ops, a, b, i, j) && Cost(ops) == Dist(a, b, i, j)
    decreases i + j
  {
    if i == 0 && j == 0 {
      ops := [];
    } else if i == 0 || (j > 0 && Dist(a, b, i, j) == Dist(a, b, i, j - 1) + 1) {
      ops := SomeScriptIsThatCheap(a, b, i, j - 1);
      Append(ops, Insert);
      ops := ops + [Insert];
    } else if j == 0 || Dist(a, b, i, j) == Dist(a, b, i - 1, j) + 1 {
      ops := SomeScriptIsThatCheap(a, b, i - 1, j);
      Append(ops, Delete);
      ops := ops + [Delete];
    } else {
      var op := if a[i - 1] == b[j - 1] then Keep else Change;
      ops := SomeScriptIsThatCheap(a, b, i - 1, j - 1);
      Append(ops, op);
      ops := ops + [op];
    }
  }

  // ---- the two rows ----

  /** Bytes of one character in UTF-8. */
  function Width(c: char): nat {
    var n := c as int;
    if n < 0x80 then 1 else if n < 0x800 then 2 else if n < 0x1_0000 then 3 else 4
  }

  /** `str::len`: bytes, not characters. */
  function ByteLength(s: string): (n: nat)
    ensures n >= |s|
  {
    if s == "" then 0 else Width(s[0]) + ByteLength(s[1..])
  }

  predicate IsAscii(s: string) {
    forall i | 0 <= i < |s| :: s[i] as int < 0x80
  }

  lemma {:induction false} AsciiIsOneByteEach(s: string)
    ensures ByteLength(s) == |s| <==> IsAscii(s)
    decreases |s|
  {
    if s != "" { AsciiIsOneByteEach(s[1..]); }
  }

  /**
   * The rows are sized by bytes but filled by characters, so the cell that is returned is only reached when `b` is
   * ASCII; otherwise it still holds what it was initialised to.
   */
  function Reported(a: string, b: string): nat {
    if IsAscii(b) then Edit(a, b) else if |a| % 2 == 0 then ByteLength(b) else 0
  }

  /** The row for the first `i` characters of `a`: their distance from every prefix of `b`. */
  ghost function Row(a: string, b: string, i: nat): (row: seq<nat>)
    requires i <= |a|
    ensures |row| == |b| + 1
  {
    seq(|b| + 1, j requires 0 <= j <= |b| => Dist(a, b, i, j))
  }

  /** The row `next` is what the inner loop makes of the row `row` for one more character. */
  ghost predicate Follows(row: seq<nat>, next: seq<nat>, c: char, b: string)
    requires |row| == |next| == |b| + 1
  {
    && next[0] == row[0] + 1
    && forall j | 0 <= j < |b| ::
         next[j + 1] == Min(Min(next[j] + 1, row[j + 1] + 1), row[j] + (if c == b[j] then 0 else 1))
  }

  lemma RowsFollow(a: string, b: string, i: nat)
    requires i < |a|
    ensures Follows(Row(a, b, i), Row(a, b, i + 1), a[i], b) && Row(a, b, i)[0] == i
  {}

  /** The inner loop fills the characters' part of the row in place and leaves the rest alone. */
  method FillRow(prev: array<nat>, curr: array<nat>, i: nat, c: char, b: string, ghost row: seq<nat>,
                 ghost next: seq<nat>)
    requires prev != curr && prev.Length == curr.Length > |b|
    requires |row| == |next| == |b| + 1 && prev[..|b| + 1] == row && row[0] == i && Follows(row, next, c, b)
    modifies curr
    ensures curr[..|b| + 1] == next
    ensures curr[|b| + 1..] == old(curr[|b| + 1..])
  {
    curr[0] := i + 1;
    for j := 0 to |b|
      invariant forall k | 0 <= k <= j :: curr[k] == next[k]
      invariant forall k | |b| < k < curr.Length :: curr[k] == old(curr[k])
    {
      var cost := if c == b[j] then 0 else 1;
      assert prev[j] == row[j] && prev[j + 1] == row[j + 1];
      curr[j + 1] := Min(Min(curr[j] + 1, prev[j + 1] + 1), prev[j] + cost);
    }
  }

  /** What the cells past the characters of `b` hold. */
  ghost predicate IsUntouched(tail: seq<nat>, first: nat, counting: bool) {
    forall k | 0 <= k < |tail| :: tail[k] == if counting then first + k else 0
  }

  method Levenshtein(a: string, b: string) returns (d: nat)
    ensures d == Reported(a, b)
  {
    var n, m := ByteLength(b), |b|;
    AsciiIsOneByteEach(b);
    var prev := new nat[n + 1](k => k);
    var curr := new nat[n + 1](k => 0);
    assert prev[..m + 1] == Row(a, b, 0);
    for i := 0 to |a|
      invariant prev.Length == n + 1 && curr.Length == n + 1 && prev != curr && fresh(prev) && fresh(curr)
      invariant prev[..m + 1] == Row(a, b, i)
      invariant IsUntouched(prev[m + 1..], m + 1, i % 2 == 0) && IsUntouched(curr[m + 1..], m + 1, i % 2 == 1)
    {
      RowsFollow(a, b, i);
      FillRow(prev, curr, i, a[i], b, Row(a, b, i), Row(a, b, i + 1));
      prev, curr := curr, prev;
    }
    d := prev[n];
    if n == m {
      assert prev[..m + 1][m] == d;
    } else {
      assert prev[m + 1..][n - m - 1] == d;
    }
  }

  /** For an ASCII right-hand side the answer is the least number of single-character edits between the two. */
  lemma AsciiDistanceIsLeast(a: string, b: string)
    requires IsAscii(b)
    ensures forall ops | Turns(ops, a, b, |a|, |b|) :: Reported(a, b) <= Cost(ops)
    ensures exists ops :: Turns(ops, a, b, |a|, |b|) && Cost(ops) == Reported(a, b)
  {
    forall ops | Turns(ops, a, b, |a|, |b|) ensures Reported(a, b) <= Cost(ops) {
      NoScriptIsCheaper(ops, a, b, |a|, |b|);
    }
    var best := SomeScriptIsThatCheap(a, b, |a|, |b|);
  }

  lemma {:induction false} ZeroOnlyWhenEqual(a: string, b: string, i: nat, j: nat)
    requires i <= |a| && j <= |b|
    ensures Dist(a, b, i, j) == 0 <==> a[..i] == b[..j]
    decreases i + j
  {
    if i > 0 && j > 0 {
      ZeroOnlyWhenEqual(a, b, i - 1, j - 1);
      assert a[..i] == a[..i - 1] + [a[i - 1]] && b[..j] == b[..j - 1] + [b[j - 1]];
    }
  }

  /** The report is zero exactly for equal texts, or for a non-ASCII text against one of odd length. */
  lemma ZeroReport(a: string, b: string)
    ensures Reported(a, b) == 0 <==> if IsAscii(b) then a == b else |a| % 2 == 1
  {
    ZeroDistance(a, b);
  }

  /** No distance exceeds the longer of the two texts. */
  lemma {:induction false} DistIsBounded(a: string, b: string, i: nat, j: nat)
    requires i <= |a| && j <= |b|
    ensures Dist(a, b, i, j) <= if i <= j then j else i
    decreases i + j
  {
    if i > 0 && j > 0 { DistIsBounded(a, b, i - 1, j - 1); }
  }

  lemma ZeroDistance(a: string, b: string)
    ensures Edit(a, b) == 0 <==> a == b
  {
    ZeroOnlyWhenEqual(a, b, |a|, |b|);
    assert a[..|a|] == a && b[..|b|] == b;
  }

  /**
   * When the report is right. Against a non-ASCII text of odd-length `a` it is zero, right only for equal texts; of
   * even-length `a` it is the byte length, which is the distance only when `a` is at least that long.
   */
  lemma ReportIsRightExactlyWhen(a: string, b: string)
    ensures Reported(a, b) == Edit(a, b)
            <==> (|| IsAscii(b)
                  || (|a| % 2 == 1 && a == b)
                  || (|a| % 2 == 0 && |a| >= ByteLength(b) && Edit(a, b) == ByteLength(b)))
  {
    ZeroDistance(a, b);
    DistIsBounded(a, b, |a|, |b|);
    AsciiIsOneByteEach(b);
  }

  /** Against a text of more bytes than `a` has characters, nothing but the two texts themselves decides it. */
  lemma ShortReportIsRightExactlyWhen(a: string, b: string)
    requires |a| < ByteLength(b)
    ensures Reported(a, b) == Edit(a, b) <==> IsAscii(b) || (|a| % 2 == 1 && a == b)
  {
    ReportIsRightExactlyWhen(a, b);
  }

  /** Outside ASCII the report can be wrong: one letter against an accented one is reported as no edit at all. */
  lemma NonAsciiReportIsWrong()
    ensures Reported("e", "\U{E9}") == 0 && Edit("e", "\U{E9}") == 1
  {
    assert "\U{E9}"[0] as int == 0xE9;
  }
}
