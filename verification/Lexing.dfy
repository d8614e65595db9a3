/**
 * The token layer of PrayerLang: how a value is printed as one argument, and how a statement's text is cut back into a
 * command name and its arguments.
 */
module Lexing {
  import opened Prelude
  import opened TextTools
  import opened Decimal

  // ---- printing ----

  predicate ForcesQuotes(c: char) {
    IsWhitespace(c) || c == '"' || c == '\\' || c == ';' || c == '{' || c == '}' || c == '#'
  }

  predicate HasCommentMark(s: string) {
    exists i | 0 <= i < |s| - 1 :: s[i] == '/' && s[i + 1] == '/'
  }

  predicate RequiresQuotes(s: string) {
    s == "" || (exists c | c in s :: ForcesQuotes(c)) || HasCommentMark(s)
  }

  /** `str::replace` of one character. */
  function Replace(s: string, c: char, sub: string): string {
    if s == "" then "" else (if s[0] == c then sub else [s[0]]) + Replace(s[1..], c, sub)
  }

  function Escaped(s: string): string {
    Replace(Replace(s, '\\', "\\\\"), '"', "\\\"")
  }

  /** The text of one argument. */
  function Arg(s: string): string {
    if RequiresQuotes(s) then "\"" + Escaped(s) + "\"" else s
  }

  /** The arguments, each with a space before it. */
  function Spaced(values: seq<string>): string {
    if values == [] then "" else " " + Arg(values[0]) + Spaced(values[1..])
  }

  function Statement(name: string, values: seq<string>): string {
    name + Spaced(values) + ";"
  }

  // ---- lexing ----

  predicate IsGap(c: char) {
    c == ' ' || c == '\t' || c == '\r' || c == '\n'
  }

  predicate IsTail(c: char) {
    IsAsciiAlphanumeric(c) || c == '_' || c == '-'
  }

  predicate IsIdentStart(c: char) {
    IsAsciiAlphabetic(c) || c == '_'
  }

  function SkipGaps(s: string): (rest: string)
    ensures |rest| <= |s|
    ensures rest == "" || !IsGap(rest[0])
  {
    if s != "" && IsGap(s[0]) then SkipGaps(s[1..]) else s
  }

  /** Length of the longest run of tail characters at the front. */
  function TailRun(s: string): (n: nat)
    ensures n <= |s|
    ensures forall i | 0 <= i < n :: IsTail(s[i])
    ensures n < |s| ==> !IsTail(s[n])
  {
    if s != "" && IsTail(s[0]) then 1 + TailRun(s[1..]) else 0
  }

  /** A quoted argument after its opening quote: the unescaped text and what follows the closing quote. */
  function LexQuoted(s: string): (r: Option<(string, string)>)
    ensures r.Some? ==> |r.value.1| < |s|
    decreases |s|
  {
    if s == "" then None
    else if s[0] == '"' then Some(("", s[1..]))
    else if s[0] == '\\' then
      if |s| == 1 then None else
        match LexQuoted(s[2..])
        case Some((text, rest)) => Some(([s[1]] + text, rest))
        case None => None
    else
      match LexQuoted(s[1..])
      case Some((text, rest)) => Some(([s[0]] + text, rest))
      case None => None
  }

  /** Length of the unquoted token at the front: dollar-prefixed or plain; 0 when there is none. */
  function BareRun(s: string): (n: nat)
    ensures n <= |s|
  {
    if |s| >= 2 && s[0] == '$' && IsIdentStart(s[1]) then 2 + TailRun(s[2..])
    else if s != "" && (IsAsciiAlphanumeric(s[0]) || s[0] == '_') then 1 + TailRun(s[1..])
    else 0
  }

  /** One argument token. */
  function LexToken(s: string): (r: Option<(string, string)>)
    ensures r.Some? ==> |r.value.1| < |s|
  {
    if s != "" && s[0] == '"' then LexQuoted(s[1..])
    else if BareRun(s) > 0 then Some((s[..BareRun(s)], s[BareRun(s)..]))
    else None
  }

  /** As many tokens as there are, with optional gaps before each; a gap before something else is not consumed. */
  function LexTokens(s: string): (r: (seq<string>, string))
    ensures |r.1| <= |s|
    decreases |s|
  {
    match LexToken(SkipGaps(s))
    case Some((token, rest)) => var more := LexTokens(rest); ([token] + more.0, more.1)
    case None => ([], s)
  }

  datatype Command = Command(name: string, args: seq<string>)

  /** `name token* ;` and the text after the semicolon. */
  function LexCommand(s: string): (r: Option<(Command, string)>)
    ensures r.Some? ==> |r.value.1| < |s|
  {
    if s == "" || !IsIdentStart(s[0]) then None
    else
      var n := 1 + TailRun(s[1..]);
      var (args, after) := LexTokens(s[n..]);
      var rest := SkipGaps(after);
      if rest != "" && rest[0] == ';' then Some((Command(s[..n], args), rest[1..])) else None
  }

  /** A whole script: commands with gaps around them, and nothing else. */
  function LexScript(s: string): Option<seq<Command>>
    decreases |s|
  {
    var start := SkipGaps(s);
    if start == "" then Some([])
    else
      match LexCommand(start)
      case Some((command, rest)) =>
        (match LexScript(rest)
         case Some(more) => Some([command] + more)
         case None => None)
      case None => None
  }

  // ---- what can be printed ----

  /** A token the lexer reads unquoted. */
  predicate IsBare(s: string) {
    s != "" && BareRun(s) == |s|
  }

  predicate IsIdent(s: string) {
    s != "" && IsIdentStart(s[0]) && TailRun(s[1..]) == |s| - 1
  }

  /** A value survives printing: it is quoted, or it is a token as it stands. */
  predicate IsPrintable(s: string) {
    RequiresQuotes(s) || IsBare(s)
  }

  // ---- printing then lexing ----

  lemma ReplaceSkips(c: char, s: string, sub: string, x: char)
    ensures Replace([x] + s, c, sub) == (if x == c then sub else [x]) + Replace(s, c, sub)
  {
    assert ([x] + s)[1..] == s;
  }

  /** Escaping works character by character, although it is done by two passes over the whole text. */
  lemma EscapedByCharacter(s: string)
    requires s != ""
    ensures Escaped(s) == (if s[0] == '"' then "\\\"" else if s[0] == '\\' then "\\\\" else [s[0]]) + Escaped(s[1..])
  {
    var inner := Replace(s[1..], '\\', "\\\\");
    if s[0] == '\\' {
      assert Replace(s, '\\', "\\\\") == ['\\'] + (['\\'] + inner);
      ReplaceSkips('"', ['\\'] + inner, "\\\"", '\\');
      ReplaceSkips('"', inner, "\\\"", '\\');
    } else {
      assert Replace(s, '\\', "\\\\") == [s[0]] + inner;
      ReplaceSkips('"', inner, "\\\"", s[0]);
    }
  }

  lemma LexQuotedCharacter(c: char, tail: string)
    ensures LexQuoted((if c == '"' || c == '\\' then ['\\', c] else [c]) + tail)
            == match LexQuoted(tail) {
                 case Some((text, rest)) => Some(([c] + text, rest))
                 case None => None
               }
  {
    assert (['\\', c] + tail)[2..] == tail && ([c] + tail)[1..] == tail;
  }

  lemma QuotedHead(s: string, rest: string)
    requires s != ""
    ensures LexQuoted(Escaped(s) + "\"" + rest)
            == match LexQuoted(Escaped(s[1..]) + "\"" + rest) {
                 case Some((text, after)) => Some(([s[0]] + text, after))
                 case None => None
               }
  {
    EscapedByCharacter(s);
    var tail := Escaped(s[1..]) + "\"" + rest;
    var first := if s[0] == '"' || s[0] == '\\' then ['\\', s[0]] else [s[0]];
    assert Escaped(s) + "\"" + rest == first + tail;
    LexQuotedCharacter(s[0], tail);
  }

  /** Unquoting undoes quoting for every text. */
  lemma {:induction false} UnquoteUndoesQuote(s: string, rest: string)
    ensures LexQuoted(Escaped(s) + "\"" + rest) == Some((s, rest))
    decreases |s|
  {
    if s == "" {
      assert Escaped(s) + "\"" + rest == "\"" + rest;
    } else {
      QuotedHead(s, rest);
      UnquoteUndoesQuote(s[1..], rest);
      assert s == [s[0]] + s[1..];
    }
  }

  lemma {:induction false} TailRunStops(s: string, rest: string)
    requires rest != "" && !IsTail(rest[0])
    ensures TailRun(s + rest) == TailRun(s)
    decreases |s|
  {
    if s == "" {
      assert s + rest == rest;
    } else {
      assert (s + rest)[1..] == s[1..] + rest;
      TailRunStops(s[1..], rest);
    }
  }

  lemma BareRunStops(s: string, rest: string)
    requires s != "" && rest != "" && !IsTail(rest[0])
    ensures BareRun(s + rest) == BareRun(s)
  {
    if |s| >= 2 {
      assert (s + rest)[2..] == s[2..] + rest;
      TailRunStops(s[2..], rest);
    }
    assert (s + rest)[1..] == s[1..] + rest;
    TailRunStops(s[1..], rest);
  }

  /** A printed value is read back as itself exactly when it is printable. */
  lemma TokenRoundTrip(s: string, rest: string)
    requires rest != "" && !IsTail(rest[0])
    ensures IsPrintable(s) ==> LexToken(Arg(s) + rest) == Some((s, rest))
    ensures !IsPrintable(s) ==> LexToken(Arg(s) + rest).None? || LexToken(Arg(s) + rest).value.0 != s
  {
    if RequiresQuotes(s) {
      UnquoteUndoesQuote(s, rest);
      assert (Arg(s) + rest)[1..] == Escaped(s) + "\"" + rest;
    } else {
      assert s[0] in s;
      BareRunStops(s, rest);
      assert (s + rest)[..|s|] == s && (s + rest)[|s|..] == rest;
    }
  }

  predicate AllPrintable(values: seq<string>) {
    forall i | 0 <= i < |values| :: IsPrintable(values[i])
  }

  lemma PrintableConcat(a: seq<string>, b: seq<string>)
    requires AllPrintable(a) && AllPrintable(b)
    ensures AllPrintable(a + b)
  {}

  lemma OnePrintable(a: string)
    requires IsPrintable(a)
    ensures AllPrintable([a])
  {}

  lemma ThreePrintable(a: string, b: string, c: string)
    requires IsPrintable(a) && IsPrintable(b) && IsPrintable(c)
    ensures AllPrintable([a, b, c])
  {}

  lemma ArgStartsToken(s: string)
    ensures Arg(s) != "" && !IsGap(Arg(s)[0])
  {
    if !RequiresQuotes(s) { assert s[0] in s; }
  }

  /** Lexing past one printed value: the value and the tokens that follow, exactly when it is printable. */
  lemma OneTokenRoundTrip(s: string, more: string)
    requires more != "" && !IsTail(more[0])
    ensures IsPrintable(s) ==> LexTokens(" " + Arg(s) + more) == ([s] + LexTokens(more).0, LexTokens(more).1)
    ensures !IsPrintable(s) ==> LexTokens(" " + Arg(s) + more).0 == [] || LexTokens(" " + Arg(s) + more).0[0] != s
  {
    var text := " " + Arg(s) + more;
    ArgStartsToken(s);
    assert text[1..] == Arg(s) + more;
    assert SkipGaps(text) == Arg(s) + more;
    TokenRoundTrip(s, more);
  }

  lemma AllPrintableSplits(values: seq<string>)
    requires values != []
    ensures AllPrintable(values) <==> IsPrintable(values[0]) && AllPrintable(values[1..])
  {
    assert values == [values[0]] + values[1..];
    if IsPrintable(values[0]) && AllPrintable(values[1..]) {
      OnePrintable(values[0]);
      PrintableConcat([values[0]], values[1..]);
    }
  }

  lemma SpacedUnfolds(values: seq<string>)
    requires values != []
    ensures Spaced(values) == " " + Arg(values[0]) + Spaced(values[1..])
  {}

  lemma Regroup(a: string, b: string, c: string)
    ensures a + b + c == a + (b + c)
  {}

  lemma SpacedHead(values: seq<string>, rest: string)
    requires values != [] && rest != "" && rest[0] == ';'
    ensures var more := Spaced(values[1..]) + rest;
            Spaced(values) + rest == " " + Arg(values[0]) + more && more != "" && !IsTail(more[0])
  {
    SpacedUnfolds(values);
    Regroup(" " + Arg(values[0]), Spaced(values[1..]), rest);
    SpacedStartsApart(values[1..], rest);
  }

  lemma SpacedStartsApart(values: seq<string>, rest: string)
    requires rest != "" && rest[0] == ';'
    ensures Spaced(values) + rest != "" && !IsTail((Spaced(values) + rest)[0])
  {
    if values == [] {
      assert Spaced(values) + rest == rest;
    } else {
      assert Spaced(values)[0] == ' ';
    }
  }

  lemma {:induction false} TokensRoundTrip(values: seq<string>, rest: string)
    requires rest != "" && rest[0] == ';'
    ensures AllPrintable(values) ==> LexTokens(Spaced(values) + rest) == (values, rest)
    ensures LexTokens(Spaced(values) + rest).0 == values ==> AllPrintable(values)
    decreases |values|
  {
    if values == [] {
      assert Spaced(values) + rest == rest;
      assert SkipGaps(rest) == rest;
    } else {
      var more := Spaced(values[1..]) + rest;
      SpacedHead(values, rest);
      OneTokenRoundTrip(values[0], more);
      TokensRoundTrip(values[1..], rest);
      AllPrintableSplits(values);
      SplitsAtHead(values, LexTokens(more).0);
    }
  }

  lemma SplitsAtHead(values: seq<string>, others: seq<string>)
    requires values != []
    ensures [values[0]] + others == values <==> others == values[1..]
  {
    assert ([values[0]] + others)[1..] == others;
    assert values == [values[0]] + values[1..];
  }

  lemma IdentRoundTrip(name: string, rest: string)
    requires name != "" && rest != "" && !IsTail(rest[0])
    ensures IsIdent(name) ==> 1 + TailRun((name + rest)[1..]) == |name|
  {
    assert (name + rest)[1..] == name[1..] + rest;
    TailRunStops(name[1..], rest);
  }

  lemma LexedNameIsIdent(s: string)
    ensures LexCommand(s).Some? ==> IsIdent(LexCommand(s).value.0.name)
  {
    if LexCommand(s).Some? {
      var name := s[..1 + TailRun(s[1..])];
      assert forall i | 0 <= i < |name| - 1 :: name[1..][i] == s[1..][i];
    }
  }

  /** Printing then lexing is the identity, exactly for identifiers applied to printable values. */
  lemma StatementRoundTrip(name: string, values: seq<string>, rest: string)
    ensures IsIdent(name) && AllPrintable(values)
            <==> LexCommand(Statement(name, values) + rest) == Some((Command(name, values), rest))
  {
    var text := Statement(name, values) + rest;
    var tail := Spaced(values) + (";" + rest);
    assert text == name + tail;
    TokensRoundTrip(values, ";" + rest);
    assert SkipGaps(";" + rest) == ";" + rest;
    if IsIdent(name) {
      assert !IsTail(tail[0]);
      IdentRoundTrip(name, tail);
      assert text[..|name|] == name && text[|name|..] == tail;
    }
    LexedNameIsIdent(text);
  }

  /** A statement of plain name and printable values, alone. */
  lemma StatementLexes(name: string, values: seq<string>)
    requires IsPlain(name) && IsIdentStart(name[0]) && AllPrintable(values)
    ensures LexCommand(Statement(name, values)) == Some((Command(name, values), ""))
  {
    assert forall i | 0 <= i < |name| - 1 :: name[1..][i] == name[i + 1];
    StatementRoundTrip(name, values, "");
    assert Statement(name, values) + "" == Statement(name, values);
  }

  /** Statements one after another, each followed by gaps. */
  function Script(commands: seq<Command>, gap: string): string {
    if commands == [] then ""
    else Statement(commands[0].name, commands[0].args) + gap + Script(commands[1..], gap)
  }

  predicate IsPrintableCommand(command: Command) {
    IsIdent(command.name) && AllPrintable(command.args)
  }

  lemma {:induction false} SkipAllGaps(gap: string, rest: string)
    requires forall c | c in gap :: IsGap(c)
    ensures SkipGaps(gap + rest) == SkipGaps(rest)
  {
    if gap == "" {
      assert gap + rest == rest;
    } else {
      assert gap[0] in gap && (gap + rest)[1..] == gap[1..] + rest;
      SkipAllGaps(gap[1..], rest);
    }
  }

  lemma LexScriptIgnoresGaps(s: string, t: string)
    requires SkipGaps(s) == SkipGaps(t)
    ensures LexScript(s) == LexScript(t)
  {}

  lemma LexScriptTakes(c: Command, more: string)
    requires IsPrintableCommand(c)
    ensures LexScript(Statement(c.name, c.args) + more)
            == match LexScript(more) {
                 case Some(rest) => Some([c] + rest)
                 case None => None
               }
  {
    var text := Statement(c.name, c.args) + more;
    StatementRoundTrip(c.name, c.args, more);
    assert text[0] == c.name[0];
    assert SkipGaps(text) == text;
  }

  lemma ScriptUnfolds(commands: seq<Command>, gap: string)
    requires commands != []
    ensures Script(commands, gap)
            == Statement(commands[0].name, commands[0].args) + (gap + Script(commands[1..], gap))
  {}

  /** A printed script lexes back to its commands. */
  lemma {:induction false} ScriptRoundTrip(commands: seq<Command>, gap: string)
    requires forall i | 0 <= i < |commands| :: IsPrintableCommand(commands[i])
    requires forall c | c in gap :: IsGap(c)
    ensures LexScript(Script(commands, gap)) == Some(commands)
    decreases |commands|
  {
    if commands != [] {
      var more := Script(commands[1..], gap);
      forall i | 0 <= i < |commands| - 1 ensures IsPrintableCommand(commands[1..][i]) {
        assert IsPrintableCommand(commands[i + 1]);
      }
      ScriptRoundTrip(commands[1..], gap);
      LexesThrough(commands[0], gap, more);
      ScriptUnfolds(commands, gap);
      assert commands == [commands[0]] + commands[1..];
    }
  }

  lemma LexesThrough(c: Command, gap: string, more: string)
    requires IsPrintableCommand(c) && forall x | x in gap :: IsGap(x)
    ensures LexScript(Statement(c.name, c.args) + (gap + more))
            == match LexScript(more) {
                 case Some(rest) => Some([c] + rest)
                 case None => None
               }
  {
    SkipAllGaps(gap, more);
    LexScriptIgnoresGaps(gap + more, more);
    LexScriptTakes(c, gap + more);
  }

  // ---- words and numbers ----

  /** A word of letters, digits, underscores and inner hyphens: printed as it stands and lexed as one token. */
  predicate IsPlain(s: string) {
    s != "" && s[0] != '-' && forall i | 0 <= i < |s| :: IsTail(s[i])
  }

  lemma PlainIsBare(s: string)
    requires IsPlain(s)
    ensures IsPrintable(s) && Arg(s) == s
  {
    assert forall i | 0 <= i < |s| - 1 :: s[1..][i] == s[i + 1];
    assert BareRun(s) == |s|;
    forall c | c in s ensures !ForcesQuotes(c) {
      var i :| 0 <= i < |s| && s[i] == c;
      assert IsTail(s[i]);
    }
    assert !HasCommentMark(s) by {
      forall i | 0 <= i < |s| ensures s[i] != '/' { assert IsTail(s[i]); }
    }
  }

  lemma NumberIsPlain(n: nat)
    ensures IsPlain(Show(n)) && IsPrintable(Show(n)) && Arg(Show(n)) == Show(n)
  {
    forall i | 0 <= i < |Show(n)| ensures IsAsciiDigit(Show(n)[i]) {}
    PlainIsBare(Show(n));
  }

  lemma SpacedConcat(a: seq<string>, b: seq<string>)
    ensures Spaced(a + b) == Spaced(a) + Spaced(b)
    decreases |a|
  {
    if a == [] {
      assert a + b == b;
    } else {
      assert (a + b)[1..] == a[1..] + b;
      SpacedConcat(a[1..], b);
    }
  }

  // ---- what the grammar takes ----

  lemma {:induction false} TailRunIsAll(s: string)
    ensures TailRun(s) == |s| <==> forall i | 0 <= i < |s| :: IsTail(s[i])
    decreases |s|
  {
    if s != "" && IsTail(s[0]) {
      TailRunIsAll(s[1..]);
      assert forall i | 0 < i < |s| :: s[i] == s[1..][i - 1];
    }
  }

  /** Letters, digits, underscores and hyphens carry a word on. */
  predicate IsWordOn(c: char) {
    'a' <= c <= 'z' || 'A' <= c <= 'Z' || '0' <= c <= '9' || c in "_-"
  }

  /** A letter, digit or underscore starts a word. */
  predicate IsWordStart(c: char) {
    IsWordOn(c) && c != '-'
  }

  lemma TailCarriesOn(c: char)
    ensures IsTail(c) <==> IsWordOn(c)
    ensures IsAsciiAlphanumeric(c) || c == '_' <==> IsWordStart(c)
    ensures IsIdentStart(c) <==> IsWordStart(c) && !('0' <= c <= '9')
  {
    assert c in "_-" <==> c == "_-"[0] || c == "_-"[1];
  }

  /** An unquoted token: a word, or a dollar sign and a word that starts with no digit. */
  lemma BareIsExactly(s: string)
    ensures IsBare(s)
            <==> (|| (s != "" && IsWordStart(s[0]) && forall i | 0 < i < |s| :: IsWordOn(s[i]))
                  || (|s| >= 2 && s[0] == '$' && IsWordStart(s[1]) && !('0' <= s[1] <= '9')
                      && forall i | 1 < i < |s| :: IsWordOn(s[i])))
  {
    forall i | 0 <= i < |s|
      ensures IsTail(s[i]) <==> IsWordOn(s[i])
      ensures IsAsciiAlphanumeric(s[i]) || s[i] == '_' <==> IsWordStart(s[i])
      ensures IsIdentStart(s[i]) <==> IsWordStart(s[i]) && !('0' <= s[i] <= '9')
    {
      TailCarriesOn(s[i]);
    }
    if s != "" {
      TailRunIsAll(s[1..]);
      assert forall i | 0 < i < |s| :: s[i] == s[1..][i - 1];
    }
    if |s| >= 2 {
      TailRunIsAll(s[2..]);
      assert forall i | 1 < i < |s| :: s[i] == s[2..][i - 2];
    }
  }

  /** The printer quotes for this character. */
  predicate IsQuotedFor(c: char) {
    IsWhitespace(c) || c in "\"\\;{}#"
  }

  lemma QuotesAreForced(c: char)
    ensures ForcesQuotes(c) <==> IsQuotedFor(c)
  {
    var marks := "\"\\;{}#";
    assert c in marks <==> exists i :: 0 <= i < 6 && marks[i] == c;
    assert marks[0] == '"' && marks[1] == '\\' && marks[2] == ';';
    assert marks[3] == '{' && marks[4] == '}' && marks[5] == '#';
  }

  /**
   * A value is lost in printing exactly when the printer sees no reason to quote it and the lexer no token in it: it has
   * neither white space, a mark the printer quotes for, nor a comment in it, and yet it is no word.
   */
  lemma LostExactlyWhen(s: string)
    ensures !IsPrintable(s)
            <==> (&& s != "" && (forall i | 0 <= i < |s| :: !IsQuotedFor(s[i])) && !HasCommentMark(s)
                  && (|| s[0] == '-'
                      || (s[0] == '$' && (|s| == 1 || !IsWordStart(s[1]) || '0' <= s[1] <= '9'))
                      || exists i :: 0 <= i < |s| && !IsWordOn(s[i]) && !(i == 0 && s[0] == '$')))
  {
    BareIsExactly(s);
    forall i | 0 <= i < |s| ensures ForcesQuotes(s[i]) <==> IsQuotedFor(s[i]) { QuotesAreForced(s[i]); }
    assert (exists c | c in s :: ForcesQuotes(c)) <==> exists i | 0 <= i < |s| :: ForcesQuotes(s[i]);
  }

  /** An ordinary word with a dot in it is lost. */
  lemma DottedWordIsLost()
    ensures !IsPrintable("a.b")
  {
    var s := "a.b";
    assert s[0] == 'a' && s[1] == '.' && s[2] == 'b';
    forall i | 0 <= i < |s| ensures !IsQuotedFor(s[i]) { QuotesAreForced(s[i]); }
    assert !IsWordOn(s[1]);
    LostExactlyWhen(s);
  }

  /** Tokens are set apart by blanks, tabs, returns and line feeds. */
  lemma GapsAreExactly(c: char)
    ensures IsGap(c) <==> c in " \t\r\n"
  {
    var gaps := " \t\r\n";
    assert c in gaps <==> exists i :: 0 <= i < 4 && gaps[i] == c;
    assert gaps[0] == ' ' && gaps[1] == '\t' && gaps[2] == '\r' && gaps[3] == '\n';
  }
}
