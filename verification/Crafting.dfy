/** The `craft` and `recycle` statements: clauses in any order, each at most once. */
module Crafting {
  import opened Prelude
  import opened TextTools
  import opened Decimal
  import opened Lexing

  datatype CraftError =
    | MissingRecipe
    | DryRunNotAllowed
    | BadQuantity
    | DuplicateClause
    | BadStore
    | MissingValue
    | UnknownShape
    | PresetNotAllowed

  datatype Clauses = Clauses(source: Option<string>, deliverTo: Option<string>, facility: Option<string>,
                             preset: Option<string>)

  datatype Craft = Craft(recipe: string, quantity: u64, clauses: Clauses)

  const NO_CLAUSES := Clauses(None, None, None, None)

  predicate IsClauseKeyword(token: string) {
    token == "from" || token == "to" || token == "at" || token == "preset"
  }

  predicate IsStore(token: string) {
    token == "cargo" || token == "storage" || token == "faction"
  }

  function Store(rest: seq<string>): (r: Result<string, CraftError>)
    ensures r.Ok? ==> rest != [] && r.value == rest[0]
  {
    if rest == [] || !IsStore(rest[0]) then Err(BadStore) else Ok(rest[0])
  }

  function ClauseValue(rest: seq<string>): (r: Result<string, CraftError>)
    ensures r.Ok? ==> rest != [] && r.value == rest[0]
  {
    if rest == [] || IsClauseKeyword(rest[0]) then Err(MissingValue) else Ok(rest[0])
  }

  // ---- one clause ----

  datatype Kind = Source | Destination | Facility | Preset

  datatype Clause = Clause(kind: Kind, value: string) {
    predicate IsValid() {
      if kind.Source? || kind.Destination? then IsStore(value) else !IsClauseKeyword(value)
    }
  }

  function Keyword(kind: Kind): string {
    match kind
    case Source => "from"
    case Destination => "to"
    case Facility => "at"
    case Preset => "preset"
  }

  function KindOf(token: string): Option<Kind> {
    if token == "from" then Some(Source)
    else if token == "to" then Some(Destination)
    else if token == "at" then Some(Facility)
    else if token == "preset" then Some(Preset)
    else None
  }

  function Slot(acc: Clauses, kind: Kind): Option<string> {
    match kind
    case Source => acc.source
    case Destination => acc.deliverTo
    case Facility => acc.facility
    case Preset => acc.preset
  }

  function Fill(acc: Clauses, c: Clause): Clauses {
    match c.kind
    case Source => acc.(source := Some(c.value))
    case Destination => acc.(deliverTo := Some(c.value))
    case Facility => acc.(facility := Some(c.value))
    case Preset => acc.(preset := Some(c.value))
  }

  /** The token after a clause keyword. */
  function ValueAfter(kind: Kind, rest: seq<string>): (r: Result<string, CraftError>)
    ensures r.Ok? <==> rest != [] && Clause(kind, rest[0]).IsValid()
    ensures r.Ok? ==> r.value == rest[0]
  {
    if kind.Source? || kind.Destination? then Store(rest) else ClauseValue(rest)
  }

  /** The clauses of a statement, added one after another to those already read. */
  function ReadClauses(rest: seq<string>, acc: Clauses): Result<Clauses, CraftError>
    decreases |rest|
  {
    if rest == [] then Ok(acc)
    else if rest[0] == "dry_run" then Err(DryRunNotAllowed)
    else
      match KindOf(rest[0])
      case None => Err(UnknownShape)
      case Some(kind) =>
        if Slot(acc, kind).Some? then Err(DuplicateClause) else
          match ValueAfter(kind, rest[1..])
          case Ok(value) => ReadClauses(rest[2..], Fill(acc, Clause(kind, value)))
          case Err(e) => Err(e)
  }

  /** The quantity token and what follows it; it may be left out before a clause. */
  function Quantity(rest: seq<string>): (r: Result<(u64, seq<string>), CraftError>)
    ensures r.Ok? ==> r.value.0 > 0
  {
    if rest == [] || IsClauseKeyword(rest[0]) then Ok((1, rest))
    else if rest[0] == "dry_run" then Err(DryRunNotAllowed)
    else
      match ParseU64(rest[0])
      case Some(n) => if n > 0 then Ok((n, rest[1..])) else Err(BadQuantity)
      case None => Err(BadQuantity)
  }

  function CraftOf(parts: seq<string>): Result<Craft, CraftError> {
    if parts == [] then Err(MissingRecipe)
    else
      match Quantity(parts[1..])
      case Err(e) => Err(e)
      case Ok((quantity, rest)) =>
        match ReadClauses(rest, NO_CLAUSES)
        case Err(e) => Err(e)
        case Ok(clauses) => Ok(Craft(parts[0], quantity, clauses))
  }

  function RecycleOf(parts: seq<string>): Result<Craft, CraftError> {
    match CraftOf(parts)
    case Err(e) => Err(e)
    case Ok(craft) => if craft.clauses.preset.Some? then Err(PresetNotAllowed) else Ok(craft)
  }

  method ParseCraftParts(parts: seq<string>) returns (r: Result<Craft, CraftError>)
    ensures r == CraftOf(parts)
  {
    if |parts| == 0 { return Err(MissingRecipe); }
    var idx := 1;
    var quantity: u64 := 1;
    if |parts| > 1 && !IsClauseKeyword(parts[1]) {
      if parts[1] == "dry_run" { return Err(DryRunNotAllowed); }
      idx := idx + 1;
      var parsed := ParseU64(parts[1]);
      if parsed.None? || parsed.value == 0 { return Err(BadQuantity); }
      quantity := parsed.value;
    }
    assert Quantity(parts[1..]) == Ok((quantity, parts[idx..]));
    var clauses := NO_CLAUSES;
    ghost var all := ReadClauses(parts[idx..], clauses);
    while idx < |parts|
      invariant idx <= |parts| && ReadClauses(parts[idx..], clauses) == all
    {
      assert parts[idx..][1..] == parts[idx + 1..];
      assert idx + 2 <= |parts| ==> parts[idx..][2..] == parts[idx + 2..];
      var clause := parts[idx];
      idx := idx + 1;
      if clause == "dry_run" { return Err(DryRunNotAllowed); }
      var kind := KindOf(clause);
      if kind.None? { return Err(UnknownShape); }
      if Slot(clauses, kind.value).Some? { return Err(DuplicateClause); }
      var value := ValueAfter(kind.value, parts[idx..]);
      if value.Err? { return Err(value.error); }
      clauses := Fill(clauses, Clause(kind.value, value.value));
      idx := idx + 1;
    }
    r := Ok(Craft(parts[0], quantity, clauses));
  }

  // ---- clause lists ----

  function Flatten(cs: seq<Clause>): seq<string> {
    if cs == [] then [] else [Keyword(cs[0].kind), cs[0].value] + Flatten(cs[1..])
  }

  predicate AllValid(cs: seq<Clause>) {
    forall i | 0 <= i < |cs| :: cs[i].IsValid()
  }

  predicate AllDistinct(cs: seq<Clause>) {
    forall i, j | 0 <= i < j < |cs| :: cs[i].kind != cs[j].kind
  }

  /** Fill the slots in the order given; a slot filled twice is an error. */
  function Collect(cs: seq<Clause>, acc: Clauses): Result<Clauses, CraftError> {
    if cs == [] then Ok(acc)
    else if Slot(acc, cs[0].kind).Some? then Err(DuplicateClause)
    else Collect(cs[1..], Fill(acc, cs[0]))
  }

  lemma ReadOneClause(c: Clause, rest: seq<string>, acc: Clauses)
    ensures ReadClauses([Keyword(c.kind), c.value] + rest, acc)
            == if Slot(acc, c.kind).Some? then Err(DuplicateClause)
               else if c.IsValid() then ReadClauses(rest, Fill(acc, c))
               else if c.kind.Source? || c.kind.Destination? then Err(BadStore) else Err(MissingValue)
  {
    var tokens := [Keyword(c.kind), c.value] + rest;
    assert tokens[1..][0] == c.value && tokens[2..] == rest;
    assert c == Clause(c.kind, c.value);
  }

  /** Valid clauses are read as they are collected, duplicates included. */
  lemma {:induction false} ReadsWhatWasFlattened(cs: seq<Clause>, acc: Clauses)
    requires AllValid(cs)
    ensures ReadClauses(Flatten(cs), acc) == Collect(cs, acc)
    decreases |cs|
  {
    if cs != [] {
      ReadOneClause(cs[0], Flatten(cs[1..]), acc);
      if Slot(acc, cs[0].kind).None? { ReadsWhatWasFlattened(cs[1..], Fill(acc, cs[0])); }
    }
  }

  /** Anything the reader accepts is a list of valid clauses. */
  lemma {:induction false} AcceptedIsFlattened(rest: seq<string>, acc: Clauses) returns (cs: seq<Clause>)
    requires ReadClauses(rest, acc).Ok?
    ensures AllValid(cs) && rest == Flatten(cs)
    decreases |rest|
  {
    if rest == [] {
      cs := [];
    } else {
      var c := Clause(KindOf(rest[0]).value, rest[1]);
      var more := AcceptedIsFlattened(rest[2..], Fill(acc, c));
      cs := [c] + more;
      assert cs[1..] == more;
      assert rest == [rest[0], rest[1]] + rest[2..];
    }
  }

  /** An invalid clause is never skipped over. */
  lemma {:induction false} InvalidIsRejected(cs: seq<Clause>, acc: Clauses)
    requires !AllValid(cs)
    ensures ReadClauses(Flatten(cs), acc).Err?
    decreases |cs|
  {
    ReadOneClause(cs[0], Flatten(cs[1..]), acc);
    if cs[0].IsValid() && Slot(acc, cs[0].kind).None? {
      assert !AllValid(cs[1..]) by {
        var i :| 0 <= i < |cs| && !cs[i].IsValid();
        assert cs[1..][i - 1] == cs[i];
      }
      InvalidIsRejected(cs[1..], Fill(acc, cs[0]));
    }
  }

  /** A list is collected exactly when no slot is named twice; then each clause has its slot and no slot is invented. */
  lemma {:induction false} CollectsExactlyDistinct(cs: seq<Clause>, acc: Clauses)
    ensures Collect(cs, acc).Ok?
            <==> AllDistinct(cs) && forall i | 0 <= i < |cs| :: Slot(acc, cs[i].kind).None?
    ensures Collect(cs, acc).Ok? ==>
              && (forall i | 0 <= i < |cs| :: Slot(Collect(cs, acc).value, cs[i].kind) == Some(cs[i].value))
              && (forall k: Kind | (forall i | 0 <= i < |cs| :: cs[i].kind != k) ::
                    Slot(Collect(cs, acc).value, k) == Slot(acc, k))
    decreases |cs|
  {
    if cs != [] && Slot(acc, cs[0].kind).None? {
      var rest, filled := cs[1..], Fill(acc, cs[0]);
      CollectsExactlyDistinct(rest, filled);
      assert forall i | 0 < i < |cs| :: cs[i] == rest[i - 1];
      assert AllDistinct(cs) ==> AllDistinct(rest);
      if Collect(rest, filled).Ok? {
        forall i | 0 <= i < |rest| ensures rest[i].kind != cs[0].kind { assert Slot(filled, rest[i].kind).None?; }
      }
    }
  }

  lemma {:induction false} MoveToFront(before: seq<Clause>, c: Clause, after: seq<Clause>, acc: Clauses)
    ensures Collect(before + [c] + after, acc) == Collect([c] + (before + after), acc)
    decreases |before|
  {
    assert ([c] + (before + after))[1..] == before + after;
    if before == [] {
      assert before + [c] + after == [c] + (before + after);
    } else {
      var x, rest := before[0], before[1..];
      assert before + [c] + after == [x] + (rest + [c] + after);
      assert (before + [c] + after)[1..] == rest + [c] + after;
      assert (before + after)[0] == x && (before + after)[1..] == rest + after;
      if Slot(acc, x.kind).None? {
        MoveToFront(rest, c, after, Fill(acc, x));
        assert ([c] + (rest + after))[1..] == rest + after;
      }
      if x.kind != c.kind {
        assert Fill(Fill(acc, x), c) == Fill(Fill(acc, c), x);
        assert Slot(Fill(acc, x), c.kind) == Slot(acc, c.kind) && Slot(Fill(acc, c), x.kind) == Slot(acc, x.kind);
      }
      if Slot(acc, x.kind).Some? && Slot(acc, c.kind).None? {
        assert Slot(Fill(acc, c), x.kind).Some?;
      }
    }
  }

  /** The order of the clauses does not matter, whether the statement is accepted or not. */
  lemma {:induction false} CollectIgnoresOrder(cs: seq<Clause>, ds: seq<Clause>, acc: Clauses)
    requires multiset(cs) == multiset(ds)
    ensures Collect(cs, acc) == Collect(ds, acc)
    decreases |cs|
  {
    assert |multiset(cs)| == |cs| && |multiset(ds)| == |ds|;
    if cs != [] {
      var c := cs[0];
      assert c in multiset(ds);
      var j :| 0 <= j < |ds| && ds[j] == c;
      var before, after := ds[..j], ds[j + 1..];
      assert ds == before + [c] + after;
      assert cs == [c] + cs[1..];
      assert multiset(ds) == multiset(before) + multiset{c} + multiset(after);
      assert multiset(cs) == multiset{c} + multiset(cs[1..]);
      assert multiset(before + after) == multiset(before) + multiset(after);
      assert multiset(cs[1..]) == multiset(cs) - multiset{c};
      MoveToFront(before, c, after, acc);
      assert ([c] + (before + after))[1..] == before + after;
      if Slot(acc, c.kind).None? { CollectIgnoresOrder(cs[1..], before + after, Fill(acc, c)); }
    }
  }

  /** Clauses read to the same node in any order, and a clause given twice is rejected in any order. */
  lemma ClauseOrderIsIrrelevant(head: seq<string>, cs: seq<Clause>, ds: seq<Clause>)
    requires multiset(cs) == multiset(ds) && AllValid(cs)
    requires |head| == 1 || (|head| == 2 && !IsClauseKeyword(head[1]))
    ensures CraftOf(head + Flatten(cs)) == CraftOf(head + Flatten(ds))
    ensures !AllDistinct(cs) ==> CraftOf(head + Flatten(cs)).Err?
  {
    assert AllValid(ds) by {
      forall i | 0 <= i < |ds| ensures ds[i].IsValid() { assert ds[i] in multiset(cs); }
    }
    ReadsWhatWasFlattened(cs, NO_CLAUSES);
    ReadsWhatWasFlattened(ds, NO_CLAUSES);
    CollectIgnoresOrder(cs, ds, NO_CLAUSES);
    CollectsExactlyDistinct(cs, NO_CLAUSES);
    HeadThenClauses(head, cs);
    HeadThenClauses(head, ds);
  }

  lemma HeadThenClauses(head: seq<string>, cs: seq<Clause>)
    requires |head| == 1 || (|head| == 2 && !IsClauseKeyword(head[1]))
    ensures Quantity((head + Flatten(cs))[1..])
            == match Quantity(head[1..]) {
                 case Ok((quantity, rest)) => Ok((quantity, Flatten(cs)))
                 case Err(e) => Err(e)
               }
  {
    var rest := (head + Flatten(cs))[1..];
    if |head| == 1 {
      assert rest == Flatten(cs);
    } else {
      assert rest == [head[1]] + Flatten(cs);
      assert rest[1..] == Flatten(cs);
    }
  }

  /** A quantity that is left out is one. */
  lemma OmittedQuantityIsOne(recipe: string, cs: seq<Clause>)
    ensures CraftOf([recipe] + Flatten(cs)) == CraftOf([recipe, "1"] + Flatten(cs))
    ensures RecycleOf([recipe] + Flatten(cs)) == RecycleOf([recipe, "1"] + Flatten(cs))
  {
    HeadThenClauses([recipe], cs);
    HeadThenClauses([recipe, "1"], cs);
    ParseU64OfShow(1);
    assert Show(1) == "1";
    assert [recipe, "1"][1..] == ["1"] && ["1"][1..] == [] && [recipe][1..] == [];
  }

  /** A dry run is refused wherever it is asked for, and not taken for a clause or a quantity. */
  lemma DryRunIsRefused(recipe: string, cs: seq<Clause>, more: seq<string>)
    requires AllValid(cs) && AllDistinct(cs)
    ensures CraftOf([recipe] + (Flatten(cs) + (["dry_run"] + more))) == Err(DryRunNotAllowed)
  {
    var words := [recipe] + (Flatten(cs) + (["dry_run"] + more));
    assert words[1..] == Flatten(cs) + (["dry_run"] + more);
    CollectsExactlyDistinct(cs, NO_CLAUSES);
    ReadsUpTo(cs, ["dry_run"] + more, NO_CLAUSES);
    if cs == [] {
      assert words[1..][0] == "dry_run";
    } else {
      assert words[1..][0] == Keyword(cs[0].kind);
    }
  }

  lemma {:induction false} ReadsUpTo(cs: seq<Clause>, rest: seq<string>, acc: Clauses)
    requires AllValid(cs) && Collect(cs, acc).Ok?
    ensures ReadClauses(Flatten(cs) + rest, acc) == ReadClauses(rest, Collect(cs, acc).value)
    decreases |cs|
  {
    if cs == [] {
      assert Flatten(cs) + rest == rest;
    } else {
      assert Flatten(cs) + rest == [Keyword(cs[0].kind), cs[0].value] + (Flatten(cs[1..]) + rest);
      ReadOneClause(cs[0], Flatten(cs[1..]) + rest, acc);
      ReadsUpTo(cs[1..], rest, Fill(acc, cs[0]));
    }
  }

  // ---- printing ----

  function OneClause(kind: Kind, value: Option<string>): seq<Clause> {
    if value.Some? then [Clause(kind, value.value)] else []
  }

  /** The clauses of a request in the order they are printed. */
  function ClauseList(c: Clauses): (cs: seq<Clause>)
    ensures AllDistinct(cs)
  {
    OneClause(Source, c.source) + OneClause(Destination, c.deliverTo)
    + OneClause(Facility, c.facility) + OneClause(Preset, c.preset)
  }

  function CraftTokens(n: Craft): seq<string> {
    [n.recipe, Show(n.quantity)] + Flatten(ClauseList(n.clauses))
  }

  predicate WellFormedCraft(n: Craft) {
    n.quantity > 0 && AllValid(ClauseList(n.clauses))
  }

  /** The printed list names a slot exactly when it is filled. */
  lemma ListNamesSlot(c: Clauses, k: Kind)
    ensures Slot(c, k).Some? ==> Clause(k, Slot(c, k).value) in ClauseList(c)
    ensures Slot(c, k).None? ==> forall i | 0 <= i < |ClauseList(c)| :: ClauseList(c)[i].kind != k
  {
    if Slot(c, k).Some? { assert Clause(k, Slot(c, k).value) in OneClause(k, Slot(c, k)); }
  }

  lemma SlotCollectsBack(c: Clauses, k: Kind)
    ensures Collect(ClauseList(c), NO_CLAUSES).Ok? && Slot(Collect(ClauseList(c), NO_CLAUSES).value, k) == Slot(c, k)
  {
    var cs := ClauseList(c);
    CollectsExactlyDistinct(cs, NO_CLAUSES);
    ListNamesSlot(c, k);
    if Slot(c, k).Some? {
      var i :| 0 <= i < |cs| && cs[i] == Clause(k, Slot(c, k).value);
    } else {
      assert Slot(NO_CLAUSES, k).None?;
    }
  }

  lemma ListCollectsBack(c: Clauses)
    ensures Collect(ClauseList(c), NO_CLAUSES) == Ok(c)
  {
    SlotCollectsBack(c, Source);
    SlotCollectsBack(c, Destination);
    SlotCollectsBack(c, Facility);
    SlotCollectsBack(c, Preset);
  }

  lemma NumberIsNoKeyword(n: nat)
    ensures !IsClauseKeyword(Show(n)) && Show(n) != "dry_run"
  {
    assert Show(n)[0] in Show(n);
  }

  /** A craft request survives printing exactly when it is well formed. */
  lemma CraftRoundTrip(n: Craft)
    ensures CraftOf(CraftTokens(n)) == Ok(n) <==> WellFormedCraft(n)
    ensures CraftOf(CraftTokens(n)).Ok? ==> CraftOf(CraftTokens(n)) == Ok(n)
  {
    var cs := ClauseList(n.clauses);
    assert CraftTokens(n)[1..] == [Show(n.quantity)] + Flatten(cs);
    assert CraftTokens(n)[1..][1..] == Flatten(cs);
    NumberIsNoKeyword(n.quantity);
    ParseU64OfShow(n.quantity);
    if AllValid(cs) {
      ReadsWhatWasFlattened(cs, NO_CLAUSES);
      ListCollectsBack(n.clauses);
    } else {
      InvalidIsRejected(cs, NO_CLAUSES);
    }
  }

  /** Whatever was accepted, in whatever order it was written, prints to a form that reads back the same. */
  lemma AcceptedCraftReprints(parts: seq<string>)
    requires CraftOf(parts).Ok?
    ensures CraftOf(CraftTokens(CraftOf(parts).value)) == CraftOf(parts)
  {
    var n := CraftOf(parts).value;
    var rest := Quantity(parts[1..]).value.1;
    var cs := AcceptedIsFlattened(rest, NO_CLAUSES);
    ReadsWhatWasFlattened(cs, NO_CLAUSES);
    CollectsExactlyDistinct(cs, NO_CLAUSES);
    var ds := ClauseList(n.clauses);
    forall i | 0 <= i < |ds| ensures ds[i].IsValid() {
      assert Slot(n.clauses, ds[i].kind) == Some(ds[i].value);
      assert Slot(NO_CLAUSES, ds[i].kind).None?;
      var j :| 0 <= j < |cs| && cs[j].kind == ds[i].kind;
      assert cs[j] == ds[i];
    }
    CraftRoundTrip(n);
  }

  /** Recycling is crafting without a preset: the same round trip, and a preset is always refused. */
  lemma RecycleRoundTrip(n: Craft)
    ensures RecycleOf(CraftTokens(n)) == Ok(n) <==> WellFormedCraft(n) && n.clauses.preset.None?
  {
    CraftRoundTrip(n);
  }

  // ---- text ----

  function ClauseText(keyword: string, value: Option<string>): string {
    if value.Some? then " " + keyword + " " + value.value else ""
  }

  function QuotedClauseText(keyword: string, value: Option<string>): string {
    if value.Some? then " " + keyword + " " + Arg(value.value) else ""
  }

  /** Stores are written as they are, facility and preset as arguments. */
  function RenderJob(name: string, n: Craft): string {
    name + " " + Arg(n.recipe) + " " + Show(n.quantity)
    + ClauseText("from", n.clauses.source) + ClauseText("to", n.clauses.deliverTo)
    + QuotedClauseText("at", n.clauses.facility) + QuotedClauseText("preset", n.clauses.preset) + ";"
  }

  function RenderCraft(n: Craft): string {
    RenderJob("craft", n)
  }

  /** A recycling request has no preset to print. */
  function RenderRecycle(n: Craft): string {
    RenderJob("recycle", n.(clauses := n.clauses.(preset := None)))
  }

  lemma StoreIsPlain(s: string)
    requires IsStore(s)
    ensures IsPrintable(s) && Arg(s) == s
  {
    if s == "cargo" {
      PlainIsBare("cargo");
    } else if s == "storage" {
      PlainIsBare("storage");
    } else {
      PlainIsBare("faction");
    }
  }

  lemma KeywordIsPlain(kind: Kind)
    ensures IsPrintable(Keyword(kind)) && Arg(Keyword(kind)) == Keyword(kind)
  {
    PlainIsBare(Keyword(kind));
  }

  lemma OneClausePrints(kind: Kind, value: Option<string>)
    ensures Spaced(Flatten(OneClause(kind, value))) == QuotedClauseText(Keyword(kind), value)
  {
    if value.Some? {
      KeywordIsPlain(kind);
      var cs := OneClause(kind, value);
      assert cs[1..] == [];
      assert Flatten(cs) == [Keyword(kind), value.value];
      assert Flatten(cs)[1..] == [value.value];
      assert [value.value][1..] == [];
      assert Spaced([value.value]) == " " + Arg(value.value);
    }
  }

  lemma StoreClauseText(keyword: string, value: Option<string>)
    requires value.Some? ==> IsStore(value.value)
    ensures ClauseText(keyword, value) == QuotedClauseText(keyword, value)
  {
    if value.Some? { StoreIsPlain(value.value); }
  }

  lemma FlattenConcat(a: seq<Clause>, b: seq<Clause>)
    ensures Flatten(a + b) == Flatten(a) + Flatten(b)
    decreases |a|
  {
    if a == [] {
      assert a + b == b;
    } else {
      assert (a + b)[1..] == a[1..] + b;
      FlattenConcat(a[1..], b);
    }
  }

  lemma ClauseListPrints(c: Clauses)
    ensures Spaced(Flatten(ClauseList(c)))
            == QuotedClauseText("from", c.source) + QuotedClauseText("to", c.deliverTo)
               + QuotedClauseText("at", c.facility) + QuotedClauseText("preset", c.preset)
  {
    var s, d := OneClause(Source, c.source), OneClause(Destination, c.deliverTo);
    var f, p := OneClause(Facility, c.facility), OneClause(Preset, c.preset);
    FlattenConcat(s, d);
    FlattenConcat(s + d, f);
    FlattenConcat(s + d + f, p);
    SpacedConcat(Flatten(s), Flatten(d));
    SpacedConcat(Flatten(s) + Flatten(d), Flatten(f));
    SpacedConcat(Flatten(s) + Flatten(d) + Flatten(f), Flatten(p));
    OneClausePrints(Source, c.source);
    OneClausePrints(Destination, c.deliverTo);
    OneClausePrints(Facility, c.facility);
    OneClausePrints(Preset, c.preset);
  }

  lemma CraftText(name: string, recipe: string, quantity: string, a: string, b: string, c: string, d: string)
    ensures name + ((" " + recipe + " " + quantity) + (a + b + c + d)) + ";"
            == (name + " ") + recipe + " " + quantity + a + b + c + d + ";"
  {}

  lemma RenderJobIsStatement(name: string, n: Craft)
    requires WellFormedCraft(n)
    ensures RenderJob(name, n) == Statement(name, CraftTokens(n))
  {
    StoresAreStores(n.clauses);
    StoreClauseText("from", n.clauses.source);
    StoreClauseText("to", n.clauses.deliverTo);
    ClauseListPrints(n.clauses);
    HeadPrints(n);
    CraftText(name, Arg(n.recipe), Show(n.quantity),
              ClauseText("from", n.clauses.source), ClauseText("to", n.clauses.deliverTo),
              QuotedClauseText("at", n.clauses.facility), QuotedClauseText("preset", n.clauses.preset));
  }

  lemma StoresAreStores(c: Clauses)
    requires AllValid(ClauseList(c))
    ensures (c.source.Some? ==> IsStore(c.source.value)) && (c.deliverTo.Some? ==> IsStore(c.deliverTo.value))
  {
    var cs := ClauseList(c);
    if c.source.Some? { assert cs[0].IsValid(); }
    if c.deliverTo.Some? { assert cs[if c.source.Some? then 1 else 0].IsValid(); }
  }

  lemma SpacedTwo(a: string, b: string)
    requires Arg(b) == b
    ensures Spaced([a, b]) == " " + Arg(a) + " " + b
  {
    assert [a, b][1..] == [b] && [b][1..] == [];
    assert Spaced([b]) == " " + b;
  }

  lemma HeadPrints(n: Craft)
    ensures Spaced(CraftTokens(n))
            == (" " + Arg(n.recipe) + " " + Show(n.quantity)) + Spaced(Flatten(ClauseList(n.clauses)))
  {
    NumberIsPlain(n.quantity);
    SpacedTwo(n.recipe, Show(n.quantity));
    SpacedConcat([n.recipe, Show(n.quantity)], Flatten(ClauseList(n.clauses)));
  }

  lemma {:induction false} ClausesArePrintable(cs: seq<Clause>)
    requires forall i | 0 <= i < |cs| :: IsPrintable(cs[i].value)
    ensures AllPrintable(Flatten(cs))
    decreases |cs|
  {
    if cs != [] {
      KeywordIsPlain(cs[0].kind);
      ClausesArePrintable(cs[1..]);
    }
  }

  predicate NamesArePrintable(n: Craft) {
    && IsPrintable(n.recipe)
    && (n.clauses.facility.Some? ==> IsPrintable(n.clauses.facility.value))
    && (n.clauses.preset.Some? ==> IsPrintable(n.clauses.preset.value))
  }

  lemma JobLexes(name: string, n: Craft)
    requires IsPlain(name) && IsIdentStart(name[0]) && WellFormedCraft(n) && NamesArePrintable(n)
    ensures LexCommand(RenderJob(name, n)) == Some((Command(name, CraftTokens(n)), ""))
  {
    RenderJobIsStatement(name, n);
    CraftTokensArePrintable(n);
    StatementLexes(name, CraftTokens(n));
  }

  lemma JobWords()
    ensures IsPlain("craft") && IsIdentStart("craft"[0]) && IsPlain("recycle") && IsIdentStart("recycle"[0])
  {}

  /** From request to text and back. */
  lemma CraftTextRoundTrip(n: Craft)
    requires WellFormedCraft(n) && NamesArePrintable(n)
    ensures LexCommand(RenderCraft(n)) == Some((Command("craft", CraftTokens(n)), ""))
            && CraftOf(CraftTokens(n)) == Ok(n)
  {
    CraftRoundTrip(n);
    JobWords();
    JobLexes("craft", n);
  }

  /** From recycling request to text and back. */
  lemma RecycleTextRoundTrip(n: Craft)
    requires WellFormedCraft(n) && NamesArePrintable(n) && n.clauses.preset.None?
    ensures LexCommand(RenderRecycle(n)) == Some((Command("recycle", CraftTokens(n)), ""))
            && RecycleOf(CraftTokens(n)) == Ok(n)
  {
    RecycleRoundTrip(n);
    JobWords();
    JobLexes("recycle", n);
    assert n.(clauses := n.clauses.(preset := None)) == n;
  }

  lemma CraftTokensArePrintable(n: Craft)
    requires WellFormedCraft(n) && NamesArePrintable(n)
    ensures AllPrintable(CraftTokens(n))
  {
    var cs := ClauseList(n.clauses);
    forall i | 0 <= i < |cs| ensures IsPrintable(cs[i].value) {
      assert cs[i].IsValid();
      if cs[i].kind.Source? || cs[i].kind.Destination? { StoreIsPlain(cs[i].value); }
    }
    ClausesArePrintable(cs);
    NumberIsPlain(n.quantity);
  }
}
