/** Resolving an identifier typed by a person against the identifiers that are known. */
module Resolution {
  import opened Prelude
  import opened TextTools
  import opened EditDistance

  datatype ArgType =
    | AnyArg | IntegerArg | ItemIdArg | SystemIdArg | PoiIdArg | GoTargetArg
    | ShipIdArg | ListingIdArg | MissionIdArg | ModuleIdArg | RecipeIdArg

  datatype Observation = Observation(itemIds: seq<string>, poiIds: seq<string>, systemIds: seq<string>,
                                     missionIds: seq<string>, shipIds: seq<string>, ownedShipIds: set<string>,
                                     moduleIds: seq<string>, recipeIds: seq<string>, listingIds: seq<string>)

  /** The identifiers an argument of this kind is looked up among; some kinds are not looked up. */
  function CandidatesFor(kind: ArgType, obs: Observation): Option<seq<string>> {
    match kind
    case ItemIdArg => Some(obs.itemIds)
    case PoiIdArg => Some(obs.poiIds)
    case SystemIdArg => Some(obs.systemIds)
    case GoTargetArg => Some(obs.systemIds + obs.poiIds)
    case MissionIdArg => Some(obs.missionIds)
    case ShipIdArg => Some(obs.shipIds)
    case ModuleIdArg => Some(obs.moduleIds)
    case RecipeIdArg => Some(obs.recipeIds)
    case ListingIdArg => Some(obs.listingIds)
    case AnyArg => None
    case IntegerArg => None
  }

  // ---- tokens ----

  function UnderscoreChar(c: char): char {
    if c == ' ' || c == '-' then '_' else c
  }

  function Underscored(s: string): (r: string)
    ensures |r| == |s|
    ensures forall i | 0 <= i < |s| :: r[i] == UnderscoreChar(s[i])
  {
    seq(|s|, i requires 0 <= i < |s| => UnderscoreChar(s[i]))
  }

  /** Two spellings of one identifier have the same token. */
  function Token(value: string): string {
    Trim(Underscored(AsciiLower(value)))
  }

  lemma TokenIsStable(value: string)
    ensures Token(Token(value)) == Token(value)
  {
    var plain := Underscored(AsciiLower(value));
    var t := Trim(plain);
    var k := TrimIsSlice(plain);
    forall i | 0 <= i < |t| ensures LowerChar(t[i]) == t[i] && UnderscoreChar(t[i]) == t[i] {
      assert t[i] == plain[k + i];
    }
    assert AsciiLower(t) == t;
    assert Underscored(t) == t;
    TrimIsStable(plain);
  }

  // ---- removing repeats ----

  /** The first spelling of every token not seen before. */
  function Distinct(values: seq<string>, seen: set<string>): seq<string> {
    if values == [] then []
    else if Token(values[0]) in seen then Distinct(values[1..], seen)
    else [values[0]] + Distinct(values[1..], seen + {Token(values[0])})
  }

  method Dedupe(values: seq<string>) returns (out: seq<string>)
    ensures out == Distinct(values, {})
  {
    var seen: set<string> := {};
    out := [];
    assert values[0..] == values;
    for i := 0 to |values|
      invariant out + Distinct(values[i..], seen) == Distinct(values, {})
    {
      assert values[i..][1..] == values[i + 1..];
      var key := Token(values[i]);
      if key !in seen {
        ghost var more := Distinct(values[i + 1..], seen + {key});
        assert out + ([values[i]] + more) == out + [values[i]] + more;
        seen := seen + {key};
        out := out + [values[i]];
      }
    }
  }

  /** The first value with the wanted token. */
  function FirstWith(values: seq<string>, wanted: string): (r: Option<string>)
    ensures r.Some? ==> Token(r.value) == wanted && r.value in values
    ensures r.None? ==> forall v | v in values :: Token(v) != wanted
  {
    if values == [] then None
    else if Token(values[0]) == wanted then Some(values[0])
    else FirstWith(values[1..], wanted)
  }

  lemma {:induction false} DistinctKeepsFirst(values: seq<string>, seen: set<string>, wanted: string)
    requires wanted !in seen
    ensures FirstWith(Distinct(values, seen), wanted) == FirstWith(values, wanted)
    decreases |values|
  {
    if values != [] {
      if Token(values[0]) in seen {
        DistinctKeepsFirst(values[1..], seen, wanted);
      } else {
        var rest := Distinct(values[1..], seen + {Token(values[0])});
        assert ([values[0]] + rest)[1..] == rest;
        if Token(values[0]) != wanted { DistinctKeepsFirst(values[1..], seen + {Token(values[0])}, wanted); }
      }
    }
  }

  // ---- suggestions ----

  /** The value kept by `min_by_key` after one more: a later one only wins by being strictly nearer. */
  function Nearer(best: Option<string>, value: string, distance: string -> nat): Option<string> {
    if best.None? || distance(Token(value)) < distance(Token(best.value)) then Some(value) else best
  }

  function NearestOf(values: seq<string>, best: Option<string>, distance: string -> nat): (r: Option<string>)
    ensures best.Some? || values != [] ==> r.Some?
    decreases |values|
  {
    if values == [] then best else NearestOf(values[1..], Nearer(best, values[0], distance), distance)
  }

  ghost predicate Covers(best: Option<string>, seen: set<string>, distance: string -> nat) {
    forall t | t in seen :: best.Some? && distance(Token(best.value)) <= distance(t)
  }

  lemma NearerCovers(best: Option<string>, seen: set<string>, v: string, distance: string -> nat)
    requires Covers(best, seen, distance)
    ensures Covers(Nearer(best, v, distance), seen + {Token(v)}, distance)
    ensures Token(v) in seen ==> Nearer(best, v, distance) == best
  {}

  lemma NearestStep(v: string, rest: seq<string>, best: Option<string>, distance: string -> nat)
    ensures NearestOf([v] + rest, best, distance) == NearestOf(rest, Nearer(best, v, distance), distance)
  {
    assert ([v] + rest)[1..] == rest;
  }

  /** Repeats left out by `Distinct` could not have been nearer than what was kept. */
  lemma {:induction false} DistinctKeepsNearest(values: seq<string>, seen: set<string>, best: Option<string>,
                                                distance: string -> nat)
    requires Covers(best, seen, distance)
    ensures NearestOf(Distinct(values, seen), best, distance) == NearestOf(values, best, distance)
    decreases |values|
  {
    if values != [] {
      var v := values[0];
      NearerCovers(best, seen, v, distance);
      var more := if Token(v) in seen then seen else seen + {Token(v)};
      DistinctKeepsNearest(values[1..], more, Nearer(best, v, distance), distance);
      if Token(v) !in seen { NearestStep(v, Distinct(values[1..], seen + {Token(v)}), best, distance); }
    }
  }

  /** `values[k]` is the first value of least distance. */
  ghost predicate IsFirstNearest(values: seq<string>, k: nat, distance: string -> nat) {
    && k < |values|
    && (forall j | 0 <= j < |values| :: distance(Token(values[k])) <= distance(Token(values[j])))
    && (forall j | 0 <= j < k :: distance(Token(values[k])) < distance(Token(values[j])))
  }

  /** `value` is the first of the values to come nearest. */
  ghost predicate ComesNearest(values: seq<string>, value: string, distance: string -> nat) {
    exists k: nat :: IsFirstNearest(values, k, distance) && values[k] == value
  }

  lemma {:induction false} NearestIsFirst(before: seq<string>, k: nat, values: seq<string>, distance: string -> nat)
    returns (r: nat)
    requires IsFirstNearest(before, k, distance)
    ensures IsFirstNearest(before + values, r, distance)
    ensures NearestOf(values, Some(before[k]), distance) == Some((before + values)[r])
    decreases |values|
  {
    if values == [] {
      assert before + values == before;
      r := k;
    } else {
      var more := before + [values[0]];
      assert more + values[1..] == before + values;
      var k' := if distance(Token(values[0])) < distance(Token(before[k])) then |before| else k;
      assert Nearer(Some(before[k]), values[0], distance) == Some(more[k']);
      r := NearestIsFirst(more, k', values[1..], distance);
    }
  }

  /** The distance of a token from the wanted one, as the two-row method reports it. */
  function DistanceFrom(wanted: string): string -> nat {
    token => Reported(wanted, token)
  }

  // ---- resolution ----

  datatype Resolved = NotChecked | Found(id: string) | Unknown(suggestion: string)

  function ResolveAmong(known: seq<string>, arg: string): Resolved {
    var candidates := Distinct(known, {});
    if candidates == [] then NotChecked
    else
      match FirstWith(candidates, Token(arg))
      case Some(exact) => Found(exact)
      case None => Unknown(NearestOf(candidates, None, DistanceFrom(Token(arg))).value)
  }

  function Resolve(kind: ArgType, arg: string, obs: Observation): Resolved {
    match CandidatesFor(kind, obs)
    case Some(known) => ResolveAmong(known, arg)
    case None => NotChecked
  }

  method ResolveIdentity(kind: ArgType, arg: string, obs: Observation) returns (r: Resolved)
    ensures r == Resolve(kind, arg, obs)
  {
    var known := CandidatesFor(kind, obs);
    if known.None? { return NotChecked; }
    var candidates := Dedupe(known.value);
    if candidates == [] { return NotChecked; }
    var wanted := Token(arg);
    var exact := FirstWith(candidates, wanted);
    if exact.Some? { return Found(exact.value); }
    var best := FindNearest(candidates, wanted);
    r := Unknown(best);
  }

  /** `min_by_key` over the reported distances. */
  method FindNearest(candidates: seq<string>, wanted: string) returns (best: string)
    requires candidates != []
    ensures NearestOf(candidates, None, DistanceFrom(wanted)) == Some(best)
  {
    best := candidates[0];
    var least := Levenshtein(wanted, Token(best));
    ghost var distance := DistanceFrom(wanted);
    for i := 1 to |candidates|
      invariant least == distance(Token(best))
      invariant NearestOf(candidates[i..], Some(best), distance) == NearestOf(candidates, None, distance)
    {
      assert candidates[i..][1..] == candidates[i + 1..];
      var d := Levenshtein(wanted, Token(candidates[i]));
      assert d == distance(Token(candidates[i]));
      if d < least {
        best, least := candidates[i], d;
      }
    }
  }

  /**
   * Resolution returns the first known identifier with the same token, and suggests only when there is none: then the
   * first known identifier of least distance. It is not attempted when nothing is known.
   */
  lemma ResolveMeaning(known: seq<string>, arg: string)
    ensures ResolveAmong(known, arg).NotChecked? <==> known == []
    ensures ResolveAmong(known, arg).Found? <==> FirstWith(known, Token(arg)).Some?
    ensures ResolveAmong(known, arg).Found? ==> FirstWith(known, Token(arg)) == Some(ResolveAmong(known, arg).id)
    ensures ResolveAmong(known, arg).Unknown? ==>
              ComesNearest(known, ResolveAmong(known, arg).suggestion, DistanceFrom(Token(arg)))
  {
    DistinctKeepsFirst(known, {}, Token(arg));
    if known != [] { NearestKnown(known, DistanceFrom(Token(arg))); }
  }

  lemma NearestKnown(known: seq<string>, distance: string -> nat)
    requires known != []
    ensures Distinct(known, {}) != []
    ensures ComesNearest(known, NearestOf(Distinct(known, {}), None, distance).value, distance)
  {
    DistinctKeepsNearest(known, {}, None, distance);
    assert known == [known[0]] + known[1..];
    var k := NearestIsFirst([known[0]], 0, known[1..], distance);
  }

  /** What resolution returns resolves to itself. */
  lemma ResolveIsIdempotent(known: seq<string>, arg: string)
    requires ResolveAmong(known, arg).Found?
    ensures ResolveAmong(known, ResolveAmong(known, arg).id) == ResolveAmong(known, arg)
  {
    ResolveMeaning(known, arg);
  }

  /** Different spellings of one identifier resolve alike, and the token itself is one of its spellings. */
  lemma SpellingIsIrrelevant(known: seq<string>, arg: string, other: string)
    requires Token(arg) == Token(other)
    ensures ResolveAmong(known, arg) == ResolveAmong(known, other)
    ensures ResolveAmong(known, Token(arg)) == ResolveAmong(known, arg)
  {
    TokenIsStable(arg);
  }

  lemma {:induction false} FirstOfBoth(a: seq<string>, b: seq<string>, wanted: string)
    ensures FirstWith(a + b, wanted) == OrElse(FirstWith(a, wanted), FirstWith(b, wanted))
    decreases |a|
  {
    if a == [] {
      assert a + b == b;
    } else {
      assert (a + b)[1..] == a[1..] + b;
      FirstOfBoth(a[1..], b, wanted);
    }
  }

  lemma FoundIsFirst(known: seq<string>, arg: string)
    ensures ResolveAmong(known, arg).Found? <==> FirstWith(known, Token(arg)).Some?
    ensures ResolveAmong(known, arg).Found? ==> ResolveAmong(known, arg) == Found(FirstWith(known, Token(arg)).value)
  {
    ResolveMeaning(known, arg);
  }

  /** Of two answers the first one found counts. */
  predicate Prefers(both: Resolved, first: Resolved, second: Resolved) {
    && (both.Found? <==> first.Found? || second.Found?)
    && (first.Found? ==> both == first)
    && (!first.Found? && second.Found? ==> both == second)
  }

  lemma FirstListGoesFirst(a: seq<string>, b: seq<string>, arg: string)
    ensures Prefers(ResolveAmong(a + b, arg), ResolveAmong(a, arg), ResolveAmong(b, arg))
  {
    FoundIsFirst(a, arg);
    FoundIsFirst(b, arg);
    FoundIsFirst(a + b, arg);
    FirstOfBoth(a, b, Token(arg));
  }

  lemma ResolvesAmong(kind: ArgType, known: seq<string>, arg: string, obs: Observation)
    requires CandidatesFor(kind, obs) == Some(known)
    ensures Resolve(kind, arg, obs) == ResolveAmong(known, arg)
  {}

  /** One kind's known identifiers followed by another's resolve to the first kind wherever that is found. */
  lemma JoinedKindsResolve(go: ArgType, system: ArgType, place: ArgType, arg: string, obs: Observation)
    requires CandidatesFor(system, obs).Some? && CandidatesFor(place, obs).Some?
    requires CandidatesFor(go, obs) == Some(CandidatesFor(system, obs).value + CandidatesFor(place, obs).value)
    ensures Prefers(Resolve(go, arg, obs), Resolve(system, arg, obs), Resolve(place, arg, obs))
  {
    var systems, places := CandidatesFor(system, obs).value, CandidatesFor(place, obs).value;
    FirstListGoesFirst(systems, places, arg);
    ResolvesAmong(system, systems, arg, obs);
    ResolvesAmong(place, places, arg, obs);
    ResolvesAmong(go, systems + places, arg, obs);
  }

  /** Where one may go, a system of that name goes before a place of that name. */
  lemma GoPrefersSystems(arg: string, obs: Observation)
    ensures Prefers(Resolve(GoTargetArg, arg, obs), Resolve(SystemIdArg, arg, obs), Resolve(PoiIdArg, arg, obs))
  {
    JoinedKindsResolve(GoTargetArg, SystemIdArg, PoiIdArg, arg, obs);
  }

  /** Two characters an identifier may be spelt with alike: letters in either case; blanks, hyphens and underscores. */
  predicate IsSameLetter(a: char, b: char) {
    LowerChar(a) == LowerChar(b) || (a in " -_" && b in " -_")
  }

  /** Spellings that differ in case and in what joins their words have one token. */
  lemma SpellingsAgree(a: string, b: string)
    requires |a| == |b| && forall i | 0 <= i < |a| :: IsSameLetter(a[i], b[i])
    ensures Token(a) == Token(b)
  {
    var x, y := Underscored(AsciiLower(a)), Underscored(AsciiLower(b));
    forall i | 0 <= i < |x| ensures x[i] == y[i] {
      JoinersAgree(a[i], b[i]);
    }
    assert x == y;
  }

  lemma JoinersAgree(a: char, b: char)
    requires IsSameLetter(a, b)
    ensures UnderscoreChar(LowerChar(a)) == UnderscoreChar(LowerChar(b))
  {
    var joiners := " -_";
    assert joiners[0] == ' ' && joiners[1] == '-' && joiners[2] == '_';
    assert a in joiners <==> exists i :: 0 <= i < 3 && joiners[i] == a;
    assert b in joiners <==> exists i :: 0 <= i < 3 && joiners[i] == b;
  }
}
