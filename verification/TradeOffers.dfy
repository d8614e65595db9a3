/** The `trade_offer` command: a list of offered and requested terms, lowered by one loop and printed side by side. */
module TradeOffers {
  import opened Prelude
  import opened TextTools
  import opened Decimal
  import opened Lexing

  datatype TradeItem = TradeItem(item: string, quantity: u64)

  datatype TradeOffer = TradeOffer(target: string, offerItems: seq<TradeItem>, offerCredits: Option<u64>,
                                   requestItems: seq<TradeItem>, requestCredits: Option<u64>)

  datatype TradeError = InvalidArgs

  datatype Side = Offering | Requesting

  function SideOf(token: string): Option<Side> {
    if token == "offer" then Some(Offering) else if token == "request" then Some(Requesting) else None
  }

  function SideToken(side: Side): string {
    if side.Offering? then "offer" else "request"
  }

  /** `credits <quantity>` or `<quantity> <item>` on one side. */
  datatype Term = CreditTerm(side: Side, amount: u64) | ItemTerm(side: Side, item: TradeItem)

  function Items(o: TradeOffer, side: Side): seq<TradeItem> {
    if side.Offering? then o.offerItems else o.requestItems
  }

  function CreditsOn(o: TradeOffer, side: Side): Option<u64> {
    if side.Offering? then o.offerCredits else o.requestCredits
  }

  /** Credits may be named once a side, items any number of times. */
  function AddTerm(o: TradeOffer, t: Term): Result<TradeOffer, TradeError> {
    match t
    case CreditTerm(side, amount) =>
      if CreditsOn(o, side).Some? then Err(InvalidArgs)
      else Ok(if side.Offering? then o.(offerCredits := Some(amount)) else o.(requestCredits := Some(amount)))
    case ItemTerm(side, item) =>
      Ok(if side.Offering? then o.(offerItems := o.offerItems + [item])
         else o.(requestItems := o.requestItems + [item]))
  }

  /** The three tokens of one term. */
  function TermOf(rest: seq<string>): (r: Result<Term, TradeError>)
    ensures r.Ok? ==> |rest| >= 3
  {
    if |rest| < 3 || SideOf(rest[0]).None? then Err(InvalidArgs)
    else if rest[1] == "credits" then
      match ParseU64(rest[2])
      case Some(n) => Ok(CreditTerm(SideOf(rest[0]).value, n))
      case None => Err(InvalidArgs)
    else
      match ParseU64(rest[1])
      case Some(n) => Ok(ItemTerm(SideOf(rest[0]).value, TradeItem(rest[2], n)))
      case None => Err(InvalidArgs)
  }

  function TermsOf(rest: seq<string>, o: TradeOffer): Result<TradeOffer, TradeError>
    decreases |rest|
  {
    if rest == [] then Ok(o)
    else
      match TermOf(rest)
      case Err(e) => Err(e)
      case Ok(term) =>
        match AddTerm(o, term)
        case Err(e) => Err(e)
        case Ok(more) => TermsOf(rest[3..], more)
  }

  function Blank(target: string): TradeOffer {
    TradeOffer(target, [], None, [], None)
  }

  predicate IsEmptyOffer(o: TradeOffer) {
    o.offerItems == [] && o.offerCredits.None? && o.requestItems == [] && o.requestCredits.None?
  }

  /** A bare target stands for an offer of one credit; an offer that came out empty would be refused. */
  function OfferOf(args: seq<string>): Result<TradeOffer, TradeError> {
    if args == [] then Err(InvalidArgs)
    else if |args| == 1 then Ok(Blank(args[0]).(offerCredits := Some(1)))
    else
      match TermsOf(args[1..], Blank(args[0]))
      case Err(e) => Err(e)
      case Ok(o) => if IsEmptyOffer(o) then Err(InvalidArgs) else Ok(o)
  }

  method TradeOfferAction(args: seq<string>) returns (r: Result<TradeOffer, TradeError>)
    ensures r == OfferOf(args)
    ensures r.Ok? ==> r.value.target == args[0] && !IsEmptyOffer(r.value)
  {
    if |args| == 0 { return Err(InvalidArgs); }
    var request := Blank(args[0]);
    if |args| == 1 {
      request := request.(offerCredits := Some(1));
      return Ok(request);
    }
    var idx := 1;
    while idx < |args|
      invariant 1 <= idx <= |args| && TermsOf(args[idx..], request) == TermsOf(args[1..], Blank(args[0]))
      invariant request.target == args[0]
    {
      ghost var rest := args[idx..];
      assert idx + 3 <= |args| ==> rest[3..] == args[idx + 3..];
      var side := SideOf(args[idx]);
      if side.None? { return Err(InvalidArgs); }
      idx := idx + 1;
      if idx < |args| && args[idx] == "credits" {
        if idx + 1 >= |args| { return Err(InvalidArgs); }
        var quantity := ParseU64(args[idx + 1]);
        if quantity.None? { return Err(InvalidArgs); }
        if side.value.Offering? {
          if request.offerCredits.Some? { return Err(InvalidArgs); }
          request := request.(offerCredits := quantity);
        } else {
          if request.requestCredits.Some? { return Err(InvalidArgs); }
          request := request.(requestCredits := quantity);
        }
      } else {
        if idx >= |args| { return Err(InvalidArgs); }
        var quantity := ParseU64(args[idx]);
        if quantity.None? { return Err(InvalidArgs); }
        if idx + 1 >= |args| { return Err(InvalidArgs); }
        var entry := TradeItem(args[idx + 1], quantity.value);
        if side.value.Offering? {
          request := request.(offerItems := request.offerItems + [entry]);
        } else {
          request := request.(requestItems := request.requestItems + [entry]);
        }
      }
      idx := idx + 2;
    }
    if IsEmptyOffer(request) { return Err(InvalidArgs); }
    r := Ok(request);
  }

  lemma {:induction false} TermsOnlyAdd(rest: seq<string>, o: TradeOffer)
    ensures TermsOf(rest, o).Ok? && (rest != [] || !IsEmptyOffer(o)) ==> !IsEmptyOffer(TermsOf(rest, o).value)
    decreases |rest|
  {
    if rest != [] && TermOf(rest).Ok? && AddTerm(o, TermOf(rest).value).Ok? {
      TermsOnlyAdd(rest[3..], AddTerm(o, TermOf(rest).value).value);
    }
  }

  /** The final test never refuses anything: terms that were read leave something in the offer. */
  lemma EmptinessTestIsDead(args: seq<string>)
    requires |args| >= 2
    ensures OfferOf(args) == TermsOf(args[1..], Blank(args[0]))
  {
    TermsOnlyAdd(args[1..], Blank(args[0]));
  }

  // ---- which word lists are offers ----

  /** The `i`-th group of three words names a side, then `credits` and a number, or a number and an item. */
  predicate IsTermAt(rest: seq<string>, i: nat)
    requires 3 * i + 3 <= |rest|
  {
    && (rest[3 * i] == "offer" || rest[3 * i] == "request")
    && (if rest[3 * i + 1] == "credits" then ParseU64(rest[3 * i + 2]).Some? else ParseU64(rest[3 * i + 1]).Some?)
  }

  predicate NamesCredits(rest: seq<string>, i: nat, side: string)
    requires 3 * i + 3 <= |rest|
  {
    rest[3 * i] == side && rest[3 * i + 1] == "credits"
  }

  ghost predicate NeverNamesCredits(rest: seq<string>, side: string) {
    forall i: nat | 3 * i + 3 <= |rest| :: !NamesCredits(rest, i, side)
  }

  /** Groups of three words, each a term, with credits named at most once for each side. */
  ghost predicate AreTerms(rest: seq<string>) {
    && |rest| % 3 == 0
    && (forall i: nat | 3 * i + 3 <= |rest| :: IsTermAt(rest, i))
    && (forall i: nat, j: nat, side | i < j && 3 * j + 3 <= |rest| ::
          !(NamesCredits(rest, i, side) && NamesCredits(rest, j, side)))
  }

  /** A target and a list of terms, which may be empty. */
  ghost predicate IsListOfTerms(args: seq<string>) {
    args != [] && AreTerms(args[1..])
  }

  /** No group names credits for a side that has them already. */
  ghost predicate AddsNoCreditsTwice(rest: seq<string>, o: TradeOffer) {
    && (o.offerCredits.Some? ==> NeverNamesCredits(rest, "offer"))
    && (o.requestCredits.Some? ==> NeverNamesCredits(rest, "request"))
  }

  lemma GroupsShift(rest: seq<string>, i: nat, side: string)
    requires 3 * i + 6 <= |rest|
    ensures IsTermAt(rest, i + 1) == IsTermAt(rest[3..], i)
    ensures NamesCredits(rest, i + 1, side) == NamesCredits(rest[3..], i, side)
  {
    assert rest[3..][3 * i] == rest[3 * (i + 1)] && rest[3..][3 * i + 1] == rest[3 * (i + 1) + 1];
    assert rest[3..][3 * i + 2] == rest[3 * (i + 1) + 2];
  }

  lemma CreditsFromHead(rest: seq<string>, side: string)
    requires |rest| >= 3
    ensures NeverNamesCredits(rest, side) <==> !NamesCredits(rest, 0, side) && NeverNamesCredits(rest[3..], side)
  {
    if NeverNamesCredits(rest, side) {
      forall i: nat | 3 * i + 3 <= |rest[3..]| ensures !NamesCredits(rest[3..], i, side) { GroupsShift(rest, i, side); }
    }
    if !NamesCredits(rest, 0, side) && NeverNamesCredits(rest[3..], side) {
      forall i: nat | 3 * i + 3 <= |rest| ensures !NamesCredits(rest, i, side) {
        if i > 0 { GroupsShift(rest, i - 1, side); }
      }
    }
  }

  lemma TailAreTerms(rest: seq<string>)
    requires |rest| >= 3 && AreTerms(rest)
    ensures AreTerms(rest[3..])
    ensures forall side | NamesCredits(rest, 0, side) :: NeverNamesCredits(rest[3..], side)
  {
    forall i: nat | 3 * i + 3 <= |rest[3..]| ensures IsTermAt(rest[3..], i) { GroupsShift(rest, i, ""); }
    forall i: nat, j: nat, side | i < j && 3 * j + 3 <= |rest[3..]|
      ensures !(NamesCredits(rest[3..], i, side) && NamesCredits(rest[3..], j, side))
    {
      GroupsShift(rest, i, side);
      GroupsShift(rest, j, side);
    }
    forall side, i: nat | NamesCredits(rest, 0, side) && 3 * i + 3 <= |rest[3..]|
      ensures !NamesCredits(rest[3..], i, side)
    {
      GroupsShift(rest, i, side);
    }
  }

  lemma HeadThenTerms(rest: seq<string>)
    requires |rest| >= 3 && IsTermAt(rest, 0) && AreTerms(rest[3..])
    requires forall side | NamesCredits(rest, 0, side) :: NeverNamesCredits(rest[3..], side)
    ensures AreTerms(rest)
  {
    forall i: nat | 3 * i + 3 <= |rest| ensures IsTermAt(rest, i) {
      if i > 0 { GroupsShift(rest, i - 1, ""); }
    }
    forall i: nat, j: nat, side | i < j && 3 * j + 3 <= |rest|
      ensures !(NamesCredits(rest, i, side) && NamesCredits(rest, j, side))
    {
      CreditsAppearOnce(rest, i, j, side);
    }
  }

  lemma CreditsAppearOnce(rest: seq<string>, i: nat, j: nat, side: string)
    requires |rest| >= 3 && AreTerms(rest[3..]) && i < j && 3 * j + 3 <= |rest|
    requires NamesCredits(rest, 0, side) ==> NeverNamesCredits(rest[3..], side)
    ensures !(NamesCredits(rest, i, side) && NamesCredits(rest, j, side))
  {
    GroupsShift(rest, j - 1, side);
    if i > 0 { GroupsShift(rest, i - 1, side); }
  }

  lemma TermsFromHead(rest: seq<string>)
    requires |rest| >= 3
    ensures AreTerms(rest)
            <==> (&& IsTermAt(rest, 0) && AreTerms(rest[3..])
                  && forall side | NamesCredits(rest, 0, side) :: NeverNamesCredits(rest[3..], side))
  {
    if AreTerms(rest) {
      TailAreTerms(rest);
    } else if IsTermAt(rest, 0) && AreTerms(rest[3..])
              && forall side | NamesCredits(rest, 0, side) :: NeverNamesCredits(rest[3..], side) {
      HeadThenTerms(rest);
    }
  }

  /** Whether the first group can be read and added, said of its words. */
  lemma FirstTermReads(rest: seq<string>, o: TradeOffer)
    requires |rest| >= 3
    ensures TermOf(rest).Ok? <==> IsTermAt(rest, 0)
    ensures TermOf(rest).Ok? ==>
              (AddTerm(o, TermOf(rest).value).Ok?
               <==> (&& (o.offerCredits.Some? ==> !NamesCredits(rest, 0, "offer"))
                     && (o.requestCredits.Some? ==> !NamesCredits(rest, 0, "request"))))
  {}

  /** Credits named by the first group count as already there for the others. */
  lemma FirstTermCounts(rest: seq<string>, o: TradeOffer)
    requires |rest| >= 3 && TermOf(rest).Ok? && AddTerm(o, TermOf(rest).value).Ok?
    ensures var o' := AddTerm(o, TermOf(rest).value).value;
            && (o'.offerCredits.Some? <==> o.offerCredits.Some? || NamesCredits(rest, 0, "offer"))
            && (o'.requestCredits.Some? <==> o.requestCredits.Some? || NamesCredits(rest, 0, "request"))
  {}

  /** The loop accepts exactly the lists of terms that name no credits twice. */
  lemma {:induction false} ReadsExactlyTerms(rest: seq<string>, o: TradeOffer)
    ensures TermsOf(rest, o).Ok? <==> AreTerms(rest) && AddsNoCreditsTwice(rest, o)
    decreases |rest|
  {
    if |rest| >= 3 {
      FirstTermReads(rest, o);
      TermsFromHead(rest);
      CreditsFromHead(rest, "offer");
      CreditsFromHead(rest, "request");
      if TermOf(rest).Ok? && AddTerm(o, TermOf(rest).value).Ok? {
        FirstTermCounts(rest, o);
        ReadsExactlyTerms(rest[3..], AddTerm(o, TermOf(rest).value).value);
        assert forall side | NamesCredits(rest, 0, side) :: side == "offer" || side == "request";
      }
    }
  }

  /** A word list is an offer exactly when it is a target and a list of terms naming credits at most once a side. */
  lemma OfferIsListOfTerms(args: seq<string>)
    ensures OfferOf(args).Ok? <==> IsListOfTerms(args)
  {
    if |args| >= 2 { EmptinessTestIsDead(args); }
    if args != [] { ReadsExactlyTerms(args[1..], Blank(args[0])); }
  }

  // ---- what the terms mean ----

  function TermTokens(t: Term): seq<string> {
    match t
    case CreditTerm(side, amount) => [SideToken(side), "credits", Show(amount)]
    case ItemTerm(side, item) => [SideToken(side), Show(item.quantity), item.item]
  }

  function Flatten(ts: seq<Term>): seq<string> {
    if ts == [] then [] else TermTokens(ts[0]) + Flatten(ts[1..])
  }

  /** The items of one side, in the order they were written. */
  function ItemsOn(ts: seq<Term>, side: Side): seq<TradeItem> {
    if ts == [] then []
    else (if ts[0].ItemTerm? && ts[0].side == side then [ts[0].item] else []) + ItemsOn(ts[1..], side)
  }

  /** The credit amounts named for one side. */
  function AmountsOn(ts: seq<Term>, side: Side): seq<u64> {
    if ts == [] then []
    else (if ts[0].CreditTerm? && ts[0].side == side then [ts[0].amount] else []) + AmountsOn(ts[1..], side)
  }

  /** The credits of a side after more amounts are named for it; none when that is not allowed. */
  function Settle(before: Option<u64>, amounts: seq<u64>): Option<Option<u64>> {
    if amounts == [] then Some(before)
    else if before.None? && |amounts| == 1 then Some(Some(amounts[0]))
    else None
  }

  /** What a list of terms adds up to, side by side. */
  function Sum(ts: seq<Term>, o: TradeOffer): Result<TradeOffer, TradeError> {
    var offered := Settle(o.offerCredits, AmountsOn(ts, Offering));
    var requested := Settle(o.requestCredits, AmountsOn(ts, Requesting));
    if offered.None? || requested.None? then Err(InvalidArgs)
    else Ok(TradeOffer(o.target, o.offerItems + ItemsOn(ts, Offering), offered.value,
                       o.requestItems + ItemsOn(ts, Requesting), requested.value))
  }

  lemma ReadOneTerm(t: Term, rest: seq<string>)
    ensures TermOf(TermTokens(t) + rest) == Ok(t) && (TermTokens(t) + rest)[3..] == rest
  {
    var tokens := TermTokens(t) + rest;
    assert tokens[0] == SideToken(t.side) && SideOf(tokens[0]) == Some(t.side);
    match t
    case CreditTerm(_, amount) =>
      ParseU64OfShow(amount);
    case ItemTerm(_, item) =>
      ParseU64OfShow(item.quantity);
      assert Show(item.quantity)[0] in Show(item.quantity);
  }

  lemma ConsTerm(t: Term, ts: seq<Term>, side: Side)
    ensures ItemsOn([t] + ts, side)
            == if t.ItemTerm? && t.side == side then [t.item] + ItemsOn(ts, side) else ItemsOn(ts, side)
    ensures AmountsOn([t] + ts, side)
            == if t.CreditTerm? && t.side == side then [t.amount] + AmountsOn(ts, side) else AmountsOn(ts, side)
  {
    assert ([t] + ts)[1..] == ts;
  }

  lemma SettleOneMore(before: Option<u64>, amount: u64, amounts: seq<u64>)
    ensures Settle(before, [amount] + amounts) == if before.Some? then None else Settle(Some(amount), amounts)
  {
    assert |[amount] + amounts| == 1 <==> amounts == [];
  }

  lemma SumOneCredit(side: Side, amount: u64, ts: seq<Term>, o: TradeOffer)
    ensures Sum([CreditTerm(side, amount)] + ts, o)
            == if AddTerm(o, CreditTerm(side, amount)).Ok? then Sum(ts, AddTerm(o, CreditTerm(side, amount)).value)
               else Err(AddTerm(o, CreditTerm(side, amount)).error)
  {
    ConsTerm(CreditTerm(side, amount), ts, Offering);
    ConsTerm(CreditTerm(side, amount), ts, Requesting);
    SettleOneMore(CreditsOn(o, side), amount, AmountsOn(ts, side));
  }

  lemma SumOneItem(side: Side, item: TradeItem, ts: seq<Term>, o: TradeOffer)
    ensures AddTerm(o, ItemTerm(side, item)).Ok?
    ensures Sum([ItemTerm(side, item)] + ts, o) == Sum(ts, AddTerm(o, ItemTerm(side, item)).value)
  {
    ConsTerm(ItemTerm(side, item), ts, Offering);
    ConsTerm(ItemTerm(side, item), ts, Requesting);
    var before, more := Items(o, side), ItemsOn(ts, side);
    assert before + ([item] + more) == before + [item] + more;
  }

  lemma SumOneMore(t: Term, ts: seq<Term>, o: TradeOffer)
    ensures Sum([t] + ts, o)
            == if AddTerm(o, t).Ok? then Sum(ts, AddTerm(o, t).value) else Err(AddTerm(o, t).error)
  {
    match t
    case CreditTerm(side, amount) => SumOneCredit(side, amount, ts, o);
    case ItemTerm(side, item) => SumOneItem(side, item, ts, o);
  }

  /** The loop adds the terms up: each side keeps its items in order and at most one amount of credits. */
  lemma {:induction false} TermsAddUp(ts: seq<Term>, o: TradeOffer)
    ensures TermsOf(Flatten(ts), o) == Sum(ts, o)
    decreases |ts|
  {
    if ts == [] {
      assert o.offerItems + [] == o.offerItems && o.requestItems + [] == o.requestItems;
    } else {
      ReadOneTerm(ts[0], Flatten(ts[1..]));
      SumOneMore(ts[0], ts[1..], o);
      assert ts == [ts[0]] + ts[1..];
      if AddTerm(o, ts[0]).Ok? { TermsAddUp(ts[1..], AddTerm(o, ts[0]).value); }
    }
  }

  /** Only the order within each side matters, not how the sides are interleaved. */
  lemma InterleavingIsIrrelevant(target: string, ts: seq<Term>, us: seq<Term>)
    requires ts != [] && us != []
    requires forall side: Side :: ItemsOn(ts, side) == ItemsOn(us, side) && AmountsOn(ts, side) == AmountsOn(us, side)
    ensures OfferOf([target] + Flatten(ts)) == OfferOf([target] + Flatten(us))
  {
    TermsAddUp(ts, Blank(target));
    TermsAddUp(us, Blank(target));
    assert ([target] + Flatten(ts))[1..] == Flatten(ts) && ([target] + Flatten(us))[1..] == Flatten(us);
  }

  // ---- printing ----

  function CreditTerms(side: Side, credits: Option<u64>): seq<Term> {
    if credits.Some? then [CreditTerm(side, credits.value)] else []
  }

  function ItemTerms(side: Side, items: seq<TradeItem>): seq<Term> {
    if items == [] then [] else [ItemTerm(side, items[0])] + ItemTerms(side, items[1..])
  }

  /** The terms in the order they are printed. */
  function TermList(o: TradeOffer): seq<Term> {
    CreditTerms(Offering, o.offerCredits) + ItemTerms(Offering, o.offerItems)
    + (CreditTerms(Requesting, o.requestCredits) + ItemTerms(Requesting, o.requestItems))
  }

  function OfferTokens(o: TradeOffer): seq<string> {
    [o.target] + Flatten(TermList(o))
  }

  lemma ItemsOnConcat(ts: seq<Term>, us: seq<Term>, side: Side)
    ensures ItemsOn(ts + us, side) == ItemsOn(ts, side) + ItemsOn(us, side)
    decreases |ts|
  {
    if ts == [] {
      assert ts + us == us;
    } else {
      assert (ts + us)[1..] == ts[1..] + us;
      ItemsOnConcat(ts[1..], us, side);
    }
  }

  lemma AmountsOnConcat(ts: seq<Term>, us: seq<Term>, side: Side)
    ensures AmountsOn(ts + us, side) == AmountsOn(ts, side) + AmountsOn(us, side)
    decreases |ts|
  {
    if ts == [] {
      assert ts + us == us;
    } else {
      assert (ts + us)[1..] == ts[1..] + us;
      AmountsOnConcat(ts[1..], us, side);
    }
  }

  lemma {:induction false} OnItemTerms(side: Side, items: seq<TradeItem>, other: Side)
    ensures ItemsOn(ItemTerms(side, items), other) == if side == other then items else []
    ensures AmountsOn(ItemTerms(side, items), other) == []
    decreases |items|
  {
    if items != [] {
      OnItemTerms(side, items[1..], other);
      assert ItemTerms(side, items)[1..] == ItemTerms(side, items[1..]);
      assert items == [items[0]] + items[1..];
    }
  }

  lemma OnSide(credits: Option<u64>, items: seq<TradeItem>, side: Side, other: Side)
    ensures ItemsOn(CreditTerms(side, credits) + ItemTerms(side, items), other) == if side == other then items else []
    ensures AmountsOn(CreditTerms(side, credits) + ItemTerms(side, items), other)
            == if side == other && credits.Some? then [credits.value] else []
  {
    ItemsOnConcat(CreditTerms(side, credits), ItemTerms(side, items), other);
    AmountsOnConcat(CreditTerms(side, credits), ItemTerms(side, items), other);
    OnItemTerms(side, items, other);
    if credits.Some? { assert CreditTerms(side, credits)[1..] == []; }
  }

  lemma TermListOn(o: TradeOffer, side: Side)
    ensures ItemsOn(TermList(o), side) == Items(o, side)
    ensures AmountsOn(TermList(o), side) == if CreditsOn(o, side).Some? then [CreditsOn(o, side).value] else []
  {
    var offered := CreditTerms(Offering, o.offerCredits) + ItemTerms(Offering, o.offerItems);
    var requested := CreditTerms(Requesting, o.requestCredits) + ItemTerms(Requesting, o.requestItems);
    ItemsOnConcat(offered, requested, side);
    AmountsOnConcat(offered, requested, side);
    OnSide(o.offerCredits, o.offerItems, Offering, side);
    OnSide(o.requestCredits, o.requestItems, Requesting, side);
  }

  lemma TermListSums(o: TradeOffer)
    ensures Sum(TermList(o), Blank(o.target)) == Ok(o)
  {
    TermListOn(o, Offering);
    TermListOn(o, Requesting);
    assert [] + o.offerItems == o.offerItems && [] + o.requestItems == o.requestItems;
  }

  /** An offer survives printing exactly when some side of it is not empty. */
  lemma TradeOfferRoundTrip(o: TradeOffer)
    ensures OfferOf(OfferTokens(o)) == Ok(o) <==> !IsEmptyOffer(o)
  {
    var ts := TermList(o);
    assert OfferTokens(o)[1..] == Flatten(ts);
    if ts == [] {
      assert IsEmptyOffer(o) && OfferTokens(o) == [o.target];
    } else {
      TermsAddUp(ts, Blank(o.target));
      TermListSums(o);
      assert |Flatten(ts)| >= 3;
    }
  }

  /** No accepted offer is empty, so whatever was accepted, however interleaved, reprints to a form that lowers alike. */
  lemma AcceptedOfferReprints(args: seq<string>)
    requires OfferOf(args).Ok?
    ensures !IsEmptyOffer(OfferOf(args).value)
    ensures OfferOf(OfferTokens(OfferOf(args).value)) == OfferOf(args)
  {
    if |args| > 1 { EmptinessTestIsDead(args); TermsOnlyAdd(args[1..], Blank(args[0])); }
    TradeOfferRoundTrip(OfferOf(args).value);
  }

  /** Every name in the offer can be printed as one argument. */
  predicate NamesArePrintable(o: TradeOffer) {
    && IsPrintable(o.target)
    && (forall i | 0 <= i < |o.offerItems| :: IsPrintable(o.offerItems[i].item))
    && (forall i | 0 <= i < |o.requestItems| :: IsPrintable(o.requestItems[i].item))
  }

  predicate TermIsPrintable(t: Term) {
    t.ItemTerm? ==> IsPrintable(t.item.item)
  }

  lemma SideIsPrintable(side: Side)
    ensures IsPrintable(SideToken(side))
  {
    if side.Offering? { PlainIsBare("offer"); } else { PlainIsBare("request"); }
  }

  lemma CreditsIsPrintable()
    ensures IsPrintable("credits")
  {
    PlainIsBare("credits");
  }

  lemma TermTokensArePrintable(t: Term)
    requires TermIsPrintable(t)
    ensures AllPrintable(TermTokens(t))
  {
    SideIsPrintable(t.side);
    match t
    case CreditTerm(side, amount) =>
      CreditsIsPrintable();
      NumberIsPlain(amount);
      ThreePrintable(SideToken(side), "credits", Show(amount));
    case ItemTerm(side, item) =>
      NumberIsPlain(item.quantity);
      ThreePrintable(SideToken(side), Show(item.quantity), item.item);
  }

  lemma {:induction false} TermsArePrintable(ts: seq<Term>)
    requires forall i | 0 <= i < |ts| :: TermIsPrintable(ts[i])
    ensures AllPrintable(Flatten(ts))
    decreases |ts|
  {
    if ts != [] {
      TermsArePrintable(ts[1..]);
      TermTokensArePrintable(ts[0]);
    }
  }

  lemma {:induction false} ItemTermsArePrintable(side: Side, items: seq<TradeItem>)
    requires forall i | 0 <= i < |items| :: IsPrintable(items[i].item)
    ensures forall i | 0 <= i < |ItemTerms(side, items)| :: TermIsPrintable(ItemTerms(side, items)[i])
    decreases |items|
  {
    if items != [] { ItemTermsArePrintable(side, items[1..]); }
  }

  lemma TradeOfferWord()
    ensures IsPlain("trade_offer") && IsIdentStart("trade_offer"[0])
  {}

  /** From offer to text and back. */
  lemma TradeOfferTextRoundTrip(o: TradeOffer)
    requires !IsEmptyOffer(o) && NamesArePrintable(o)
    ensures LexCommand(Statement("trade_offer", OfferTokens(o))) == Some((Command("trade_offer", OfferTokens(o)), ""))
    ensures OfferOf(OfferTokens(o)) == Ok(o)
  {
    TradeOfferRoundTrip(o);
    ItemTermsArePrintable(Offering, o.offerItems);
    ItemTermsArePrintable(Requesting, o.requestItems);
    TermsArePrintable(TermList(o));
    TradeOfferWord();
    StatementLexes("trade_offer", OfferTokens(o));
  }

  /** A target alone is offered one credit. */
  lemma TargetAloneIsOfferedOneCredit(target: string)
    ensures OfferOf([target]) == OfferOf([target, "offer", "credits", "1"])
    ensures OfferOf([target]).Ok?
  {
    var words := [target, "offer", "credits", "1"];
    ParseU64OfShow(1);
    assert Show(1) == "1";
    EmptinessTestIsDead(words);
    assert words[1..] == ["offer", "credits", "1"] && words[1..][3..] == [];
    assert TermOf(words[1..]).Ok?;
    assert TermsOf([], Blank(target).(offerCredits := Some(1))) == Ok(Blank(target).(offerCredits := Some(1)));
  }
}
