/** The `buy` and `sell` statements: their clause parsers and their printed form. */
module BuySell {
  import opened Prelude
  import opened TextTools
  import opened Decimal
  import opened Lexing

  datatype ClauseError =
    | MissingQuantity
    | NotPositive
    | MissingItem
    | MissingValue
    | DuplicateClause
    | BadDestination
    | ToNeedsOrder
    | UnknownClause
    | OrderNeedsQuantity
    | OrderNeedsPrice
    | BadLegacyShape

  predicate IsNumber(token: string) {
    ParseU64(token).Some?
  }

  function PositiveToken(token: string): (r: Result<u64, ClauseError>)
    ensures r.Ok? ==> 1 <= r.value
  {
    match ParseU64(token)
    case Some(n) => if n > 0 then Ok(n) else Err(NotPositive)
    case None => Err(NotPositive)
  }

  /** A required token that must be a positive number. */
  function PositiveAt(parts: seq<string>, missing: ClauseError): (r: Result<u64, ClauseError>)
    ensures r.Ok? ==> parts != [] && 1 <= r.value
  {
    if parts == [] then Err(missing) else PositiveToken(parts[0])
  }

  // ---- buy ----

  datatype Buy = Buy(item: string, quantity: u64, maxPrice: Option<u64>, placeOrder: bool, deliverTo: Option<string>)

  /** The clauses after the item: `at <price>` and, for orders, `to cargo|storage`, each at most once. */
  function BuyClauses(rest: seq<string>, buy: Buy): (r: Result<Buy, ClauseError>)
    ensures r.Ok? ==> r.value.(maxPrice := buy.maxPrice, deliverTo := buy.deliverTo) == buy
    decreases |rest|
  {
    if rest == [] then Ok(buy)
    else if rest[0] == "at" then
      if buy.maxPrice.Some? then Err(DuplicateClause) else
        match PositiveAt(rest[1..], MissingValue)
        case Ok(price) => BuyClauses(rest[2..], buy.(maxPrice := Some(price)))
        case Err(e) => Err(e)
    else if rest[0] == "to" then
      if !buy.placeOrder then Err(ToNeedsOrder)
      else if buy.deliverTo.Some? then Err(DuplicateClause)
      else if |rest| == 1 then Err(MissingValue)
      else if rest[1] != "cargo" && rest[1] != "storage" then Err(BadDestination)
      else BuyClauses(rest[2..], buy.(deliverTo := Some(rest[1])))
    else Err(UnknownClause)
  }

  function LegacyBuy(parts: seq<string>): Result<Buy, ClauseError>
    requires parts != []
  {
    match PositiveAt(parts[1..], MissingQuantity)
    case Err(e) => Err(e)
    case Ok(quantity) =>
      match OptionalPrice(parts[2..])
      case Err(e) => Err(e)
      case Ok(price) =>
        if |parts| > 4 || exists t | t in parts[2..] :: t != "order" && !IsNumber(t) then Err(BadLegacyShape)
        else Ok(Buy(parts[0], quantity, price, "order" in parts[2..], None))
  }

  /** The third legacy token is a price unless it is absent or says `order`. */
  function OptionalPrice(rest: seq<string>): Result<Option<u64>, ClauseError> {
    if rest == [] || rest[0] == "order" then Ok(None)
    else
      match PositiveToken(rest[0])
      case Ok(n) => Ok(Some(n))
      case Err(e) => Err(e)
  }

  predicate IsLegacyBuy(parts: seq<string>) {
    parts != [] && parts[0] != "order" && !IsNumber(parts[0])
  }

  function ClauseBuy(parts: seq<string>): Result<Buy, ClauseError> {
    var order := parts != [] && parts[0] == "order";
    var body := if order then parts[1..] else parts;
    match PositiveAt(body, MissingQuantity)
    case Err(e) => Err(e)
    case Ok(quantity) =>
      if |body| < 2 then Err(MissingItem)
      else
        match BuyClauses(body[2..], Buy(body[1], quantity, None, order, None))
        case Err(e) => Err(e)
        case Ok(buy) => if order && buy.maxPrice.None? then Err(OrderNeedsPrice) else Ok(buy)
  }

  function BuyOf(parts: seq<string>): Result<Buy, ClauseError> {
    if IsLegacyBuy(parts) then LegacyBuy(parts) else ClauseBuy(parts)
  }

  method ParseBuyParts(parts: seq<string>) returns (r: Result<Buy, ClauseError>)
    ensures r == BuyOf(parts)
  {
    if IsLegacyBuy(parts) {
      return LegacyBuy(parts);
    }
    var idx := 0;
    var order := |parts| > 0 && parts[0] == "order";
    if order { idx := idx + 1; }
    if idx >= |parts| { return Err(MissingQuantity); }
    var quantity := PositiveToken(parts[idx]);
    if quantity.Err? { return Err(quantity.error); }
    if idx + 1 >= |parts| { return Err(MissingItem); }
    var clauses := ParseBuyClauses(parts, idx + 2, Buy(parts[idx + 1], quantity.value, None, order, None));
    if clauses.Err? { return clauses; }
    if order && clauses.value.maxPrice.None? { return Err(OrderNeedsPrice); }
    r := clauses;
  }

  /** The loop over the clauses. */
  method ParseBuyClauses(parts: seq<string>, start: nat, read: Buy) returns (r: Result<Buy, ClauseError>)
    requires start <= |parts|
    ensures r == BuyClauses(parts[start..], read)
  {
    var idx, buy := start, read;
    while idx < |parts|
      invariant idx <= |parts| && BuyClauses(parts[idx..], buy) == BuyClauses(parts[start..], read)
      decreases |parts| - idx
    {
      assert idx + 2 <= |parts| ==> parts[idx..][2..] == parts[idx + 2..];
      if parts[idx] == "at" {
        if buy.maxPrice.Some? { return Err(DuplicateClause); }
        if idx + 1 >= |parts| { return Err(MissingValue); }
        var price := PositiveToken(parts[idx + 1]);
        if price.Err? { return Err(price.error); }
        buy := buy.(maxPrice := Some(price.value));
      } else if parts[idx] == "to" {
        if !buy.placeOrder { return Err(ToNeedsOrder); }
        if buy.deliverTo.Some? { return Err(DuplicateClause); }
        if idx + 1 >= |parts| { return Err(MissingValue); }
        if parts[idx + 1] != "cargo" && parts[idx + 1] != "storage" { return Err(BadDestination); }
        buy := buy.(deliverTo := Some(parts[idx + 1]));
      } else {
        return Err(UnknownClause);
      }
      idx := idx + 2;
    }
    r := Ok(buy);
  }

  // ---- printing buy ----

  function BuyTokens(b: Buy): seq<string> {
    OrderTokens(b.placeOrder) + [Show(b.quantity), b.item] + PriceTokens(b.maxPrice) + DestinationTokens(b.deliverTo)
  }

  function RenderBuy(b: Buy): string {
    "buy " + (if b.placeOrder then "order " else "") + Show(b.quantity) + " " + Arg(b.item)
    + (if b.maxPrice.Some? then " at " + Show(b.maxPrice.value) else "")
    + (if b.deliverTo.Some? then " to " + b.deliverTo.value else "") + ";"
  }

  predicate IsDestination(s: string) {
    s == "cargo" || s == "storage"
  }

  predicate WellFormedBuy(b: Buy) {
    && b.quantity > 0 && (b.maxPrice.Some? ==> b.maxPrice.value > 0)
    && (b.placeOrder ==> b.maxPrice.Some?)
    && (b.deliverTo.Some? ==> b.placeOrder && IsDestination(b.deliverTo.value))
  }

  lemma BuyTokensParts(b: Buy)
    ensures !IsLegacyBuy(BuyTokens(b))
    ensures var body := if b.placeOrder then BuyTokens(b)[1..] else BuyTokens(b);
            && (b.placeOrder <==> BuyTokens(b)[0] == "order")
            && |body| >= 2 && body[0] == Show(b.quantity) && body[1] == b.item
            && body[2..] == PriceTokens(b.maxPrice) + DestinationTokens(b.deliverTo)
  {
    ParseU64OfShow(b.quantity);
    DigitsOfShow(b.quantity);
  }

  lemma BuyClausesRoundTrip(b: Buy, start: Buy)
    requires start == b.(maxPrice := None, deliverTo := None)
    ensures var rest := PriceTokens(b.maxPrice) + DestinationTokens(b.deliverTo);
            BuyClauses(rest, start)
            == if b.maxPrice == Some(0) then Err(NotPositive)
               else if b.deliverTo.None? then Ok(b)
               else if !b.placeOrder then Err(ToNeedsOrder)
               else if IsDestination(b.deliverTo.value) then Ok(b)
               else Err(BadDestination)
  {
    var dest := DestinationTokens(b.deliverTo);
    var rest := PriceTokens(b.maxPrice) + dest;
    if b.maxPrice.Some? {
      ParseU64OfShow(b.maxPrice.value);
      assert rest[1..][0] == Show(b.maxPrice.value) && rest[2..] == dest;
    } else {
      assert rest == dest;
    }
    var priced := start.(maxPrice := b.maxPrice);
    assert priced.(deliverTo := b.deliverTo) == b;
    if b.deliverTo.Some? {
      assert dest[0] == "to" && dest[1] == b.deliverTo.value && dest[2..] == [];
      assert BuyClauses([], b) == Ok(b);
    }
  }

  /** A buy request survives printing exactly when it is well formed. */
  lemma BuyRoundTrip(b: Buy)
    ensures BuyOf(BuyTokens(b)) == Ok(b) <==> WellFormedBuy(b)
    ensures BuyOf(BuyTokens(b)).Ok? ==> BuyOf(BuyTokens(b)) == Ok(b)
  {
    BuyTokensParts(b);
    ParseU64OfShow(b.quantity);
    BuyClausesRoundTrip(b, b.(maxPrice := None, deliverTo := None));
  }

  lemma {:induction false} BuyClausesWellFormed(rest: seq<string>, buy: Buy)
    requires buy.maxPrice.Some? ==> buy.maxPrice.value > 0
    requires buy.deliverTo.Some? ==> buy.placeOrder && IsDestination(buy.deliverTo.value)
    ensures BuyClauses(rest, buy).Ok? ==>
              var b := BuyClauses(rest, buy).value;
              && (b.maxPrice.Some? ==> b.maxPrice.value > 0)
              && (b.deliverTo.Some? ==> b.placeOrder && IsDestination(b.deliverTo.value))
    decreases |rest|
  {
    if rest != [] && rest[0] == "at" {
      if buy.maxPrice.None? && PositiveAt(rest[1..], MissingValue).Ok? {
        BuyClausesWellFormed(rest[2..], buy.(maxPrice := Some(PositiveAt(rest[1..], MissingValue).value)));
      }
    } else if rest != [] && rest[0] == "to" {
      if |rest| > 1 && IsDestination(rest[1]) && buy.placeOrder {
        BuyClausesWellFormed(rest[2..], buy.(deliverTo := Some(rest[1])));
      }
    }
  }

  /** Whatever was accepted prints back to itself, except a legacy order that named no price. */
  lemma AcceptedBuyReprints(parts: seq<string>)
    requires BuyOf(parts).Ok?
    ensures var b := BuyOf(parts).value;
            BuyOf(BuyTokens(b)) == Ok(b) <==> (b.placeOrder ==> b.maxPrice.Some?)
  {
    var b := BuyOf(parts).value;
    if !IsLegacyBuy(parts) {
      var order := parts != [] && parts[0] == "order";
      var body := if order then parts[1..] else parts;
      BuyClausesWellFormed(body[2..], Buy(body[1], PositiveAt(body, MissingQuantity).value, None, order, None));
    }
    BuyRoundTrip(b);
  }

  /** `<keyword> <word>` printed as two arguments. */
  lemma SpacedPair(keyword: string, value: string)
    requires IsPlain(keyword)
    ensures Spaced([keyword, value]) == " " + keyword + " " + Arg(value)
    ensures IsPrintable(keyword)
  {
    PlainIsBare(keyword);
    assert [keyword, value][1..] == [value] && [value][1..] == [];
    assert Spaced([value]) == " " + Arg(value);
  }

  function PriceTokens(price: Option<u64>): seq<string> {
    if price.Some? then ["at", Show(price.value)] else []
  }

  lemma AtWord()
    ensures IsPlain("at") && " " + "at" + " " == " at "
  {}

  lemma ToWord()
    ensures IsPlain("to") && " " + "to" + " " == " to "
  {}

  lemma OrderWord()
    ensures IsPlain("order") && " " + "order" == " order"
  {}

  lemma PriceTokensPrint(price: Option<u64>)
    ensures Spaced(PriceTokens(price)) == if price.Some? then " at " + Show(price.value) else ""
    ensures AllPrintable(PriceTokens(price))
  {
    if price.Some? {
      AtWord();
      NumberIsPlain(price.value);
      SpacedPair("at", Show(price.value));
    }
  }

  function DestinationTokens(dest: Option<string>): seq<string> {
    if dest.Some? then ["to", dest.value] else []
  }

  lemma DestinationIsPlain(dest: string)
    requires IsDestination(dest)
    ensures IsPlain(dest)
  {}

  lemma DestinationTokensPrint(dest: Option<string>)
    requires dest.Some? ==> IsDestination(dest.value)
    ensures Spaced(DestinationTokens(dest)) == if dest.Some? then " to " + dest.value else ""
    ensures AllPrintable(DestinationTokens(dest))
  {
    if dest.Some? {
      ToWord();
      DestinationIsPlain(dest.value);
      PlainIsBare(dest.value);
      SpacedPair("to", dest.value);
    }
  }

  /** `order` in front, where asked for. */
  function OrderTokens(order: bool): seq<string> {
    if order then ["order"] else []
  }

  lemma OrderTokensPrint(order: bool)
    ensures Spaced(OrderTokens(order)) == if order then " order" else ""
    ensures AllPrintable(OrderTokens(order))
  {
    OrderWord();
    PlainIsBare("order");
    assert ["order"][1..] == [];
  }

  lemma SpacedFour(o: seq<string>, m: seq<string>, p: seq<string>, d: seq<string>)
    ensures Spaced(o + m + p + d) == Spaced(o) + Spaced(m) + Spaced(p) + Spaced(d)
  {
    SpacedConcat(o, m);
    SpacedConcat(o + m, p);
    SpacedConcat(o + m + p, d);
  }

  /** The space before `order` and the space after it print the same text. */
  lemma OrderInFront(name: string, order: bool, q: string, i: string, p: string, d: string)
    ensures name + ((if order then " order" else "") + (" " + q + " " + i) + p + d) + ";"
            == name + " " + (if order then "order " else "") + q + " " + i + p + d + ";"
  {
    assert " order" + " " == " " + "order ";
  }

  lemma RenderBuyIsStatement(b: Buy)
    requires b.deliverTo.Some? ==> IsDestination(b.deliverTo.value)
    ensures RenderBuy(b) == Statement("buy", BuyTokens(b))
  {
    OrderTokensPrint(b.placeOrder);
    NumberIsPlain(b.quantity);
    SpacedPair(Show(b.quantity), b.item);
    PriceTokensPrint(b.maxPrice);
    DestinationTokensPrint(b.deliverTo);
    SpacedFour(OrderTokens(b.placeOrder), [Show(b.quantity), b.item], PriceTokens(b.maxPrice),
               DestinationTokens(b.deliverTo));
    OrderInFront("buy", b.placeOrder, Show(b.quantity), Arg(b.item), Spaced(PriceTokens(b.maxPrice)),
                 Spaced(DestinationTokens(b.deliverTo)));
    assert "buy" + " " == "buy ";
  }

  lemma BuyTokensArePrintable(b: Buy)
    requires WellFormedBuy(b) && IsPrintable(b.item)
    ensures AllPrintable(BuyTokens(b))
  {
    OrderTokensPrint(b.placeOrder);
    NumberIsPlain(b.quantity);
    PriceTokensPrint(b.maxPrice);
    DestinationTokensPrint(b.deliverTo);
  }

  /** From request to text and back. */
  lemma BuyTextRoundTrip(b: Buy)
    requires WellFormedBuy(b) && IsPrintable(b.item)
    ensures LexCommand(RenderBuy(b)) == Some((Command("buy", BuyTokens(b)), "")) && BuyOf(BuyTokens(b)) == Ok(b)
  {
    BuyRoundTrip(b);
    RenderBuyIsStatement(b);
    BuyTokensArePrintable(b);
    StatementLexes("buy", BuyTokens(b));
  }

  // ---- sell ----

  datatype Sell = Sell(item: Option<string>, quantity: Option<u64>, minPrice: Option<u64>, placeOrder: bool)

  /** After the item only `at <price>` may follow, once. */
  function SellClauses(rest: seq<string>, sell: Sell): (r: Result<Sell, ClauseError>)
    ensures r.Ok? ==> r.value.(minPrice := sell.minPrice) == sell
    ensures r.Ok? && sell.minPrice != Some(0) ==> r.value.minPrice != Some(0)
    decreases |rest|
  {
    if rest == [] then Ok(sell)
    else if rest[0] != "at" then Err(UnknownClause)
    else if sell.minPrice.Some? then Err(DuplicateClause)
    else
      match PositiveAt(rest[1..], MissingValue)
      case Ok(price) => SellClauses(rest[2..], sell.(minPrice := Some(price)))
      case Err(e) => Err(e)
  }

  predicate IsLegacySell(parts: seq<string>) {
    |parts| >= 2 && parts[0] != "order" && !IsNumber(parts[0]) && IsNumber(parts[1])
  }

  function LegacySell(parts: seq<string>): Result<Sell, ClauseError>
    requires |parts| >= 2
  {
    match PositiveToken(parts[1])
    case Err(e) => Err(e)
    case Ok(quantity) =>
      match OptionalPrice(parts[2..])
      case Err(e) => Err(e)
      case Ok(price) => Ok(Sell(Some(parts[0]), Some(quantity), price, "order" in parts[2..]))
  }

  /** Quantity, when the next token is a number, and item. */
  function SellHead(body: seq<string>): (r: Result<(Option<u64>, string), ClauseError>)
    ensures r.Ok? ==> |body| >= if r.value.0.Some? then 2 else 1
  {
    if body == [] then Err(MissingItem)
    else if !IsNumber(body[0]) then Ok((None, body[0]))
    else
      match PositiveToken(body[0])
      case Err(e) => Err(e)
      case Ok(quantity) => if |body| == 1 then Err(MissingItem) else Ok((Some(quantity), body[1]))
  }

  function ClauseSell(parts: seq<string>): Result<Sell, ClauseError>
    requires parts != []
  {
    var order := parts[0] == "order";
    var body := if order then parts[1..] else parts;
    match SellHead(body)
    case Err(e) => Err(e)
    case Ok((quantity, item)) =>
      match SellClauses(body[if quantity.Some? then 2 else 1..], Sell(Some(item), quantity, None, order))
      case Err(e) => Err(e)
      case Ok(sell) =>
        if order && quantity.None? then Err(OrderNeedsQuantity)
        else if order && sell.minPrice.None? then Err(OrderNeedsPrice)
        else Ok(sell)
  }

  function SellOf(parts: seq<string>): Result<Sell, ClauseError> {
    if parts == [] then Ok(Sell(None, None, None, false))
    else if IsLegacySell(parts) then LegacySell(parts)
    else ClauseSell(parts)
  }

  method ParseSellParts(parts: seq<string>) returns (r: Result<Sell, ClauseError>)
    ensures r == SellOf(parts)
  {
    if |parts| == 0 {
      return Ok(Sell(None, None, None, false));
    }
    if IsLegacySell(parts) {
      return LegacySell(parts);
    }
    var idx := 0;
    var order := parts[0] == "order";
    if order { idx := idx + 1; }
    ghost var body := parts[idx..];
    assert body == if order then parts[1..] else parts;
    var quantity: Option<u64> := None;
    if idx < |parts| && IsNumber(parts[idx]) {
      var n := PositiveToken(parts[idx]);
      if n.Err? { return Err(n.error); }
      quantity := Some(n.value);
      idx := idx + 1;
    }
    if idx >= |parts| { return Err(MissingItem); }
    var sell := Sell(Some(parts[idx]), quantity, None, order);
    idx := idx + 1;
    assert body[if quantity.Some? then 2 else 1..] == parts[idx..];
    ghost var clauses := SellClauses(parts[idx..], sell);
    while idx < |parts|
      invariant idx <= |parts| && SellClauses(parts[idx..], sell) == clauses
    {
      assert idx + 2 <= |parts| ==> parts[idx..][2..] == parts[idx + 2..];
      if parts[idx] != "at" { return Err(UnknownClause); }
      if sell.minPrice.Some? { return Err(DuplicateClause); }
      if idx + 1 >= |parts| { return Err(MissingValue); }
      var price := PositiveToken(parts[idx + 1]);
      if price.Err? { return Err(price.error); }
      sell := sell.(minPrice := Some(price.value));
      idx := idx + 2;
    }
    if order && quantity.None? { return Err(OrderNeedsQuantity); }
    if order && sell.minPrice.None? { return Err(OrderNeedsPrice); }
    r := Ok(sell);
  }

  function SellTokens(s: Sell): seq<string> {
    OrderTokens(s.placeOrder)
    + (if s.quantity.Some? then [Show(s.quantity.value)] else [])
    + (if s.item.Some? then [s.item.value] else [])
    + PriceTokens(s.minPrice)
  }

  predicate WellFormedSell(s: Sell) {
    || s == Sell(None, None, None, false)
    || (&& s.item.Some? && s.minPrice != Some(0)
        && if s.quantity.Some? then s.quantity.value > 0 && (s.placeOrder ==> s.minPrice.Some?)
           else !s.placeOrder && s.item.value != "order" && !IsNumber(s.item.value))
  }

  lemma SellClausesRoundTrip(s: Sell)
    ensures SellClauses(PriceTokens(s.minPrice), s.(minPrice := None))
            == if s.minPrice == Some(0) then Err(NotPositive) else Ok(s)
  {
    if s.minPrice.Some? {
      ParseU64OfShow(s.minPrice.value);
      assert PriceTokens(s.minPrice)[1..][0] == Show(s.minPrice.value) && PriceTokens(s.minPrice)[2..] == [];
      assert SellClauses([], s) == Ok(s);
    }
  }

  /** Only the empty statement parses to a request without an item. */
  lemma SellNamesItem(parts: seq<string>)
    ensures parts != [] && SellOf(parts).Ok? ==> SellOf(parts).value.item.Some?
  {}

  lemma SellWithQuantity(s: Sell)
    requires s.item.Some? && s.quantity.Some?
    ensures SellOf(SellTokens(s)) == Ok(s) <==> WellFormedSell(s)
  {
    var parts := SellTokens(s);
    ParseU64OfShow(s.quantity.value);
    DigitsOfShow(s.quantity.value);
    var body := if s.placeOrder then parts[1..] else parts;
    assert body == [Show(s.quantity.value), s.item.value] + PriceTokens(s.minPrice);
    assert parts[0] == "order" <==> s.placeOrder;
    assert body[2..] == PriceTokens(s.minPrice);
    SellClausesRoundTrip(s);
  }

  lemma AtIsNoNumber()
    ensures !IsNumber("at")
  {
    assert "at"[0] in "at";
  }

  lemma SellWithoutQuantity(s: Sell)
    requires s.item.Some? && s.quantity.None?
    ensures SellOf(SellTokens(s)) == Ok(s) <==> WellFormedSell(s)
  {
    var parts := SellTokens(s);
    AtIsNoNumber();
    if !s.placeOrder && s.item.value != "order" && !IsNumber(s.item.value) {
      assert parts == [s.item.value] + PriceTokens(s.minPrice);
      assert parts[1..] == PriceTokens(s.minPrice);
      SellClausesRoundTrip(s);
    } else if SellOf(parts) == Ok(s) {
      SellQuantityMissing(s);
    }
  }

  lemma SellQuantityMissing(s: Sell)
    requires s.item.Some? && s.quantity.None? && (s.placeOrder || s.item.value == "order" || IsNumber(s.item.value))
    ensures SellOf(SellTokens(s)) != Ok(s)
  {
    var parts := SellTokens(s);
    AtIsNoNumber();
    if s.placeOrder {
      assert parts[0] == "order" && parts[1] == s.item.value;
    } else {
      assert parts[0] == s.item.value;
      if s.item.value == "order" && s.minPrice.Some? {
        assert parts[1] == "at";
        assert parts[1..][0] == "at";
      }
    }
  }

  /** A sell request survives printing exactly when it is well formed. */
  lemma SellRoundTrip(s: Sell)
    ensures SellOf(SellTokens(s)) == Ok(s) <==> WellFormedSell(s)
  {
    if s.item.None? {
      SellNamesItem(SellTokens(s));
      if s == Sell(None, None, None, false) { assert SellTokens(s) == []; }
      else { assert SellTokens(s) != []; }
    } else if s.quantity.Some? {
      SellWithQuantity(s);
    } else {
      SellWithoutQuantity(s);
    }
  }

  /** Whatever was accepted prints back to itself, except a legacy order that named no price. */
  lemma AcceptedSellReprints(parts: seq<string>)
    requires SellOf(parts).Ok?
    ensures var s := SellOf(parts).value;
            SellOf(SellTokens(s)) == Ok(s) <==> (s.placeOrder ==> s.minPrice.Some?)
  {
    SellRoundTrip(SellOf(parts).value);
  }

  function PriceText(price: Option<u64>): string {
    if price.Some? then " at " + Show(price.value) else ""
  }

  function SellBody(order: bool, quantity: Option<u64>, item: string, price: string): string {
    (if order then "order " else "") + (if quantity.Some? then Show(quantity.value) + " " else "") + item + price
  }

  function RenderSell(s: Sell): string {
    var item := if s.item.Some? then Arg(s.item.value) else "";
    var body := SellBody(s.placeOrder, s.quantity, item, PriceText(s.minPrice));
    if body == "" then "sell;" else "sell " + body + ";"
  }

  lemma SellBodyText(order: bool, quantity: Option<u64>, item: string, price: string)
    requires item != "" && (order ==> quantity.Some?)
    ensures SellBody(order, quantity, item, price) != ""
    ensures "sell " + SellBody(order, quantity, item, price) + ";"
            == "sell" + ((if order then " order" else "")
                         + (if quantity.Some? then " " + Show(quantity.value) + " " + item else " " + item)
                         + price) + ";"
  {
    assert "sell" + " " == "sell ";
    if quantity.Some? {
      SellTextWithQuantity("sell", order, Show(quantity.value), item, price);
    }
  }

  lemma SellTextWithQuantity(name: string, order: bool, q: string, i: string, p: string)
    ensures name + ((if order then " order" else "") + (" " + q + " " + i) + p) + ";"
            == (name + " ") + ((if order then "order " else "") + (q + " ") + i + p) + ";"
  {
    assert " order" + " " == " " + "order ";
  }

  /** Quantity, when there is one, and item. */
  function SellMiddle(quantity: Option<u64>, item: string): seq<string> {
    if quantity.Some? then [Show(quantity.value), item] else [item]
  }

  lemma SellMiddlePrints(quantity: Option<u64>, item: string)
    ensures Spaced(SellMiddle(quantity, item))
            == if quantity.Some? then " " + Show(quantity.value) + " " + Arg(item) else " " + Arg(item)
  {
    if quantity.Some? {
      NumberIsPlain(quantity.value);
      SpacedPair(Show(quantity.value), item);
    } else {
      assert [item][1..] == [];
    }
  }

  lemma SellTokensPrint(s: Sell)
    requires s.item.Some?
    ensures Spaced(SellTokens(s))
            == (if s.placeOrder then " order" else "")
               + (if s.quantity.Some? then " " + Show(s.quantity.value) + " " + Arg(s.item.value)
                  else " " + Arg(s.item.value)) + PriceText(s.minPrice)
  {
    var order, price := OrderTokens(s.placeOrder), PriceTokens(s.minPrice);
    var middle := SellMiddle(s.quantity, s.item.value);
    OrderTokensPrint(s.placeOrder);
    PriceTokensPrint(s.minPrice);
    SellMiddlePrints(s.quantity, s.item.value);
    assert SellTokens(s) == order + middle + price;
    SpacedConcat(order, middle);
    SpacedConcat(order + middle, price);
  }

  lemma RenderSellIsStatement(s: Sell)
    requires WellFormedSell(s)
    ensures RenderSell(s) == Statement("sell", SellTokens(s))
  {
    if s.item.None? {
      assert SellTokens(s) == [];
      assert "sell" + "" + ";" == "sell;";
    } else {
      SellTokensPrint(s);
      SellBodyText(s.placeOrder, s.quantity, Arg(s.item.value), PriceText(s.minPrice));
    }
  }

  lemma SellTokensArePrintable(s: Sell)
    requires WellFormedSell(s) && (s.item.Some? ==> IsPrintable(s.item.value))
    ensures AllPrintable(SellTokens(s))
  {
    OrderTokensPrint(s.placeOrder);
    if s.quantity.Some? { NumberIsPlain(s.quantity.value); }
    PriceTokensPrint(s.minPrice);
  }

  /** From request to text and back. */
  lemma SellTextRoundTrip(s: Sell)
    requires WellFormedSell(s) && (s.item.Some? ==> IsPrintable(s.item.value))
    ensures LexCommand(RenderSell(s)) == Some((Command("sell", SellTokens(s)), "")) && SellOf(SellTokens(s)) == Ok(s)
  {
    SellRoundTrip(s);
    RenderSellIsStatement(s);
    SellTokensArePrintable(s);
    StatementLexes("sell", SellTokens(s));
  }

  // ---- the legacy forms ----

  /** An item named first reads as the clause form with the same parts, where there is one. */
  lemma LegacyBuyIsClauseBuy(item: string, quantity: string, price: string)
    requires IsLegacyBuy([item]) && IsNumber(quantity) && price != "order"
    ensures BuyOf([item, quantity]) == BuyOf([quantity, item])
    ensures BuyOf([item, quantity, price]) == BuyOf([quantity, item, "at", price])
    ensures BuyOf([item, quantity, price, "order"]) == BuyOf(["order", quantity, item, "at", price])
  {
    var q := PositiveToken(quantity);
    LegacyParts([item, quantity]);
    LegacyParts([item, quantity, price]);
    LegacyParts([item, quantity, price, "order"]);
    assert quantity != "order" by { OrderIsNoNumber(); }
    assert [quantity, item][2..] == [];
    OnePriceClause(if q.Ok? then Buy(item, q.value, None, false, None) else Buy("", 0, None, false, None), price);
    OnePriceClause(if q.Ok? then Buy(item, q.value, None, true, None) else Buy("", 0, None, false, None), price);
    assert [quantity, item, "at", price][2..] == ["at", price];
    assert ["order", quantity, item, "at", price][1..] == [quantity, item, "at", price];
  }

  lemma OrderIsNoNumber()
    ensures !IsNumber("order")
  {
    assert 'o' in WithoutPlus("order");
  }

  lemma OnePriceClause(b: Buy, price: string)
    requires b.maxPrice.None?
    ensures BuyClauses(["at", price], b)
            == if IsPositive(price) then Ok(b.(maxPrice := Some(PositiveToken(price).value)))
               else Err(PositiveToken(price).error)
  {
    assert ["at", price][1..] == [price] && ["at", price][2..] == [];
  }

  lemma LegacyParts(parts: seq<string>)
    requires |parts| >= 2
    ensures parts[1..][0] == parts[1]
    ensures |parts| >= 3 ==> parts[2..][0] == parts[2]
    ensures forall t :: t in parts[2..] <==> exists k :: 2 <= k < |parts| && parts[k] == t
  {
    forall t | t in parts[2..] ensures exists k :: 2 <= k < |parts| && parts[k] == t {
      var k :| 0 <= k < |parts| - 2 && parts[2..][k] == t;
      assert parts[k + 2] == t;
    }
    forall k | 2 <= k < |parts| ensures parts[k] in parts[2..] {
      assert parts[2..][k - 2] == parts[k];
    }
  }

  predicate IsPositive(token: string) {
    PositiveToken(token).Ok?
  }

  /** Beside these, legacy words may say `order` without a price, and a number where that word goes is passed over. */
  lemma LegacyBuyReads(parts: seq<string>)
    requires IsLegacyBuy(parts)
    ensures BuyOf(parts).Ok?
            <==> (&& 2 <= |parts| <= 4 && IsPositive(parts[1])
                  && (|parts| > 2 ==> parts[2] == "order" || IsPositive(parts[2]))
                  && (|parts| > 3 ==> parts[3] == "order" || IsNumber(parts[3])))
    ensures BuyOf(parts).Ok? ==>
              var b := BuyOf(parts).value;
              && b.item == parts[0] && ParseU64(parts[1]) == Some(b.quantity) && b.deliverTo.None?
              && b.maxPrice == (if |parts| > 2 && parts[2] != "order" then ParseU64(parts[2]) else None)
              && (b.placeOrder <==> exists k :: 2 <= k < |parts| && parts[k] == "order")
  {
    if |parts| >= 2 { LegacyParts(parts); }
    if |parts| >= 3 { assert parts[2] in parts[2..]; }
    if |parts| >= 4 { assert parts[3] in parts[2..]; }
  }

  /** The same for sales. */
  lemma LegacySellIsClauseSell(item: string, quantity: string, price: string)
    requires item != "order" && !IsNumber(item) && IsNumber(quantity) && price != "order"
    ensures SellOf([item, quantity]) == SellOf([quantity, item])
    ensures SellOf([item, quantity, price]) == SellOf([quantity, item, "at", price])
    ensures SellOf([item, quantity, price, "order"]) == SellOf(["order", quantity, item, "at", price])
  {
    var q := PositiveToken(quantity);
    LegacyParts([item, quantity]);
    LegacyParts([item, quantity, price]);
    LegacyParts([item, quantity, price, "order"]);
    assert quantity != "order" by { OrderIsNoNumber(); }
    OneSellClause(if q.Ok? then Sell(Some(item), Some(q.value), None, false) else Sell(None, None, None, false), price);
    OneSellClause(if q.Ok? then Sell(Some(item), Some(q.value), None, true) else Sell(None, None, None, false), price);
    assert [quantity, item][2..] == [];
    assert [quantity, item, "at", price][2..] == ["at", price];
    assert ["order", quantity, item, "at", price][1..] == [quantity, item, "at", price];
  }

  lemma OneSellClause(s: Sell, price: string)
    requires s.minPrice.None?
    ensures SellClauses(["at", price], s)
            == if IsPositive(price) then Ok(s.(minPrice := Some(PositiveToken(price).value)))
               else Err(PositiveToken(price).error)
  {
    assert ["at", price][1..] == [price] && ["at", price][2..] == [];
  }

  /** A legacy sale looks at three tokens and whether any from the third on says `order`; it passes over all others. */
  lemma LegacySellReads(parts: seq<string>)
    requires IsLegacySell(parts)
    ensures SellOf(parts).Ok?
            <==> IsPositive(parts[1]) && (|parts| > 2 ==> parts[2] == "order" || IsPositive(parts[2]))
    ensures SellOf(parts).Ok? ==>
              var s := SellOf(parts).value;
              && s.item == Some(parts[0]) && s.quantity == ParseU64(parts[1])
              && s.minPrice == (if |parts| > 2 && parts[2] != "order" then ParseU64(parts[2]) else None)
              && (s.placeOrder <==> exists k :: 2 <= k < |parts| && parts[k] == "order")
  {
    LegacyParts(parts);
  }
}
