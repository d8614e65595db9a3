/** The runtime bridge's form of a transfer: a flat list of typed arguments, encoded for the queue and decoded to run. */
module TransferCodec {
  import opened Prelude
  import opened Transfers

  datatype ActionArg =
    | Any(text: string)
    | Integer(number: int)
    | ItemIdArg(text: string)
    | SystemIdArg(text: string)
    | PoiIdArg(text: string)
    | GoTargetArg(text: string)
    | ShipIdArg(text: string)
    | ListingIdArg(text: string)
    | MissionIdArg(text: string)
    | ModuleIdArg(text: string)
    | RecipeIdArg(text: string)
  {
    function AsText(): Option<string> {
      if Integer? then None else Some(text)
    }
  }

  datatype BridgeError = OutOfRange

  /** `i64::try_from` on an unsigned quantity. */
  function IntegerArg(n: nat): Result<ActionArg, BridgeError> {
    if n <= I64_MAX then Ok(Integer(n)) else Err(OutOfRange)
  }

  function Unsigned(arg: ActionArg): Option<u64> {
    if arg.Integer? && 0 <= arg.number <= I64_MAX then Some(arg.number) else None
  }

  // ---- endpoints ----

  function EndpointText(e: Endpoint): string {
    match e
    case Cargo => "cargo"
    case Storage => "storage"
    case Ship(id) => "ship:" + id
    case Faction => "faction"
    case FactionTag(tag) => "faction:" + tag
    case Player(name) => "player:" + name
    case Space(Some(id)) => "space:" + id
    case Space(None) => "space"
    case Commission(id) => "commission:" + id
  }

  function StripPrefix(s: string, prefix: string): Option<string> {
    if prefix <= s then Some(s[|prefix|..]) else None
  }

  function ParseEndpoint(s: string): (r: Option<Endpoint>)
    ensures r.Some? ==> !r.value.Commission?
  {
    if s == "cargo" then Some(Cargo)
    else if s == "storage" then Some(Storage)
    else if s == "faction" then Some(Faction)
    else if s == "space" then Some(Space(None))
    else if StripPrefix(s, "faction:").Some? then Some(FactionTag(StripPrefix(s, "faction:").value))
    else if StripPrefix(s, "player:").Some? then Some(Player(StripPrefix(s, "player:").value))
    else if StripPrefix(s, "space:").Some? then Some(Space(StripPrefix(s, "space:")))
    else if StripPrefix(s, "ship:").Some? then Some(Ship(StripPrefix(s, "ship:").value))
    else None
  }

  lemma PrefixStrips(prefix: string, rest: string)
    ensures StripPrefix(prefix + rest, prefix) == Some(rest)
  {}

  /** Two texts that differ in their first letter have different prefixes. */
  lemma OtherPrefix(s: string, prefix: string)
    requires s != "" && prefix != "" && s[0] != prefix[0]
    ensures StripPrefix(s, prefix).None?
  {}

  lemma SpaceIsNotShip(id: string)
    ensures StripPrefix("ship:" + id, "space:").None?
  {
    assert ("ship:" + id)[1] == 'h' && "space:"[1] == 'p';
  }

  /** The text of an endpoint is read back, but that of a commission is not. */
  lemma EndpointRoundTrip(e: Endpoint)
    ensures ParseEndpoint(EndpointText(e)) == if e.Commission? then None else Some(e)
  {
    var s := EndpointText(e);
    match e
    case FactionTag(tag) => PrefixStrips("faction:", tag); assert |s| >= 8;
    case Player(name) => PrefixStrips("player:", name); OtherPrefix(s, "faction:"); assert s[0] == 'p';
    case Space(Some(id)) =>
      PrefixStrips("space:", id);
      OtherPrefix(s, "faction:");
      OtherPrefix(s, "player:");
      assert s[0] == 's' && s[5] == ':';
      assert "storage"[1] == 't' && s[1] == 'p';
    case Ship(id) =>
      PrefixStrips("ship:", id);
      OtherPrefix(s, "faction:");
      OtherPrefix(s, "player:");
      SpaceIsNotShip(id);
      assert s[0] == 's' && s[1] == 'h' && "storage"[1] == 't' && "space"[1] == 'p';
    case Commission(id) =>
      OtherPrefix(s, "faction:");
      OtherPrefix(s, "player:");
      OtherPrefix(s, "space:");
      OtherPrefix(s, "ship:");
      assert s[0] == 'c' && s[1] == 'o' && "cargo"[1] == 'a';
    case _ =>
  }

  // ---- encoding ----

  function EncodeItems(items: seq<TransferItem>): Result<seq<ActionArg>, BridgeError> {
    if items == [] then Ok([])
    else
      match EncodeItems(items[..|items| - 1])
      case Err(e) => Err(e)
      case Ok(front) =>
        var last := items[|items| - 1];
        match IntegerArg(last.quantity)
        case Err(e) => Err(e)
        case Ok(quantity) => Ok(front + [ItemIdArg(last.id), quantity])
  }

  function EncodeSubject(s: Subject): Result<seq<ActionArg>, BridgeError> {
    match s
    case AllCargo => Ok([Any("all")])
    case Credits(q) =>
      (match IntegerArg(q)
       case Ok(n) => Ok([Any("credits"), n])
       case Err(e) => Err(e))
    case Item(id, None) => Ok([Any("item"), ItemIdArg(id), Any("all")])
    case Item(id, Some(q)) =>
      (match IntegerArg(q)
       case Ok(n) => Ok([Any("item"), ItemIdArg(id), n])
       case Err(e) => Err(e))
    case ShipSubject(id) => Ok([Any("ship"), ShipIdArg(id)])
    case ModuleSubject(id) => Ok([Any("module"), ModuleIdArg(id)])
    case Items(items) =>
      match IntegerArg(|items|)
      case Err(e) => Err(e)
      case Ok(count) =>
        match EncodeItems(items)
        case Err(e) => Err(e)
        case Ok(values) => Ok([Any("items"), count] + values)
  }

  function Encode(t: Transfer): Result<seq<ActionArg>, BridgeError> {
    match EncodeSubject(t.subject)
    case Err(e) => Err(e)
    case Ok(args) => Ok(args + [Any(EndpointText(t.source)), Any(EndpointText(t.destination))])
  }

  method ItemArgs(items: seq<TransferItem>) returns (r: Result<seq<ActionArg>, BridgeError>)
    ensures r == EncodeItems(items)
  {
    var values: seq<ActionArg> := [];
    for i := 0 to |items|
      invariant EncodeItems(items[..i]) == Ok(values)
    {
      ghost var sofar := items[..i + 1];
      assert sofar[..|sofar| - 1] == items[..i] && sofar[|sofar| - 1] == items[i];
      var quantity := IntegerArg(items[i].quantity);
      if quantity.Err? {
        FailureSpreads(items, i + 1);
        return Err(quantity.error);
      }
      values := values + [ItemIdArg(items[i].id), quantity.value];
    }
    assert items[..|items|] == items;
    r := Ok(values);
  }

  lemma {:induction false} FailureSpreads(items: seq<TransferItem>, i: nat)
    requires i <= |items| && EncodeItems(items[..i]).Err?
    ensures EncodeItems(items) == EncodeItems(items[..i])
    decreases |items|
  {
    if i < |items| {
      assert items[..|items| - 1][..i] == items[..i];
      FailureSpreads(items[..|items| - 1], i);
    } else {
      assert items[..i] == items;
    }
  }

  method TransferArgs(t: Transfer) returns (r: Result<seq<ActionArg>, BridgeError>)
    ensures r == Encode(t)
  {
    var args: seq<ActionArg>;
    if t.subject.Items? {
      var count := IntegerArg(|t.subject.items|);
      if count.Err? { return Err(count.error); }
      var values := ItemArgs(t.subject.items);
      if values.Err? { return Err(values.error); }
      args := [Any("items"), count.value] + values.value;
    } else {
      var subject := EncodeSubject(t.subject);
      if subject.Err? { return Err(subject.error); }
      args := subject.value;
    }
    r := Ok(args + [Any(EndpointText(t.source)), Any(EndpointText(t.destination))]);
  }

  // ---- decoding ----

  /** `usize::saturating_mul(2).saturating_add(4)` */
  function BlockLength(count: nat): nat {
    if count * 2 + 4 <= U64_MAX then count * 2 + 4 else U64_MAX
  }

  /** The first `count` pairs of id and quantity after the first two arguments. */
  function DecodeItems(args: seq<ActionArg>, count: nat): (r: Option<seq<TransferItem>>)
    ensures r.Some? ==> |r.value| == count
  {
    if count == 0 then Some([])
    else
      match DecodeItems(args, count - 1)
      case None => None
      case Some(front) =>
        match DecodeItem(args, count - 1)
        case None => None
        case Some(item) => Some(front + [item])
  }

  function DecodeItem(args: seq<ActionArg>, i: nat): Option<TransferItem> {
    if 3 + i * 2 < |args| && args[2 + i * 2].ItemIdArg? && Unsigned(args[3 + i * 2]).Some?
    then Some(TransferItem(args[2 + i * 2].text, Unsigned(args[3 + i * 2]).value))
    else None
  }

  function DecodeSubject(args: seq<ActionArg>): Option<Subject>
    requires |args| >= 3
  {
    match args[0].AsText()
    case None => None
    case Some(head) =>
      if head == "all" && |args| == 3 then Some(AllCargo)
      else if head == "credits" && |args| == 4 then
        (match Unsigned(args[1])
         case Some(q) => Some(Credits(q))
         case None => None)
      else if head == "item" && |args| == 5 then
        if !args[1].ItemIdArg? then None
        else if args[2].AsText() == Some("all") then Some(Item(args[1].text, None))
        else
          (match Unsigned(args[2])
           case Some(q) => Some(Item(args[1].text, Some(q)))
           case None => None)
      else if head == "ship" && |args| == 4 then
        if args[1].ShipIdArg? then Some(ShipSubject(args[1].text)) else None
      else if head == "items" then
        (match Unsigned(args[1])
         case None => None
         case Some(count) =>
           if |args| != BlockLength(count) then None
           else
             match DecodeItems(args, count)
             case Some(items) => Some(Items(items))
             case None => None)
      else None
  }

  function EndpointAt(arg: ActionArg): Option<Endpoint> {
    match arg.AsText()
    case Some(s) => ParseEndpoint(s)
    case None => None
  }

  function Decode(args: seq<ActionArg>): Option<Transfer> {
    if |args| < 3 then None
    else
      match EndpointAt(args[|args| - 2])
      case None => None
      case Some(source) =>
        match EndpointAt(args[|args| - 1])
        case None => None
        case Some(destination) =>
          match DecodeSubject(args)
          case None => None
          case Some(subject) => Some(Transfer(subject, source, destination))
  }

  method ItemsFrom(args: seq<ActionArg>, count: nat) returns (r: Option<seq<TransferItem>>)
    ensures r == DecodeItems(args, count)
  {
    var items: seq<TransferItem> := [];
    for i := 0 to count
      invariant DecodeItems(args, i) == Some(items)
    {
      var item := DecodeItem(args, i);
      if item.None? {
        MissingItemSpreads(args, i + 1, count);
        return None;
      }
      items := items + [item.value];
    }
    r := Some(items);
  }

  lemma {:induction false} MissingItemSpreads(args: seq<ActionArg>, i: nat, count: nat)
    requires i <= count && DecodeItems(args, i).None?
    ensures DecodeItems(args, count).None?
    decreases count
  {
    if i < count { MissingItemSpreads(args, i, count - 1); }
  }

  method TypedTransfer(args: seq<ActionArg>) returns (r: Option<Transfer>)
    ensures r == Decode(args)
  {
    if |args| < 3 { return None; }
    var source := EndpointAt(args[|args| - 2]);
    if source.None? { return None; }
    var destination := EndpointAt(args[|args| - 1]);
    if destination.None? { return None; }
    var subject: Option<Subject>;
    if args[0].AsText() == Some("items") {
      var count := Unsigned(args[1]);
      if count.None? || |args| != BlockLength(count.value) { return None; }
      var items := ItemsFrom(args, count.value);
      if items.None? { return None; }
      subject := Some(Items(items.value));
    } else {
      subject := DecodeSubject(args);
      if subject.None? { return None; }
    }
    r := Some(Transfer(subject.value, source.value, destination.value));
  }

  // ---- the codec ----

  /** Every integer of the encoding fits an i64. */
  predicate Fits(t: Transfer) {
    match t.subject
    case Credits(q) => q <= I64_MAX
    case Item(_, Some(q)) => q <= I64_MAX
    case Items(items) => |items| <= I64_MAX && forall i | 0 <= i < |items| :: items[i].quantity <= I64_MAX
    case _ => true
  }

  lemma {:induction false} ItemsEncode(items: seq<TransferItem>)
    ensures EncodeItems(items).Ok? <==> forall i | 0 <= i < |items| :: items[i].quantity <= I64_MAX
    ensures EncodeItems(items).Ok? ==> |EncodeItems(items).value| == 2 * |items|
    decreases |items|
  {
    if items != [] { ItemsEncode(items[..|items| - 1]); }
  }

  /** Encoding fails exactly when some integer is above the i64 range. */
  lemma EncodesExactlyWhatFits(t: Transfer)
    ensures Encode(t).Ok? <==> Fits(t)
  {
    if t.subject.Items? { ItemsEncode(t.subject.items); }
  }

  /** Each item sits at its own two places. */
  lemma {:induction false} ItemSits(items: seq<TransferItem>, i: nat)
    requires EncodeItems(items).Ok? && i < |items|
    ensures |EncodeItems(items).value| == 2 * |items|
    ensures EncodeItems(items).value[2 * i] == ItemIdArg(items[i].id)
    ensures EncodeItems(items).value[2 * i + 1] == Integer(items[i].quantity) && items[i].quantity <= I64_MAX
    decreases |items|
  {
    ItemsEncode(items[..|items| - 1]);
    if i < |items| - 1 { ItemSits(items[..|items| - 1], i); }
  }

  /** The item places of a whole argument list. */
  ghost predicate Holds(args: seq<ActionArg>, items: seq<TransferItem>) {
    |args| >= 2 + 2 * |items|
    && forall i {:trigger DecodeItem(args, i)} | 0 <= i < |items| :: DecodeItem(args, i) == Some(items[i])
  }

  lemma {:induction false} ItemsDecode(args: seq<ActionArg>, items: seq<TransferItem>, n: nat)
    requires Holds(args, items) && n <= |items|
    ensures DecodeItems(args, n) == Some(items[..n])
  {
    if n > 0 {
      ItemsDecode(args, items, n - 1);
      assert DecodeItem(args, n - 1) == Some(items[n - 1]);
      assert items[..n] == items[..n - 1] + [items[n - 1]];
    }
  }

  lemma EncodedItemsAreHeld(items: seq<TransferItem>, before: seq<ActionArg>, after: seq<ActionArg>)
    requires EncodeItems(items).Ok? && |before| == 2
    ensures Holds(before + EncodeItems(items).value + after, items)
  {
    var values := EncodeItems(items).value;
    var args := before + values + after;
    ItemsEncode(items);
    forall i | 0 <= i < |items| ensures DecodeItem(args, i) == Some(items[i]) {
      ItemSits(items, i);
      assert args[2 + i * 2] == values[2 * i] && args[3 + i * 2] == values[2 * i + 1];
    }
  }

  lemma ItemsSubjectRoundTrip(t: Transfer)
    requires t.subject.Items? && Encode(t).Ok?
    ensures |Encode(t).value| == 2 * |t.subject.items| + 4
    ensures DecodeSubject(Encode(t).value)
            == if 2 * |t.subject.items| + 4 <= U64_MAX then Some(t.subject) else None
  {
    var items := t.subject.items;
    ItemsEncode(items);
    var before, after := [Any("items"), Integer(|items|)], [Any(EndpointText(t.source)),
        Any(EndpointText(t.destination))];
    var args := Encode(t).value;
    assert args == before + EncodeItems(items).value + after;
    EncodedItemsAreHeld(items, before, after);
    ItemsDecode(args, items, |items|);
    assert items[..|items|] == items;
    assert args[0] == Any("items") && args[1] == Integer(|items|);
  }

  lemma PlainSubjectRoundTrip(t: Transfer)
    requires !t.subject.Items? && Encode(t).Ok?
    ensures |Encode(t).value| >= 3
    ensures DecodeSubject(Encode(t).value) == if t.subject.ModuleSubject? then None else Some(t.subject)
  {
    var args := Encode(t).value;
    assert args[0] == EncodeSubject(t.subject).value[0];
    if !t.subject.AllCargo? { assert args[1] == EncodeSubject(t.subject).value[1]; }
  }

  /** Module subjects and commissions have no decoding, nor has a list too long to count. */
  predicate Survives(t: Transfer) {
    && !t.subject.ModuleSubject? && !t.source.Commission? && !t.destination.Commission?
    && (t.subject.Items? ==> 2 * |t.subject.items| + 4 <= U64_MAX)
  }

  /** Whatever fits is encoded, and decoding the encoding gives the transfer back exactly for those that survive. */
  lemma CodecRoundTrip(t: Transfer)
    requires Fits(t)
    ensures Encode(t).Ok?
    ensures Decode(Encode(t).value) == if Survives(t) then Some(t) else None
  {
    EncodesExactlyWhatFits(t);
    if t.subject.Items? { ItemsSubjectRoundTrip(t); } else { PlainSubjectRoundTrip(t); }
    var args := Encode(t).value;
    assert args[|args| - 2] == Any(EndpointText(t.source)) && args[|args| - 1] == Any(EndpointText(t.destination));
    EndpointRoundTrip(t.source);
    EndpointRoundTrip(t.destination);
  }

  lemma {:induction false} DecodedItemsFit(args: seq<ActionArg>, count: nat)
    requires DecodeItems(args, count).Some?
    ensures forall i | 0 <= i < count :: DecodeItems(args, count).value[i].quantity <= I64_MAX
  {
    if count > 0 { DecodedItemsFit(args, count - 1); }
  }

  /** What is decoded can be encoded again and decodes to the same; a list in memory has at most i64::MAX entries. */
  lemma DecodedReencodes(args: seq<ActionArg>)
    requires Decode(args).Some? && |args| <= I64_MAX
    ensures var t := Decode(args).value; Fits(t) && Survives(t) && Encode(t).Ok? && Decode(Encode(t).value) == Some(t)
  {
    var t := Decode(args).value;
    if t.subject.Items? { DecodedItemsFit(args, |t.subject.items|); }
    CodecRoundTrip(t);
  }

  // ---- on the wire ----

  /** The arguments the runtime is sent, subject by subject. */
  lemma WireForm(q: u64, id: string)
    requires q <= I64_MAX
    ensures Encode(Transfer(AllCargo, Cargo, Storage)) == Ok([Any("all"), Any("cargo"), Any("storage")])
    ensures Encode(Transfer(Credits(q), Faction, Player(id)))
            == Ok([Any("credits"), Integer(q), Any("faction"), Any("player:" + id)])
    ensures Encode(Transfer(Item(id, None), Space(None), Cargo))
            == Ok([Any("item"), ItemIdArg(id), Any("all"), Any("space"), Any("cargo")])
    ensures Encode(Transfer(Item(id, Some(q)), Cargo, Ship(id)))
            == Ok([Any("item"), ItemIdArg(id), Integer(q), Any("cargo"), Any("ship:" + id)])
    ensures Encode(Transfer(ShipSubject(id), Storage, FactionTag(id)))
            == Ok([Any("ship"), ShipIdArg(id), Any("storage"), Any("faction:" + id)])
    ensures Encode(Transfer(ModuleSubject(id), Space(Some(id)), Cargo))
            == Ok([Any("module"), ModuleIdArg(id), Any("space:" + id), Any("cargo")])
  {
    EndsFollow(Any("all"), Any("cargo"), Any("storage"));
    TwoThenEnds(Any("credits"), Integer(q), Any("faction"), Any("player:" + id));
    ThreeThenEnds(Any("item"), ItemIdArg(id), Any("all"), Any("space"), Any("cargo"));
    ThreeThenEnds(Any("item"), ItemIdArg(id), Integer(q), Any("cargo"), Any("ship:" + id));
    TwoThenEnds(Any("ship"), ShipIdArg(id), Any("storage"), Any("faction:" + id));
    TwoThenEnds(Any("module"), ModuleIdArg(id), Any("space:" + id), Any("cargo"));
  }

  lemma BlockWireForm(item: TransferItem, id: string)
    requires item.quantity <= I64_MAX
    ensures Encode(Transfer(Items([item]), Cargo, Commission(id)))
            == Ok([Any("items"), Integer(1), ItemIdArg(item.id), Integer(item.quantity),
                   Any("cargo"), Any("commission:" + id)])
  {
    assert [item][..0] == [] && EncodeItems([]) == Ok([]);
    assert EncodeItems([item]) == Ok([] + [ItemIdArg(item.id), Integer(item.quantity)]);
    var values := [ItemIdArg(item.id), Integer(item.quantity)];
    assert [] + values == values;
    assert EncodeSubject(Items([item])) == Ok([Any("items"), Integer(1)] + values);
    FourThenEnds(Any("items"), Integer(1), values[0], values[1], Any("cargo"), Any("commission:" + id));
  }

  lemma FourThenEnds(a: ActionArg, b: ActionArg, c: ActionArg, d: ActionArg, x: ActionArg, y: ActionArg)
    ensures [a, b] + [c, d] + [x, y] == [a, b, c, d, x, y]
  {}

  lemma EndsFollow(a: ActionArg, x: ActionArg, y: ActionArg)
    ensures [a] + [x, y] == [a, x, y]
  {}

  lemma TwoThenEnds(a: ActionArg, b: ActionArg, x: ActionArg, y: ActionArg)
    ensures [a, b] + [x, y] == [a, b, x, y]
  {}

  lemma ThreeThenEnds(a: ActionArg, b: ActionArg, c: ActionArg, x: ActionArg, y: ActionArg)
    ensures [a, b, c] + [x, y] == [a, b, c, x, y]
  {}
}
