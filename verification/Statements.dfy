/**
 * From a lexed command to a statement of the program, the clause forms of the service commands, and the way all through:
 * a printed request lexes, parses, analyses and compiles to the action it was printed from.
 */
module Statements {
  import opened Prelude
  import opened TextTools
  import opened Decimal
  import opened Lexing
  import opened Resolution
  import opened Commands
  import opened Pipeline
  import BS = BuySell
  import C = Crafting
  import T = Transfers
  import TC = TransferClauses
  import Trade = TradeOffers

  datatype ParseError =
    | BadBuy(buy: BS.ClauseError)
    | BadSell(sell: BS.ClauseError)
    | BadCraft(craft: C.CraftError)
    | BadTransfer(transfer: TC.TransferError)
    | BadShape

  /** The spellings the catalog and lowering know, in lower case. */
  type Spellings = map<string, CommandName>

  function NameOf(spelling: string, known: Spellings): Name {
    var lower := AsciiLower(spelling);
    if lower in known then Known(known[lower]) else Unlisted(lower)
  }

  // ---- canonical argument lists ----

  function Position(args: seq<string>, word: string): (r: Option<nat>)
    ensures r.Some? ==> r.value < |args| && args[r.value] == word && word !in args[..r.value]
    ensures r.None? ==> word !in args
  {
    if args == [] then None
    else if args[0] == word then Some(0)
    else
      match Position(args[1..], word)
      case Some(i) => assert args[..i + 1] == [args[0]] + args[1..][..i]; Some(i + 1)
      case None => None
  }

  function CommissionOf(args: seq<string>): Result<(string, bool), ParseError> {
    if args == [] then Err(BadShape)
    else if |args| == 1 then Ok((args[0], false))
    else if args[1..] == ["with", "materials"] then Ok((args[0], true))
    else Err(BadShape)
  }

  /** `modify_order <order> at <price>` drops the keyword. */
  function ModifyOrderArgs(args: seq<string>): Result<seq<string>, ParseError> {
    if |args| != 3 || args[1] != "at" || BS.PositiveToken(args[2]).Err? then Err(BadShape) else Ok([args[0], args[2]])
  }

  /** `unload_passenger <name> to <target>` drops the keyword. */
  function UnloadArgs(args: seq<string>): Result<seq<string>, ParseError> {
    if |args| > 1 && args[1] == "to" then
      if |args| != 3 then Err(BadShape) else Ok([args[0], args[2]])
    else Ok(args)
  }

  /** `refuel [quantity] to <target>` becomes target first, then quantity. */
  function RefuelArgs(args: seq<string>): Result<seq<string>, ParseError> {
    match Position(args, "to")
    case None => Ok(args)
    case Some(at) =>
      if at + 1 >= |args| || at > 1 || |args| != at + 2 then Err(BadShape)
      else Ok([args[at + 1]] + args[..at])
  }

  /** `repair <target> with <item> [quantity]` drops the keyword. */
  function RepairArgs(args: seq<string>): Result<seq<string>, ParseError> {
    match Position(args, "with")
    case None => Ok(args)
    case Some(at) =>
      if at != 1 || |args| < 3 || |args| > 4 then Err(BadShape) else Ok([args[0]] + args[2..])
  }

  function CommandOf(name: string, args: Result<seq<string>, ParseError>, known: Spellings,
                     span: Span): Result<Statement, ParseError> {
    match args
    case Ok(canonical) => Ok(CommandStatement(NameOf(name, known), canonical, span))
    case Err(e) => Err(e)
  }

  /** The statement a lexed command stands for. */
  function StatementOf(c: Command, known: Spellings, span: Span): Result<Statement, ParseError> {
    if c.name == "transfer" then
      match TC.FlatOf(c.args)
      case Ok(node) => Ok(TransferStatement(node, span))
      case Err(e) => Err(ParseError.BadTransfer(e))
    else if c.name == "craft" then
      match C.CraftOf(c.args)
      case Ok(craft) => Ok(CraftStatement(craft, span))
      case Err(e) => Err(BadCraft(e))
    else if c.name == "recycle" then
      match C.RecycleOf(c.args)
      case Ok(recycle) => Ok(RecycleStatement(recycle, span))
      case Err(e) => Err(BadCraft(e))
    else if c.name == "buy" then
      match BS.BuyOf(c.args)
      case Ok(buy) => Ok(BuyStatement(buy, span))
      case Err(e) => Err(BadBuy(e))
    else if c.name == "sell" then
      match BS.SellOf(c.args)
      case Ok(sell) => Ok(SellStatement(sell, span))
      case Err(e) => Err(BadSell(e))
    else if c.name == "commission_ship" then
      match CommissionOf(c.args)
      case Ok((shipClass, materials)) => Ok(CommissionStatement(shipClass, materials, span))
      case Err(e) => Err(e)
    else if c.name == "modify_order" then CommandOf(c.name, ModifyOrderArgs(c.args), known, span)
    else if c.name == "unload_passenger" then CommandOf(c.name, UnloadArgs(c.args), known, span)
    else if c.name == "refuel" then CommandOf(c.name, RefuelArgs(c.args), known, span)
    else if c.name == "repair" then CommandOf(c.name, RepairArgs(c.args), known, span)
    else CommandOf(c.name, Ok(c.args), known, span)
  }

  // ---- service commands: print, canonicalise, lower ----

  function RefuelTokens(target: Option<string>, quantity: Option<u64>): seq<string> {
    (if quantity.Some? then [Show(quantity.value)] else []) + (if target.Some? then ["to", target.value] else [])
  }

  /** The request lowered from canonical arguments. */
  function Lowered(name: CommandName, args: Result<seq<string>, ParseError>): Option<seq<Field>> {
    match args
    case Err(_) => None
    case Ok(canonical) =>
      match LowerCommand(Known(name), canonical)
      case Ok(fields) => Some(fields)
      case Err(_) => None
  }

  lemma NumberIsNoKeyword(n: nat)
    ensures Show(n) != "to" && Show(n) != "with"
  {
    assert Show(n)[0] in Show(n);
  }

  /** Target first, then quantity. */
  function CanonicalRefuel(target: Option<string>, quantity: Option<u64>): seq<string> {
    (if target.Some? then [target.value] else []) + (if quantity.Some? then [Show(quantity.value)] else [])
  }

  lemma RefuelCanonical(target: Option<string>, quantity: Option<u64>)
    ensures RefuelArgs(RefuelTokens(target, quantity))
            == Ok(CanonicalRefuel(target, quantity))
  {
    var args := RefuelTokens(target, quantity);
    if quantity.Some? { NumberIsNoKeyword(quantity.value); }
    if target.Some? {
      var at := if quantity.Some? then 1 else 0;
      assert args[at] == "to" && args[at + 1] == target.value;
      assert Position(args, "to") == Some(at);
      assert args[..at] == if quantity.Some? then [Show(quantity.value)] else [];
    } else {
      assert "to" !in args;
      assert args == [] + (if quantity.Some? then [Show(quantity.value)] else []);
    }
  }

  lemma RefuelLowers(target: Option<string>, quantity: Option<u64>)
    ensures LowerRefuel(CanonicalRefuel(target, quantity)) == Ok([MaybeText(target), MaybeNumber(quantity)])
            <==> (target.Some? ==> ParseU64(target.value).None?)
  {
    if quantity.Some? { ParseU64OfShow(quantity.value); }
  }

  /** A refuel request survives printing exactly when its target is not itself a number. */
  lemma RefuelRoundTrip(target: Option<string>, quantity: Option<u64>)
    ensures Lowered(Refuel, RefuelArgs(RefuelTokens(target, quantity)))
            == Some([MaybeText(target), MaybeNumber(quantity)])
            <==> (target.Some? ==> ParseU64(target.value).None?)
  {
    RefuelCanonical(target, quantity);
    RefuelLowers(target, quantity);
  }

  /** Without a target nothing is printed; without an item no quantity is. */
  function RepairTokens(target: Option<string>, item: Option<string>, quantity: Option<u64>): seq<string> {
    if target.None? then []
    else if item.None? then [target.value]
    else [target.value, "with", item.value] + (if quantity.Some? then [Show(quantity.value)] else [])
  }

  predicate WellFormedRepair(target: Option<string>, item: Option<string>, quantity: Option<u64>) {
    target != Some("with") && (target.None? ==> item.None?) && (item.None? ==> quantity.None?)
  }

  lemma RepairCanonical(target: string, item: Option<string>, quantity: Option<u64>)
    ensures RepairArgs(RepairTokens(Some(target), item, quantity))
            == if target == "with" then Err(BadShape)
               else Ok(if item.None? then [target]
                       else [target, item.value] + (if quantity.Some? then [Show(quantity.value)] else []))
  {
    var args := RepairTokens(Some(target), item, quantity);
    assert args[0] == target;
    if target == "with" {
      assert Position(args, "with") == Some(0);
    } else if item.Some? {
      assert args[1] == "with";
      assert Position(args, "with") == Some(1);
      var tail := if quantity.Some? then [Show(quantity.value)] else [];
      assert args[2..] == [item.value] + tail;
      assert [args[0]] + args[2..] == [target, item.value] + tail;
    } else {
      assert "with" !in args;
    }
  }

  lemma RepairLowers(args: seq<string>)
    requires |args| <= 2 || ParseU64(args[2]).Some?
    ensures LowerCommand(Known(Repair), args)
            == Ok([MaybeText(ArgAt(args, 0)), MaybeNumber(if |args| <= 2 then None else ParseU64(args[2])),
                   MaybeText(ArgAt(args, 1))])
  {
    TakeThree(MaybeTextAt(0), MaybeNumberAt(2), MaybeTextAt(1), args);
  }

  /** A repair request survives printing exactly when it is well formed. */
  lemma RepairRoundTrip(target: Option<string>, item: Option<string>, quantity: Option<u64>)
    ensures Lowered(Repair, RepairArgs(RepairTokens(target, item, quantity)))
            == Some([MaybeText(target), MaybeNumber(quantity), MaybeText(item)])
            <==> WellFormedRepair(target, item, quantity)
  {
    if target.None? {
      RepairLowers([]);
    } else {
      RepairCanonical(target.value, item, quantity);
      if target.value != "with" {
        if quantity.Some? { ParseU64OfShow(quantity.value); }
        RepairLowers(RepairArgs(RepairTokens(target, item, quantity)).value);
      }
    }
  }

  lemma ModifyOrderCanonical(order: string, price: u64)
    ensures ModifyOrderArgs([order, "at", Show(price)]) == if price > 0 then Ok([order, Show(price)]) else Err(BadShape)
  {
    ParseU64OfShow(price);
  }

  lemma ModifyOrderLowers(args: seq<string>)
    requires |args| == 2 && ParseU64(args[1]).Some?
    ensures LowerCommand(Known(ModifyOrder), args) == Ok([Text(args[0]), Number(ParseU64(args[1]).value)])
  {
    TakeTwo(TextAt(0), NumberAt(1), args);
  }

  /** A price change survives printing exactly when the price is positive. */
  lemma ModifyOrderRoundTrip(order: string, price: u64)
    ensures price > 0
            <==> Lowered(ModifyOrder, ModifyOrderArgs([order, "at", Show(price)])) == Some([Text(order), Number(price)])
  {
    ModifyOrderCanonical(order, price);
    ParseU64OfShow(price);
    ModifyOrderLowers([order, Show(price)]);
  }

  function UnloadTokens(name: string, target: Option<string>): seq<string> {
    if target.Some? then [name, "to", target.value] else [name]
  }

  lemma UnloadRoundTrip(name: string, target: Option<string>)
    ensures Lowered(UnloadPassenger, UnloadArgs(UnloadTokens(name, target))) == Some([Text(name), MaybeText(target)])
  {
    TakeTwo(TextAt(0), MaybeTextAt(1), if target.Some? then [name, target.value] else [name]);
  }

  lemma CommissionRoundTrip(shipClass: string, materials: bool)
    ensures CommissionOf([shipClass] + (if materials then ["with", "materials"] else [])) == Ok((shipClass, materials))
  {
    assert ([shipClass] + ["with", "materials"])[1..] == ["with", "materials"];
  }

  // ---- what is said ----

  /** What `say` was given: the target is there for private messages. */
  datatype Speech = Speech(content: string, channel: string, target: Option<string>)

  /** Where the text goes on after at least one gap character. */
  function AfterGap(s: string): (r: Option<string>)
    ensures r.Some? ==> |r.value| < |s|
  {
    if s != "" && IsGap(s[0]) then Some(SkipGaps(s)) else None
  }

  /** One argument, set off by a gap. */
  function NextArg(s: string): Option<(string, string)> {
    match AfterGap(s)
    case Some(start) => LexToken(start)
    case None => None
  }

  /** The word between content and channel: unquoted, with a gap on either side of it. */
  function AfterTo(s: string): Option<string> {
    match AfterGap(s)
    case Some(start) => if "to" <= start then Some(start[2..]) else None
    case None => None
  }

  /** The end of a statement. */
  function AfterSemicolon(s: string): Option<string> {
    var end := SkipGaps(s);
    if end != "" && end[0] == ';' then Some(end[1..]) else None
  }

  /** The channel, the target if one is there, and the end. */
  function LexAudience(s: string): Option<((string, Option<string>), string)> {
    match NextArg(s)
    case None => None
    case Some((channel, rest)) =>
      var target := NextArg(rest);
      match AfterSemicolon(if target.Some? then target.value.1 else rest)
      case Some(after) => Some(((channel, if target.Some? then Some(target.value.0) else None), after))
      case None => None
  }

  /** What follows the content. */
  function LexSpoken(content: string, s: string): Option<(Speech, string)> {
    match AfterTo(s)
    case None => None
    case Some(rest) =>
      match LexAudience(rest)
      case Some(((channel, target), after)) => Some((Speech(content, channel, target), after))
      case None => None
  }

  /** `say <content> to <channel> [target];` and the text after the semicolon. */
  function LexSay(s: string): Option<(Speech, string)> {
    if !("say" <= s) then None
    else
      match NextArg(s[3..])
      case None => None
      case Some((content, more)) => LexSpoken(content, more)
  }

  /** A command of another name is not taken for speech. */
  lemma OnlySaySpeaks(text: string)
    requires LexCommand(text).Some?
    ensures LexSay(text).Some? ==> "say" <= LexCommand(text).value.0.name
  {
    if "say" <= text {
      var n := 1 + TailRun(text[1..]);
      assert text[0] == "say"[0] && text[1..][0] == "say"[1] && text[1..][1] == "say"[2];
      assert LexCommand(text).value.0.name == text[..n];
      assert "say" == text[..n][..3];
    }
  }

  // ---- all the way through ----

  /** One statement and the text after it: `say` with its `to` is tried before the common shape of commands. */
  function ParseStatement(text: string, known: Spellings, span: Span): Option<(Statement, string)> {
    match LexSay(text)
    case Some((said, rest)) => Some((SayStatement(said.content, said.channel, said.target, span), rest))
    case None =>
      match LexCommand(text)
      case None => None
      case Some((command, rest)) =>
        match StatementOf(command, known, span)
        case Ok(st) => Some((st, rest))
        case Err(_) => None
  }

  /** What a parsed statement makes the bot do, when analysis has no complaint. */
  function MeaningOf(st: Statement, obs: Observation): Option<Action> {
    var analyzed := AnalyzeStatement(st, obs);
    if analyzed.errors != [] then None
    else
      match CompileStatement(analyzed.value)
      case Ok(action) => Some(action)
      case Err(_) => None
  }

  /** What the language makes of one statement's text, without complaints on the way. */
  function ActionOf(text: string, known: Spellings, span: Span, obs: Observation): Option<Action> {
    match ParseStatement(text, known, span)
    case Some((st, rest)) => if rest == "" then MeaningOf(st, obs) else None
    case None => None
  }

  lemma CommandParses(text: string, c: Command, st: Statement, known: Spellings, span: Span)
    requires LexCommand(text) == Some((c, "")) && !("say" <= c.name) && StatementOf(c, known, span) == Ok(st)
    ensures ParseStatement(text, known, span) == Some((st, ""))
  {
    OnlySaySpeaks(text);
  }

  lemma ActionFollows(text: string, c: Command, st: Statement, action: Action, known: Spellings, span: Span,
                      obs: Observation)
    requires LexCommand(text) == Some((c, "")) && !("say" <= c.name) && StatementOf(c, known, span) == Ok(st)
    requires AnalyzeStatement(st, obs) == Outcome(st, []) && CompileStatement(st) == Ok(action)
    ensures ActionOf(text, known, span, obs) == Some(action)
  {
    CommandParses(text, c, st, known, span);
  }

  /** Every well-formed purchase means itself. */
  lemma BuyMeansItself(b: BS.Buy, known: Spellings, span: Span, obs: Observation)
    requires BS.WellFormedBuy(b) && IsPrintable(b.item)
    ensures ActionOf(BS.RenderBuy(b), known, span, obs) == Some(BuyAction(b))
  {
    BS.BuyTextRoundTrip(b);
    ActionFollows(BS.RenderBuy(b), Command("buy", BS.BuyTokens(b)), BuyStatement(b, span), BuyAction(b),
                  known, span, obs);
  }

  /** Every well-formed sale means itself. */
  lemma SellMeansItself(s: BS.Sell, known: Spellings, span: Span, obs: Observation)
    requires BS.WellFormedSell(s) && (s.item.Some? ==> IsPrintable(s.item.value))
    ensures ActionOf(BS.RenderSell(s), known, span, obs) == Some(SellAction(s))
  {
    BS.SellTextRoundTrip(s);
    ActionFollows(BS.RenderSell(s), Command("sell", BS.SellTokens(s)), SellStatement(s, span), SellAction(s),
                  known, span, obs);
  }

  /** The identifier is one analysis leaves alone: nothing of its kind is known, or it is the known spelling itself. */
  predicate IsCanonical(kind: ArgType, id: string, obs: Observation) {
    Resolve(kind, id, obs) == NotChecked || Resolve(kind, id, obs) == Found(id)
  }

  lemma CraftMeans(n: C.Craft, span: Span, obs: Observation)
    ensures MeaningOf(CraftStatement(n, span), obs) == Some(CraftAction(n)) <==> IsCanonical(RecipeIdArg, n.recipe, obs)
  {
    var r := ResolveOrReport(n.recipe, 0, RecipeIdArg, span, obs);
    if r.value == n.recipe { assert n.(recipe := r.value) == n; }
  }

  /** A well-formed crafting request means itself exactly when its recipe is canonical. */
  lemma CraftMeansItself(n: C.Craft, known: Spellings, span: Span, obs: Observation)
    requires C.WellFormedCraft(n) && C.NamesArePrintable(n)
    ensures ActionOf(C.RenderCraft(n), known, span, obs) == Some(CraftAction(n))
            <==> IsCanonical(RecipeIdArg, n.recipe, obs)
  {
    C.CraftTextRoundTrip(n);
    CommandParses(C.RenderCraft(n), Command("craft", C.CraftTokens(n)), CraftStatement(n, span), known, span);
    CraftMeans(n, span, obs);
  }

  lemma RecycleMeans(n: C.Craft, span: Span, obs: Observation)
    ensures MeaningOf(RecycleStatement(n, span), obs)
            == Some(RecycleAction(n.recipe, n.quantity, n.clauses.source, n.clauses.deliverTo, n.clauses.facility))
            <==> IsCanonical(RecipeIdArg, n.recipe, obs)
  {}

  /** A well-formed recycling request means itself exactly when its recipe is canonical. */
  lemma RecycleMeansItself(n: C.Craft, known: Spellings, span: Span, obs: Observation)
    requires C.WellFormedCraft(n) && C.NamesArePrintable(n) && n.clauses.preset.None?
    ensures ActionOf(C.RenderRecycle(n), known, span, obs)
            == Some(RecycleAction(n.recipe, n.quantity, n.clauses.source, n.clauses.deliverTo, n.clauses.facility))
            <==> IsCanonical(RecipeIdArg, n.recipe, obs)
  {
    C.RecycleTextRoundTrip(n);
    CommandParses(C.RenderRecycle(n), Command("recycle", C.CraftTokens(n)), RecycleStatement(n, span), known, span);
    RecycleMeans(n, span, obs);
  }

  function CommissionTokens(shipClass: string, materials: bool): seq<string> {
    [shipClass] + (if materials then ["with", "materials"] else [])
  }

  lemma MaterialsArePlain()
    ensures AllPrintable(["with", "materials"])
  {
    WithIsPlain();
    PlainIsBare("materials");
    OnePrintable("with");
    OnePrintable("materials");
    PrintableConcat(["with"], ["materials"]);
    assert ["with"] + ["materials"] == ["with", "materials"];
  }

  lemma WithIsPlain()
    ensures IsPrintable("with")
  {
    PlainIsBare("with");
  }

  lemma CommissionWords(shipClass: string, materials: bool)
    requires IsPrintable(shipClass)
    ensures AllPrintable(CommissionTokens(shipClass, materials))
  {
    OnePrintable(shipClass);
    MaterialsArePlain();
    PrintableConcat([shipClass], if materials then ["with", "materials"] else []);
  }

  lemma CommissionIsStatement(shipClass: string, materials: bool, known: Spellings, span: Span)
    ensures StatementOf(Command("commission_ship", CommissionTokens(shipClass, materials)), known, span)
            == Ok(CommissionStatement(shipClass, materials, span))
  {
    CommissionRoundTrip(shipClass, materials);
  }

  lemma CommissionLexes(shipClass: string, materials: bool)
    requires IsPrintable(shipClass)
    ensures LexCommand(Lexing.Statement("commission_ship", CommissionTokens(shipClass, materials)))
            == Some((Command("commission_ship", CommissionTokens(shipClass, materials)), ""))
  {
    CommissionWords(shipClass, materials);
    StatementLexes("commission_ship", CommissionTokens(shipClass, materials));
  }

  /** Every commission means itself. */
  lemma CommissionMeansItself(shipClass: string, materials: bool, known: Spellings, span: Span, obs: Observation)
    requires IsPrintable(shipClass)
    ensures ActionOf(Lexing.Statement("commission_ship", CommissionTokens(shipClass, materials)), known, span, obs)
            == Some(CommissionAction(shipClass, materials))
  {
    var args := CommissionTokens(shipClass, materials);
    CommissionLexes(shipClass, materials);
    CommissionIsStatement(shipClass, materials, known, span);
    ActionFollows(Lexing.Statement("commission_ship", args), Command("commission_ship", args),
                  CommissionStatement(shipClass, materials, span), CommissionAction(shipClass, materials),
                  known, span, obs);
  }

  /** The name given to a player stays an item: it is found as one and is no owned ship, or nothing is known to check. */
  predicate StaysItem(id: string, obs: Observation) {
    var item, ship := Resolve(ItemIdArg, id, obs), Resolve(ShipIdArg, id, obs);
    || (item.NotChecked? && ship.NotChecked?)
    || (id !in obs.ownedShipIds && (item == Found(id) || (!item.Found? && ship == Found(id))))
  }

  /** What analysis asks of a flat transfer beyond its shape. */
  predicate IsAdmissible(t: T.Transfer, obs: Observation)
    requires !t.subject.Items?
  {
    && MayMove(TC.NodeSubjectFor(t.subject), t.source, t.destination)
    && (t.subject.Credits? ==> t.subject.quantity > 0)
    && (t.subject.Item? ==>
          && (t.subject.itemQuantity.Some? ==> t.subject.itemQuantity.value > 0)
          && if t.subject.itemQuantity.None? && t.destination.Player? then StaysItem(t.subject.id, obs)
             else IsCanonical(ItemIdArg, t.subject.id, obs))
  }

  lemma GiftIsKept(id: string, span: Span, obs: Observation)
    ensures var r := TransferItemId(id, true, span, obs);
            r.errors == [] && r.value.GetOr(id) == id && !(r.value.Some? && id in obs.ownedShipIds)
            <==> StaysItem(id, obs)
  {}

  lemma ItemIsKept(id: string, span: Span, obs: Observation)
    ensures var r := TransferItemId(id, false, span, obs);
            r.errors == [] && r.value.GetOr(id) == id <==> IsCanonical(ItemIdArg, id, obs)
  {}

  lemma SubjectIsKept(t: T.Transfer, span: Span, obs: Observation)
    requires !t.subject.Items?
    requires MayMove(TC.NodeSubjectFor(t.subject), t.source, t.destination)
    ensures var s := TC.NodeSubjectFor(t.subject);
            AnalyzeSubject(s, t.destination, span, obs) == Outcome(s, []) <==> IsAdmissible(t, obs)
  {
    if t.subject.Item? {
      GiftIsKept(t.subject.id, span, obs);
      ItemIsKept(t.subject.id, span, obs);
    }
  }

  lemma AdmissibleIsUnchanged(t: T.Transfer, span: Span, obs: Observation)
    requires !t.subject.Items?
    ensures AnalyzeTransfer(TC.NodeFor(t), span, obs) == Outcome(TC.NodeFor(t), []) <==> IsAdmissible(t, obs)
  {
    var node := TC.NodeFor(t);
    assert TC.DefaultEnds(node) == (t.source, t.destination);
    assert AnalyzeItems(node.items, span, obs) == Outcome([], []);
    var subject := AnalyzeSubject(node.subject, t.destination, span, obs);
    AllowedExactly(node, t.source, t.destination, span);
    if MayMove(node.subject, t.source, t.destination) {
      SubjectIsKept(t, span, obs);
      if subject == Outcome(node.subject, []) { assert node == node.(subject := subject.value); }
    }
  }

  /** Lowering forgets nothing about a flat statement with both ends written. */
  lemma LoweringIsInjective(node: TC.Node, t: T.Transfer)
    requires node.items == [] && node.source.Some? && node.destination.Some? && !t.subject.Items?
    ensures TC.Lower(node) == Ok(t) ==> node == TC.NodeFor(t)
  {}

  lemma TransferMeans(t: T.Transfer, span: Span, obs: Observation)
    requires !t.subject.Items? && TC.Lower(TC.NodeFor(t)) == Ok(t)
    ensures MeaningOf(TransferStatement(TC.NodeFor(t), span), obs) == Some(TransferAction(t))
            <==> IsAdmissible(t, obs)
  {
    var analyzed := AnalyzeTransfer(TC.NodeFor(t), span, obs);
    assert analyzed.value.items == [];
    AdmissibleIsUnchanged(t, span, obs);
    LoweringIsInjective(analyzed.value, t);
  }

  /** A well-formed flat transfer means itself exactly when analysis admits it as it stands. */
  lemma TransferMeansItself(t: T.Transfer, known: Spellings, span: Span, obs: Observation)
    requires TC.WellFormedTransfer(t) && TC.NamesArePrintable(t)
    ensures ActionOf(TC.RenderTransfer(t), known, span, obs) == Some(TransferAction(t)) <==> IsAdmissible(t, obs)
  {
    var command, st := Command("transfer", TC.TransferTokens(t)), TransferStatement(TC.NodeFor(t), span);
    TC.TransferTextRoundTrip(t);
    assert StatementOf(command, known, span) == Ok(st);
    CommandParses(TC.RenderTransfer(t), command, st, known, span);
    TransferMeans(t, span, obs);
  }

  function RenderSay(said: Speech): string {
    "say " + Arg(said.content) + " to " + Arg(said.channel)
    + (if said.target.Some? then " " + Arg(said.target.value) else "") + ";"
  }

  /** Content, channel and target can each be printed as one argument. */
  predicate IsPrintableSpeech(said: Speech) {
    IsPrintable(said.content) && IsPrintable(said.channel) && (said.target.Some? ==> IsPrintable(said.target.value))
  }

  /** A channel that exists, with a target exactly when it is the private one. */
  predicate IsAddressed(said: Speech) {
    IsChannel(said.channel) && (said.target.Some? <==> said.channel == "private")
  }

  /** An argument after one space is read back exactly when it is printable. */
  lemma NextArgRoundTrip(s: string, rest: string)
    requires rest != "" && !IsTail(rest[0])
    ensures IsPrintable(s) ==> NextArg(" " + (Arg(s) + rest)) == Some((s, rest))
    ensures !IsPrintable(s) ==>
              (NextArg(" " + (Arg(s) + rest)).None? || NextArg(" " + (Arg(s) + rest)).value.0 != s)
  {
    var text := " " + (Arg(s) + rest);
    ArgStartsToken(s);
    assert text[1..] == Arg(s) + rest;
    assert SkipGaps(text) == Arg(s) + rest;
    TokenRoundTrip(s, rest);
  }

  /** A target if there is one, and the semicolon. */
  function TargetText(target: Option<string>): (text: string)
    ensures text != "" && !IsTail(text[0])
  {
    if target.Some? then " " + (Arg(target.value) + ";") else ";"
  }

  function AudienceText(channel: string, target: Option<string>): string {
    " " + (Arg(channel) + TargetText(target))
  }

  lemma TargetRoundTrip(target: Option<string>)
    ensures var next := NextArg(TargetText(target));
            if target.None? then next.None? && AfterSemicolon(TargetText(target)) == Some("")
            else if IsPrintable(target.value) then next == Some((target.value, ";"))
            else next.None? || next.value.0 != target.value
    ensures AfterSemicolon(";") == Some("")
  {
    assert SkipGaps(";") == ";";
    assert ";"[1..] == "";
    if target.Some? { NextArgRoundTrip(target.value, ";"); }
  }

  lemma AudienceRoundTrip(channel: string, target: Option<string>)
    ensures IsPrintable(channel) && (target.Some? ==> IsPrintable(target.value))
            <==> LexAudience(AudienceText(channel, target)) == Some(((channel, target), ""))
  {
    TargetRoundTrip(target);
    NextArgRoundTrip(channel, TargetText(target));
  }

  lemma ToRoundTrip(rest: string)
    ensures AfterTo(" to" + rest) == Some(rest)
  {
    var text := " to" + rest;
    assert text[1..] == "to" + rest;
    assert SkipGaps("to" + rest) == "to" + rest;
    assert ("to" + rest)[..2] == "to" && ("to" + rest)[2..] == rest;
  }

  lemma RenderSayParts(said: Speech)
    ensures RenderSay(said)
            == "say" + (" " + (Arg(said.content) + (" to" + AudienceText(said.channel, said.target))))
  {
    RegroupSpeech(Arg(said.content), Arg(said.channel), TargetText(said.target));
    if said.target.Some? { assert " " + (Arg(said.target.value) + ";") == " " + Arg(said.target.value) + ";"; }
  }

  lemma RegroupSpeech(content: string, channel: string, end: string)
    ensures "say " + content + " to " + channel + end == "say" + (" " + (content + (" to" + (" " + (channel + end)))))
  {}

  lemma LexSayTakes(rest: string)
    ensures LexSay("say" + rest) == match NextArg(rest) {
                                      case None => None
                                      case Some((content, more)) => LexSpoken(content, more)
                                    }
  {
    assert ("say" + rest)[..3] == "say" && ("say" + rest)[3..] == rest;
  }

  /** Speech is read back from its text exactly when every part of it is printable. */
  lemma SpeechRoundTrip(said: Speech)
    ensures LexSay(RenderSay(said)) == Some((said, "")) <==> IsPrintableSpeech(said)
  {
    var audience := AudienceText(said.channel, said.target);
    var more := " to" + audience;
    RenderSayParts(said);
    LexSayTakes(" " + (Arg(said.content) + more));
    NextArgRoundTrip(said.content, more);
    ToRoundTrip(audience);
    AudienceRoundTrip(said.channel, said.target);
  }

  lemma SpeechMeans(said: Speech, span: Span, obs: Observation)
    ensures MeaningOf(SayStatement(said.content, said.channel, said.target, span), obs)
            == if IsAddressed(said) then Some(SayAction(said.content, said.channel, said.target)) else None
  {}

  lemma OnlySaySays(name: Name, args: seq<string>, span: Span, obs: Observation)
    requires MeaningOf(CommandStatement(name, args, span), obs).Some?
    requires MeaningOf(CommandStatement(name, args, span), obs).value.SayAction?
    ensures name == Known(Say)
  {}

  lemma CommandMeaningIs(name: CommandName, args: seq<string>, span: Span, obs: Observation)
    ensures MeaningOf(CommandStatement(Known(name), args, span), obs)
            == var analyzed := AnalyzeArgs(args, 0, Spec(name), span, obs);
               var lowered := LowerCommand(Known(name), analyzed.value);
               if analyzed.errors == [] && lowered.Ok? then Some(ActionFor(name, lowered.value)) else None
  {}

  lemma SayFieldsMean(content: string, channel: string, target: Option<string>)
    ensures ActionFor(Say, [Text(content), Text(channel), MaybeText(target)]) == SayAction(content, channel, target)
  {}

  lemma SayCommandMeans(args: seq<string>, span: Span, obs: Observation)
    requires MeaningOf(CommandStatement(Known(Say), args, span), obs).Some?
    ensures |args| >= 2
    ensures MeaningOf(CommandStatement(Known(Say), args, span), obs)
            == Some(SayAction(args[0], args[1], ArgAt(args, 2)))
  {
    CommandMeaningIs(Say, args, span, obs);
    SaidWordsAreKept(args, span, obs);
    SayTakes(args);
    if |args| >= 2 { SayFieldsMean(args[0], args[1], ArgAt(args, 2)); }
  }

  lemma SaidWordsAreKept(args: seq<string>, span: Span, obs: Observation)
    ensures AnalyzeArgs(args, 0, Spec(Say), span, obs).value == args
  {
    SayTakesAnything();
    AnyArgsAreKept(args, 0, Spec(Say), span, obs);
    assert args[0..] == args;
  }

  lemma SayTakesAnything()
    ensures forall k: nat :: KindAt(Spec(Say), k) == AnyArg
  {
    assert Spec(Say) == [Must(AnyArg), Must(AnyArg), May(AnyArg)];
    forall k: nat ensures KindAt(Spec(Say), k) == AnyArg {}
  }

  lemma SayIsCommand(c: Command, known: Spellings, span: Span)
    requires c.name == "say"
    ensures StatementOf(c, known, span) == Ok(CommandStatement(NameOf(c.name, known), c.args, span))
  {}

  /** What the common shape of commands makes of the word `say`: its first arguments, whatever they are. */
  lemma SaidAsCommand(c: Command, known: Spellings, span: Span, obs: Observation, said: Speech)
    requires c.name == "say"
    requires StatementOf(c, known, span).Ok?
    requires MeaningOf(StatementOf(c, known, span).value, obs)
             == Some(SayAction(said.content, said.channel, said.target))
    ensures |c.args| >= 2 && said == Speech(c.args[0], c.args[1], ArgAt(c.args, 2))
  {
    SayIsCommand(c, known, span);
    OnlySaySays(NameOf(c.name, known), c.args, span, obs);
    SayCommandMeans(c.args, span, obs);
  }

  lemma ThreeAreTaken(needs: seq<Need>, args: seq<string>)
    requires needs == Needs(TakeTwoTextsMaybeText) && |args| >= 2
    ensures TakeAll(needs, args) == Ok([Text(args[0]), Text(args[1]), MaybeText(ArgAt(args, 2))])
  {
    assert needs == [needs[0], needs[1], needs[2]];
    TakeThree(needs[0], needs[1], needs[2], args);
  }

  lemma SayTakes(args: seq<string>)
    ensures LowerCommand(Known(Say), args)
            == if |args| < 2 then Err(InvalidArguments)
               else Ok([Text(args[0]), Text(args[1]), MaybeText(ArgAt(args, 2))])
  {
    LoweredByTaking(Say, TakeTwoTextsMaybeText, args);
    if |args| >= 2 {
      ThreeAreTaken(Needs(TakeTwoTextsMaybeText), args);
    } else {
      TwoAreNeeded(Needs(TakeTwoTextsMaybeText), args);
    }
  }

  lemma TwoAreNeeded(needs: seq<Need>, args: seq<string>)
    requires needs == Needs(TakeTwoTextsMaybeText) && |args| < 2
    ensures TakeAll(needs, args) == Err(InvalidArguments)
  {
    TakeOneMore(needs[0], needs[1..], args);
    TakeOneMore(needs[1], needs[2..], args);
    assert needs == [needs[0]] + needs[1..] && needs[1..] == [needs[1]] + needs[2..];
  }

  /** The tokens of a content and what follows it. */
  lemma WordsAfterContent(content: string, audience: string)
    requires audience != "" && !IsTail(audience[0])
    ensures var words := LexTokens(" " + (Arg(content) + (" to" + audience))).0;
            && (!IsPrintable(content) ==> words == [] || words[0] != content)
            && (IsPrintable(content) ==> words == [content, "to"] + LexTokens(audience).0)
  {
    var more := " to" + audience;
    ContentThenMore(content, more);
    ToIsWord(audience);
    assert [content] + (["to"] + LexTokens(audience).0) == [content, "to"] + LexTokens(audience).0;
  }

  lemma ContentThenMore(content: string, more: string)
    requires more != "" && !IsTail(more[0])
    ensures var words := LexTokens(" " + (Arg(content) + more)).0;
            && (!IsPrintable(content) ==> words == [] || words[0] != content)
            && (IsPrintable(content) ==> words == [content] + LexTokens(more).0)
  {
    assert " " + (Arg(content) + more) == " " + Arg(content) + more;
    OneTokenRoundTrip(content, more);
  }

  lemma ChannelIsWord(channel: string, target: Option<string>)
    ensures IsPrintable(channel) ==>
              LexTokens(AudienceText(channel, target)).0 == [channel] + LexTokens(TargetText(target)).0
  {
    var end := TargetText(target);
    assert AudienceText(channel, target) == " " + Arg(channel) + end;
    OneTokenRoundTrip(channel, end);
  }

  /** The first words of a spoken text, read as a command's arguments. */
  lemma WordsOfSpeech(said: Speech)
    ensures LexCommand(RenderSay(said)).Some? ==>
              var c := LexCommand(RenderSay(said)).value.0;
              && c.name == "say"
              && (!IsPrintable(said.content) ==> c.args == [] || c.args[0] != said.content)
              && (IsPrintable(said.content) ==> |c.args| >= 2 && c.args[1] == "to")
              && (IsPrintable(said.content) && IsPrintable(said.channel) ==> |c.args| >= 3 && c.args[2] == said.channel)
  {
    var audience := AudienceText(said.channel, said.target);
    RenderSayParts(said);
    SayIsName(" " + (Arg(said.content) + (" to" + audience)));
    WordsAfterContent(said.content, audience);
    ChannelIsWord(said.channel, said.target);
  }

  lemma SayIsName(tail: string)
    requires tail != "" && !IsTail(tail[0])
    ensures LexCommand("say" + tail).Some? ==>
              LexCommand("say" + tail).value.0 == Command("say", LexTokens(tail).0)
  {
    SayIsIdent();
    IdentRoundTrip("say", tail);
    assert ("say" + tail)[..3] == "say" && ("say" + tail)[3..] == tail;
  }

  lemma SayIsIdent()
    ensures IsIdent("say")
  {
    assert "say"[1..] == "ay";
  }

  lemma ToIsWord(more: string)
    requires more != "" && !IsTail(more[0])
    ensures LexTokens(" to" + more).0 == ["to"] + LexTokens(more).0
  {
    PlainIsBare("to");
    assert " to" + more == " " + Arg("to") + more;
    OneTokenRoundTrip("to", more);
  }

  /** What is said means itself exactly when it is printable and addressed to a channel in the way that channel asks. */
  lemma SayMeansItself(said: Speech, known: Spellings, span: Span, obs: Observation)
    ensures ActionOf(RenderSay(said), known, span, obs) == Some(SayAction(said.content, said.channel, said.target))
            <==> IsPrintableSpeech(said) && IsAddressed(said)
  {
    SpeechRoundTrip(said);
    match LexSay(RenderSay(said))
    case Some((heard, rest)) => SpeechMeans(heard, span, obs);
    case None => UnheardIsNotMeant(said, known, span, obs);
  }

  lemma ToIsPrintable()
    ensures IsPrintable("to")
  {
    PlainIsBare("to");
  }

  /** Words read as a command are the spoken ones only where speech was read as well. */
  lemma UnheardWordsDiffer(said: Speech, c: Command)
    requires LexSay(RenderSay(said)).None? && LexCommand(RenderSay(said)).Some?
    requires c == LexCommand(RenderSay(said)).value.0
    ensures c.name == "say"
    ensures |c.args| >= 2 ==> said != Speech(c.args[0], c.args[1], ArgAt(c.args, 2))
  {
    SpeechRoundTrip(said);
    WordsOfSpeech(said);
    ToIsPrintable();
  }

  lemma UnheardIsNotMeant(said: Speech, known: Spellings, span: Span, obs: Observation)
    requires LexSay(RenderSay(said)).None?
    ensures ActionOf(RenderSay(said), known, span, obs) != Some(SayAction(said.content, said.channel, said.target))
  {
    if LexCommand(RenderSay(said)).Some? {
      var c := LexCommand(RenderSay(said)).value.0;
      UnheardWordsDiffer(said, c);
      if StatementOf(c, known, span).Ok? { WordsDecideWhatIsSaid(c, known, span, obs, said); }
    }
  }

  lemma WordsDecideWhatIsSaid(c: Command, known: Spellings, span: Span, obs: Observation, said: Speech)
    requires c.name == "say" && StatementOf(c, known, span).Ok?
    requires |c.args| >= 2 ==> said != Speech(c.args[0], c.args[1], ArgAt(c.args, 2))
    ensures MeaningOf(StatementOf(c, known, span).value, obs)
            != Some(SayAction(said.content, said.channel, said.target))
  {
    if MeaningOf(StatementOf(c, known, span).value, obs) == Some(SayAction(said.content, said.channel, said.target)) {
      SaidAsCommand(c, known, span, obs, said);
    }
  }

  lemma TradeOfferIsCommand(o: Trade.TradeOffer, known: Spellings, span: Span)
    requires "trade_offer" in known && known["trade_offer"] == TradeOffer
    ensures StatementOf(Command("trade_offer", Trade.OfferTokens(o)), known, span)
            == Ok(CommandStatement(Known(TradeOffer), Trade.OfferTokens(o), span))
  {
    assert AsciiLower("trade_offer") == "trade_offer";
  }

  lemma TradeOfferIsUnchanged(args: seq<string>, span: Span, obs: Observation)
    ensures var st := CommandStatement(Known(TradeOffer), args, span); AnalyzeStatement(st, obs) == Outcome(st, [])
  {
    LateArgsAreKept(TradeOffer, args, span, obs);
    forall k: nat ensures KindAt(Spec(TradeOffer), k) == AnyArg { LateShapesTakeAnything(TradeOffer, k); }
    AnyArgsRaiseNoErrors(args, 0, Spec(TradeOffer), span, obs);
  }

  lemma TradeOfferCompiles(args: seq<string>, span: Span)
    requires Trade.OfferOf(args).Ok?
    ensures CompileStatement(CommandStatement(Known(TradeOffer), args, span))
            == Ok(CommandAction(TradeOffer, [Offer(Trade.OfferOf(args).value)]))
  {
    TradeTakes(args);
    OfferIsOnlyCommand([Offer(Trade.OfferOf(args).value)]);
  }

  lemma OfferIsOnlyCommand(fields: seq<Field>)
    ensures ActionFor(TradeOffer, fields) == CommandAction(TradeOffer, fields)
  {}

  /** Every trade offer that offers or asks for something means itself. */
  lemma TradeOfferMeansItself(o: Trade.TradeOffer, known: Spellings, span: Span, obs: Observation)
    requires "trade_offer" in known && known["trade_offer"] == TradeOffer
    requires !Trade.IsEmptyOffer(o) && Trade.NamesArePrintable(o)
    ensures ActionOf(Lexing.Statement("trade_offer", Trade.OfferTokens(o)), known, span, obs)
            == Some(CommandAction(TradeOffer, [Offer(o)]))
  {
    var args := Trade.OfferTokens(o);
    Trade.TradeOfferTextRoundTrip(o);
    TradeOfferIsCommand(o, known, span);
    TradeOfferIsUnchanged(args, span, obs);
    TradeOfferCompiles(args, span);
    ActionFollows(Lexing.Statement("trade_offer", args), Command("trade_offer", args),
                  CommandStatement(Known(TradeOffer), args, span), CommandAction(TradeOffer, [Offer(o)]),
                  known, span, obs);
  }

  lemma {:induction false} AnyArgsRaiseNoErrors(args: seq<string>, i: nat, spec: seq<ArgSpec>, span: Span,
                                                obs: Observation)
    requires i <= |args| && forall k: nat :: KindAt(spec, k) == AnyArg
    ensures AnalyzeArgs(args, i, spec, span, obs).errors == []
    decreases |args| - i
  {
    if i < |args| {
      AnyArgsRaiseNoErrors(args, i + 1, spec, span, obs);
    }
  }

  lemma {:induction false} FlattenedLength(ts: seq<Trade.Term>)
    ensures |Trade.Flatten(ts)| == 3 * |ts|
    decreases |ts|
  {
    if ts != [] { FlattenedLength(ts[1..]); }
  }

  lemma {:induction false} NoneIsRequired(spec: seq<ArgSpec>)
    requires forall i | 0 <= i < |spec| :: !spec[i].required
    ensures RequiredCount(spec) == 0
    decreases |spec|
  {
    if spec != [] { NoneIsRequired(spec[1..]); }
  }

  lemma TradeOfferAsksForOne()
    ensures RequiredCount(Spec(TradeOffer)) == 1 && |Spec(TradeOffer)| == 21 && !IsVariadic(Spec(TradeOffer))
  {
    var spec := Spec(TradeOffer);
    assert spec[0].required && forall i | 0 < i < |spec| :: spec[i] == May(AnyArg);
    NoneIsRequired(spec[1..]);
  }

  lemma TextsAreAccepted(args: seq<string>, spec: seq<ArgSpec>)
    requires !IsVariadic(spec) && forall k | 0 <= k < |args| :: KindAt(spec, k) == AnyArg
    ensures IsAccepted(args, spec) <==> RequiredCount(spec) <= |args| <= |spec|
  {
    forall i | 0 <= i < |args| ensures IsNumberWhereAsked(args, spec, i) {}
  }

  /**
   * The catalog counts the words of a trade offer: its own printed form passes validation exactly up to six terms,
   * although lowering accepts any number of them.
   */
  lemma TradeOfferValidatesUpToSixTerms(o: Trade.TradeOffer)
    ensures Complaints(Trade.OfferTokens(o), Spec(TradeOffer)) == [] <==> |Trade.TermList(o)| <= 6
  {
    var args := Trade.OfferTokens(o);
    FlattenedLength(Trade.TermList(o));
    AcceptedMeansNoComplaint(args, Spec(TradeOffer));
    TradeOfferAsksForOne();
    forall k | 0 <= k < |args| ensures KindAt(Spec(TradeOffer), k) == AnyArg { LateShapesTakeAnything(TradeOffer, k); }
    TextsAreAccepted(args, Spec(TradeOffer));
  }
}
