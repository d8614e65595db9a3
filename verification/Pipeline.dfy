/**
 * From parsed statements to plan nodes: validation against the catalog, analysis against what is known of the world,
 * and compilation, with the guarantee that the first two give the third.
 */
module Pipeline {
  import opened Prelude
  import opened TextTools
  import opened Decimal
  import opened Resolution
  import opened Commands
  import BS = BuySell
  import C = Crafting
  import T = Transfers
  import TC = TransferClauses
  import Trade = TradeOffers

  datatype Span = Span(start: nat, end: nat)

  datatype Statement =
    | CommandStatement(name: Name, args: seq<string>, span: Span)
    | TransferStatement(transfer: TC.Node, span: Span)
    | CraftStatement(craft: C.Craft, span: Span)
    | RecycleStatement(recycle: C.Craft, span: Span)
    | SayStatement(content: string, channel: string, target: Option<string>, span: Span)
    | BuyStatement(buy: BS.Buy, span: Span)
    | SellStatement(sell: BS.Sell, span: Span)
    | CommissionStatement(shipClass: string, provideMaterials: bool, span: Span)

  // ---- validation ----

  datatype Diagnostic = UnknownCommand(span: Span) | BadArguments(complaint: Complaint, span: Span)

  function Tagged(complaints: seq<Complaint>, span: Span): (r: seq<Diagnostic>)
    ensures |r| == |complaints|
  {
    seq(|complaints|, i requires 0 <= i < |complaints| => BadArguments(complaints[i], span))
  }

  function StatementDiagnostics(st: Statement): seq<Diagnostic> {
    if !st.CommandStatement? then []
    else if st.name.Unlisted? || !IsCatalogued(st.name.command) then [UnknownCommand(st.span)]
    else Tagged(Complaints(st.args, Spec(st.name.command)), st.span)
  }

  /** Lists one after another. */
  function Concat<T>(parts: seq<seq<T>>): seq<T> {
    if parts == [] then [] else Concat(parts[..|parts| - 1]) + parts[|parts| - 1]
  }

  lemma {:induction false} EmptyConcat<T>(parts: seq<seq<T>>, k: nat)
    requires k < |parts| && Concat(parts) == []
    ensures parts[k] == []
    decreases |parts|
  {
    var front, last := parts[..|parts| - 1], parts[|parts| - 1];
    assert |Concat(front) + last| == |Concat(front)| + |last|;
    if k < |front| { EmptyConcat(front, k); }
  }

  lemma ConcatOneMore<T>(parts: seq<seq<T>>, i: nat)
    requires i < |parts|
    ensures Concat(parts[..i + 1]) == Concat(parts[..i]) + parts[i]
  {
    assert parts[..i + 1][..i] == parts[..i];
  }

  /** The diagnostics of each statement. */
  function Findings(program: seq<Statement>): (r: seq<seq<Diagnostic>>)
    ensures |r| == |program|
  {
    seq(|program|, i requires 0 <= i < |program| => StatementDiagnostics(program[i]))
  }

  function Diagnostics(program: seq<Statement>): seq<Diagnostic> {
    Concat(Findings(program))
  }

  method ValidateStatement(st: Statement) returns (out: seq<Diagnostic>)
    ensures out == StatementDiagnostics(st)
  {
    if !st.CommandStatement? { return []; }
    if st.name.Unlisted? || !IsCatalogued(st.name.command) { return [UnknownCommand(st.span)]; }
    var complaints := ValidateCommandArgs(st.args, Spec(st.name.command));
    out := Tagged(complaints, st.span);
  }

  method Validate(program: seq<Statement>) returns (out: seq<Diagnostic>)
    ensures out == Diagnostics(program)
  {
    out := [];
    ghost var findings := Findings(program);
    for i := 0 to |program|
      invariant out == Concat(findings[..i])
    {
      var found := ValidateStatement(program[i]);
      ConcatOneMore(findings, i);
      out := out + found;
    }
    assert findings[..|program|] == findings;
  }

  // ---- analysis ----

  datatype Problem =
    | NotInteger
    | UnknownIdentifier
    | NotPositive
    | SameEndpoints
    | CreditsRoute
    | ShipRoute
    | ModuleRoute
    | CommissionRoute
    | BlockSubject
    | BlockSource
    | BlockDestination
    | SpaceSource
    | SpaceDestination
    | UnknownChannel
    | PrivateNeedsTarget
    | TargetNeedsPrivate

  datatype AnalyzerError = AnalyzerError(index: nat, value: string, suggestion: Option<string>, span: Span,
                                         problem: Problem)

  /** A resolved value and what was reported on the way. */
  datatype Outcome<T> = Outcome(value: T, errors: seq<AnalyzerError>)

  function AnalyzeArg(arg: string, i: nat, kind: ArgType, span: Span, obs: Observation): Outcome<string> {
    if kind == IntegerArg then
      match ParseI64(arg)
      case Some(n) => Outcome(ShowInt(n), [])
      case None => Outcome(arg, [AnalyzerError(i, arg, None, span, NotInteger)])
    else ResolveOrReport(arg, i, kind, span, obs)
  }

  function ResolveOrReport(arg: string, i: nat, kind: ArgType, span: Span, obs: Observation): Outcome<string> {
    match Resolve(kind, arg, obs)
    case NotChecked => Outcome(arg, [])
    case Found(id) => Outcome(id, [])
    case Unknown(suggestion) => Outcome(arg, [AnalyzerError(i, arg, Some(suggestion), span, UnknownIdentifier)])
  }

  /** Without a specification every argument may be anything. */
  function SpecOf(name: Name): seq<ArgSpec> {
    if name.Known? then Spec(name.command) else []
  }

  function AnalyzeArgs(args: seq<string>, i: nat, spec: seq<ArgSpec>, span: Span,
                       obs: Observation): (r: Outcome<seq<string>>)
    requires i <= |args|
    ensures |r.value| == |args| - i
    decreases |args| - i
  {
    if i == |args| then Outcome([], [])
    else
      var first := AnalyzeArg(args[i], i, KindAt(spec, i), span, obs);
      var rest := AnalyzeArgs(args, i + 1, spec, span, obs);
      Outcome([first.value] + rest.value, first.errors + rest.errors)
  }

  /** An item, or a ship when it is given to a player without a quantity. */
  function TransferItemId(id: string, mayBeShip: bool, span: Span, obs: Observation): Outcome<Option<string>> {
    match Resolve(ItemIdArg, id, obs)
    case Found(item) => Outcome(Some(item), [])
    case Unknown(suggestion) =>
      if mayBeShip && Resolve(ShipIdArg, id, obs).Found? then Outcome(Some(Resolve(ShipIdArg, id, obs).id), [])
      else Outcome(None, [AnalyzerError(0, id, Some(suggestion), span, UnknownIdentifier)])
    case NotChecked =>
      if !mayBeShip then Outcome(None, [])
      else
        match Resolve(ShipIdArg, id, obs)
        case Found(ship) => Outcome(Some(ship), [])
        case Unknown(suggestion) => Outcome(None, [AnalyzerError(0, id, Some(suggestion), span, UnknownIdentifier)])
        case NotChecked => Outcome(None, [])
  }

  function Report(when: bool, span: Span, problem: Problem): seq<AnalyzerError> {
    if when then [AnalyzerError(0, "transfer", None, span, problem)] else []
  }

  function AnalyzeSubject(subject: TC.NodeSubject, to: T.Endpoint, span: Span,
                          obs: Observation): Outcome<TC.NodeSubject> {
    match subject
    case Credits(n) => Outcome(subject, Report(n <= 0, span, NotPositive))
    case Item(id, quantity) =>
      var mayBeShip := quantity.None? && to.Player?;
      var resolved := TransferItemId(id, mayBeShip, span, obs);
      var name := resolved.value.GetOr(id);
      var isShip := mayBeShip && resolved.value.Some? && name in obs.ownedShipIds;
      Outcome(if isShip then TC.ShipSubject(name) else TC.Item(name, quantity),
              Report(quantity.Some? && quantity.value <= 0, span, NotPositive) + resolved.errors)
    case _ => Outcome(subject, [])
  }

  function AnalyzeItems(items: seq<TC.NodeItem>, span: Span, obs: Observation): (r: Outcome<seq<TC.NodeItem>>)
    ensures |r.value| == |items|
  {
    if items == [] then Outcome([], [])
    else
      var resolved := TransferItemId(items[0].id, false, span, obs);
      var rest := AnalyzeItems(items[1..], span, obs);
      Outcome([TC.NodeItem(resolved.value.GetOr(items[0].id), items[0].quantity)] + rest.value,
              Report(items[0].quantity <= 0, span, NotPositive) + resolved.errors + rest.errors)
  }

  predicate CreditsMayNotTouch(e: T.Endpoint) {
    e.Storage? || e.Space?
  }

  /** Which subjects may move between which endpoints. */
  function SubjectErrors(subject: TC.NodeSubject, from: T.Endpoint, to: T.Endpoint, span: Span): seq<AnalyzerError> {
    (if subject.Credits?
     then Report(CreditsMayNotTouch(from), span, CreditsRoute) + Report(CreditsMayNotTouch(to), span, CreditsRoute)
     else [])
    + Report(subject.ShipSubject? && !((from.Cargo? || from.Storage?) && (to.Player? || to.Faction?)), span, ShipRoute)
    + Report(subject.ModuleSubject? && !(from.Space? && from.wreck.Some? && to.Cargo?), span, ModuleRoute)
    + Report(to.Commission? && (!from.Cargo? || !(subject.Item? && subject.itemQuantity.Some?)), span, CommissionRoute)
  }

  function BlockErrors(node: TC.Node, from: T.Endpoint, to: T.Endpoint, span: Span): seq<AnalyzerError> {
    Report(node.items != [] && !node.subject.AllCargo?, span, BlockSubject)
    + Report(node.items != [] && !from.Cargo?, span, BlockSource)
    + Report(node.items != [] && to.Cargo?, span, BlockDestination)
  }

  function SpaceErrors(from: T.Endpoint, to: T.Endpoint, span: Span): seq<AnalyzerError> {
    Report(from.Space? && !to.Cargo?, span, SpaceSource) + Report(to.Space? && !from.Cargo?, span, SpaceDestination)
  }

  function PairErrors(node: TC.Node, from: T.Endpoint, to: T.Endpoint, span: Span): seq<AnalyzerError> {
    Report(from == to, span, SameEndpoints) + SubjectErrors(node.subject, from, to, span)
    + BlockErrors(node, from, to, span) + SpaceErrors(from, to, span)
  }

  /** Where each kind of subject may be moved from and to. */
  predicate MayMove(subject: TC.NodeSubject, from: T.Endpoint, to: T.Endpoint) {
    && from != to
    && match subject
       case Credits(_) => !from.Storage? && !from.Space? && !to.Storage? && !to.Space? && !to.Commission?
       case ShipSubject(_) => (from.Cargo? || from.Storage?) && (to.Player? || to.Faction?)
       case ModuleSubject(_) => from.Space? && from.wreck.Some? && to.Cargo?
       case Item(_, quantity) =>
         (from.Space? ==> to.Cargo?) && (to.Space? ==> from.Cargo?) && (to.Commission? ==> from.Cargo? && quantity.Some?)
       case AllCargo => (from.Space? ==> to.Cargo?) && (to.Space? ==> from.Cargo?) && !to.Commission?
  }

  lemma AllEmpty(a: seq<AnalyzerError>, b: seq<AnalyzerError>, c: seq<AnalyzerError>, d: seq<AnalyzerError>)
    ensures a + b + c + d == [] <==> a == [] && b == [] && c == [] && d == []
  {
    assert |a + b + c + d| == |a| + |b| + |c| + |d|;
  }

  lemma SubjectAllowed(subject: TC.NodeSubject, from: T.Endpoint, to: T.Endpoint, span: Span)
    ensures SubjectErrors(subject, from, to, span) == []
            <==> (&& (subject.Credits? ==> !from.Storage? && !from.Space? && !to.Storage? && !to.Space?)
                  && (subject.ShipSubject? ==> (from.Cargo? || from.Storage?) && (to.Player? || to.Faction?))
                  && (subject.ModuleSubject? ==> from.Space? && from.wreck.Some? && to.Cargo?)
                  && (to.Commission? ==> from.Cargo? && subject.Item? && subject.itemQuantity.Some?))
  {
    var a, b := Report(CreditsMayNotTouch(from), span, CreditsRoute), Report(CreditsMayNotTouch(to), span, CreditsRoute);
    assert |a + b| == |a| + |b|;
    AllEmpty(if subject.Credits? then a + b else [],
             Report(subject.ShipSubject? && !((from.Cargo? || from.Storage?) && (to.Player? || to.Faction?)), span,
                    ShipRoute),
             Report(subject.ModuleSubject? && !(from.Space? && from.wreck.Some? && to.Cargo?), span, ModuleRoute),
             Report(to.Commission? && (!from.Cargo? || !(subject.Item? && subject.itemQuantity.Some?)), span,
                    CommissionRoute));
  }

  lemma BlockAllowed(node: TC.Node, from: T.Endpoint, to: T.Endpoint, span: Span)
    ensures BlockErrors(node, from, to, span) == []
            <==> (node.items != [] ==> node.subject.AllCargo? && from.Cargo? && !to.Cargo?)
  {
    var a := Report(node.items != [] && !node.subject.AllCargo?, span, BlockSubject);
    var b := Report(node.items != [] && !from.Cargo?, span, BlockSource);
    var c := Report(node.items != [] && to.Cargo?, span, BlockDestination);
    assert |a + b + c| == |a| + |b| + |c|;
  }

  lemma SpaceAllowed(from: T.Endpoint, to: T.Endpoint, span: Span)
    ensures SpaceErrors(from, to, span) == [] <==> (from.Space? ==> to.Cargo?) && (to.Space? ==> from.Cargo?)
  {
    var a := Report(from.Space? && !to.Cargo?, span, SpaceSource);
    var b := Report(to.Space? && !from.Cargo?, span, SpaceDestination);
    assert |a + b| == |a| + |b|;
  }

  /**
   * A name given to a player without a quantity is a ship of the bot's when that is what it resolves to and no item is
   * called so; with a quantity, or to anyone but a player, it never is.
   */
  lemma ShipIsGivenExactlyWhen(id: string, quantity: Option<int>, to: T.Endpoint, span: Span, obs: Observation)
    ensures AnalyzeSubject(TC.Item(id, quantity), to, span, obs).value.ShipSubject?
            <==> (&& quantity.None? && to.Player?
                  && var item, ship := Resolve(ItemIdArg, id, obs), Resolve(ShipIdArg, id, obs);
                     if item.Found? then item.id in obs.ownedShipIds else ship.Found? && ship.id in obs.ownedShipIds)
    ensures AnalyzeSubject(TC.Item(id, quantity), to, span, obs).value.ShipSubject? ==>
              && AnalyzeSubject(TC.Item(id, quantity), to, span, obs).value.ship in obs.ownedShipIds
              && AnalyzeSubject(TC.Item(id, quantity), to, span, obs).errors == []
  {}

  /** No complaint about the ends exactly for the moves allowed; a block moves out of cargo and needs no subject. */
  lemma AllowedExactly(node: TC.Node, from: T.Endpoint, to: T.Endpoint, span: Span)
    ensures PairErrors(node, from, to, span) == []
            <==> if node.items == [] then MayMove(node.subject, from, to)
                 else node.subject.AllCargo? && from.Cargo? && !to.Cargo? && !to.Commission?
  {
    SubjectAllowed(node.subject, from, to, span);
    BlockAllowed(node, from, to, span);
    SpaceAllowed(from, to, span);
    AllEmpty(Report(from == to, span, SameEndpoints), SubjectErrors(node.subject, from, to, span),
             BlockErrors(node, from, to, span), SpaceErrors(from, to, span));
  }

  /** Names resolved and endpoints filled in. */
  function AnalyzeTransfer(node: TC.Node, span: Span, obs: Observation): (r: Outcome<TC.Node>)
    ensures r.value.source.Some? && r.value.destination.Some?
  {
    var (from, to) := TC.DefaultEnds(node);
    var items := AnalyzeItems(node.items, span, obs);
    var subject := AnalyzeSubject(node.subject, to, span, obs);
    var analyzed := TC.Node(subject.value, items.value, Some(from), Some(to));
    Outcome(analyzed, items.errors + subject.errors + PairErrors(analyzed, from, to, span))
  }

  predicate IsChannel(channel: string) {
    channel == "system" || channel == "local" || channel == "faction" || channel == "private"
  }

  function SayErrors(channel: string, target: Option<string>, span: Span): seq<AnalyzerError> {
    if !IsChannel(channel) then [AnalyzerError(0, "", None, span, UnknownChannel)]
    else if channel == "private" && target.None? then [AnalyzerError(0, "", None, span, PrivateNeedsTarget)]
    else if channel != "private" && target.Some? then [AnalyzerError(0, "", None, span, TargetNeedsPrivate)]
    else []
  }

  /** The statement with every name resolved. */
  function AnalyzeStatement(st: Statement, obs: Observation): Outcome<Statement> {
    match st
    case CommandStatement(name, args, span) =>
      var r := AnalyzeArgs(args, 0, SpecOf(name), span, obs);
      Outcome(CommandStatement(name, r.value, span), r.errors)
    case TransferStatement(node, span) =>
      var r := AnalyzeTransfer(node, span, obs);
      Outcome(TransferStatement(r.value, span), r.errors)
    case CraftStatement(craft, span) =>
      var r := ResolveOrReport(craft.recipe, 0, RecipeIdArg, span, obs);
      Outcome(CraftStatement(craft.(recipe := r.value), span), r.errors)
    case RecycleStatement(recycle, span) =>
      var r := ResolveOrReport(recycle.recipe, 0, RecipeIdArg, span, obs);
      Outcome(RecycleStatement(recycle.(recipe := r.value), span), r.errors)
    case SayStatement(_, channel, target, span) => Outcome(st, SayErrors(channel, target, span))
    case BuyStatement(_, _) => Outcome(st, [])
    case SellStatement(_, _) => Outcome(st, [])
    case CommissionStatement(_, _, _) => Outcome(st, [])
  }

  /** The first `n` statements, analysed one after another, errors accumulating. */
  function AnalyzeUpTo(program: seq<Statement>, n: nat, obs: Observation): (r: Outcome<seq<Statement>>)
    requires n <= |program|
    ensures |r.value| == n
  {
    if n == 0 then Outcome([], [])
    else
      var before, last := AnalyzeUpTo(program, n - 1, obs), AnalyzeStatement(program[n - 1], obs);
      Outcome(before.value + [last.value], before.errors + last.errors)
  }

  function AnalyzeAll(program: seq<Statement>, obs: Observation): (r: Outcome<seq<Statement>>)
    ensures |r.value| == |program|
  {
    AnalyzeUpTo(program, |program|, obs)
  }

  function Verdict(all: Outcome<seq<Statement>>): Result<seq<Statement>, seq<AnalyzerError>> {
    if all.errors == [] then Ok(all.value) else Err(all.errors)
  }

  method Analyze(program: seq<Statement>, obs: Observation) returns (r: Result<seq<Statement>, seq<AnalyzerError>>)
    ensures r == Verdict(AnalyzeAll(program, obs))
  {
    var errors: seq<AnalyzerError> := [];
    var statements: seq<Statement> := [];
    for i := 0 to |program|
      invariant Outcome(statements, errors) == AnalyzeUpTo(program, i, obs)
    {
      var one := AnalyzeStatement(program[i], obs);
      errors := errors + one.errors;
      statements := statements + [one.value];
    }
    r := if errors == [] then Ok(statements) else Err(errors);
  }

  // ---- compilation ----

  datatype Action =
    | CommandAction(command: CommandName, fields: seq<Field>)
    | TransferAction(request: T.Transfer)
    | CraftAction(craft: C.Craft)
    | RecycleAction(recipe: string, quantity: u64, source: Option<string>, destination: Option<string>,
        facility: Option<string>)
    | SayAction(content: string, channel: string, target: Option<string>)
    | BuyAction(buy: BS.Buy)
    | SellAction(sell: BS.Sell)
    | CommissionAction(shipClass: string, provideMaterials: bool)

  datatype PlanNode = PlanNode(action: Action, source: Span)

  datatype CompileError = BadCommand(why: LowerError) | BadTransfer(reason: TC.TransferError)

  /** The typed action: the requests that also have a statement form of their own are the same requests here. */
  function ActionFor(command: CommandName, fields: seq<Field>): Action {
    if command == Buy && |fields| == 4 && fields[0].Text? && fields[1].Number? && fields[2].MaybeNumber?
       && fields[3].Flag? then
      BuyAction(BS.Buy(fields[0].text, fields[1].number, fields[2].maybeNumber, fields[3].flag, None))
    else if command == Sell && |fields| == 4 && fields[0].MaybeText? && fields[1].MaybeNumber?
            && fields[2].MaybeNumber? && fields[3].Flag? then
      SellAction(BS.Sell(fields[0].maybeText, fields[1].maybeNumber, fields[2].maybeNumber, fields[3].flag))
    else if command == Craft && |fields| == 2 && fields[0].Text? && fields[1].Number? then
      CraftAction(C.Craft(fields[0].text, fields[1].number, C.NO_CLAUSES))
    else if command == Recycle && |fields| == 2 && fields[0].Text? && fields[1].Number? then
      RecycleAction(fields[0].text, fields[1].number, None, None, None)
    else if command == CommissionShip && |fields| == 1 && fields[0].Text? then
      CommissionAction(fields[0].text, false)
    else if command == Say && |fields| == 3 && fields[0].Text? && fields[1].Text? && fields[2].MaybeText? then
      SayAction(fields[0].text, fields[1].text, fields[2].maybeText)
    else CommandAction(command, fields)
  }

  function CompileStatement(st: Statement): Result<Action, CompileError> {
    match st
    case CommandStatement(name, args, _) =>
      (match LowerCommand(name, args)
       case Ok(fields) =>
         if name.Known? then Ok(ActionFor(name.command, fields)) else Err(BadCommand(NoTypedLowering))
       case Err(e) => Err(BadCommand(e)))
    case TransferStatement(node, _) =>
      (match TC.Lower(node)
       case Ok(request) => Ok(TransferAction(request))
       case Err(e) => Err(BadTransfer(e)))
    case CraftStatement(craft, _) => Ok(CraftAction(craft))
    case RecycleStatement(r, _) =>
      Ok(RecycleAction(r.recipe, r.quantity, r.clauses.source, r.clauses.deliverTo, r.clauses.facility))
    case SayStatement(content, channel, target, _) => Ok(SayAction(content, channel, target))
    case BuyStatement(buy, _) => Ok(BuyAction(buy))
    case SellStatement(sell, _) => Ok(SellAction(sell))
    case CommissionStatement(shipClass, provideMaterials, _) => Ok(CommissionAction(shipClass, provideMaterials))
  }

  datatype Compiled = Compiled(nodes: seq<PlanNode>, sourceMap: seq<Span>)

  function Spans(program: seq<Statement>): (r: seq<Span>)
    ensures |r| == |program| && forall i | 0 <= i < |program| :: r[i] == program[i].span
  {
    seq(|program|, i requires 0 <= i < |program| => program[i].span)
  }

  /** Nodes in statement order, each with its statement's span, and the same spans again as the source map. */
  predicate IsCompiled(program: seq<Statement>, compiled: Compiled) {
    && compiled.sourceMap == Spans(program)
    && |compiled.nodes| == |program|
    && forall i | 0 <= i < |program| ::
         compiled.nodes[i].source == program[i].span && CompileStatement(program[i]) == Ok(compiled.nodes[i].action)
  }

  /** Compilation stops at the first statement that cannot be lowered. */
  predicate FailsFirstAt(program: seq<Statement>, k: nat) {
    k < |program| && CompileStatement(program[k]).Err? && forall i | 0 <= i < k :: CompileStatement(program[i]).Ok?
  }

  method CompileNodes(program: seq<Statement>) returns (r: Result<Compiled, CompileError>)
    ensures r.Ok? ==> IsCompiled(program, r.value)
    ensures r.Err? ==> exists k: nat :: FailsFirstAt(program, k) && CompileStatement(program[k]) == Err(r.error)
    ensures r.Ok? <==> forall i | 0 <= i < |program| :: CompileStatement(program[i]).Ok?
  {
    var nodes: seq<PlanNode> := [];
    var sourceMap: seq<Span> := [];
    for i := 0 to |program|
      invariant |nodes| == i && |sourceMap| == i
      invariant forall k | 0 <= k < i :: sourceMap[k] == program[k].span && nodes[k].source == program[k].span
      invariant forall k | 0 <= k < i :: CompileStatement(program[k]) == Ok(nodes[k].action)
    {
      var action := CompileStatement(program[i]);
      if action.Err? {
        assert FailsFirstAt(program, i);
        return Err(action.error);
      }
      sourceMap := sourceMap + [program[i].span];
      nodes := nodes + [PlanNode(action.value, program[i].span)];
    }
    assert sourceMap == Spans(program);
    r := Ok(Compiled(nodes, sourceMap));
  }

  // ---- what validation and analysis promise ----

  /** A command of the catalog with as many arguments as it asks for and numbers where it asks for them. */
  predicate IsValidStatement(st: Statement) {
    st.CommandStatement? ==>
      st.name.Known? && IsCatalogued(st.name.command) && IsAccepted(st.args, Spec(st.name.command))
  }

  lemma {:induction false} AllEmptyConcat<T>(parts: seq<seq<T>>)
    requires forall k | 0 <= k < |parts| :: parts[k] == []
    ensures Concat(parts) == []
    decreases |parts|
  {
    if parts != [] { AllEmptyConcat(parts[..|parts| - 1]); }
  }

  lemma StatementIsValidExactlyWhen(st: Statement)
    ensures StatementDiagnostics(st) == [] <==> IsValidStatement(st)
  {
    if st.CommandStatement? && st.name.Known? {
      AcceptedMeansNoComplaint(st.args, Spec(st.name.command));
      assert |Tagged(Complaints(st.args, Spec(st.name.command)), st.span)|
          == |Complaints(st.args, Spec(st.name.command))|;
    }
  }

  /** A program is accepted exactly when each of its statements is. */
  lemma ValidExactlyWhen(program: seq<Statement>)
    ensures Diagnostics(program) == [] <==> forall i | 0 <= i < |program| :: IsValidStatement(program[i])
  {
    forall i | 0 <= i < |program| ensures StatementDiagnostics(program[i]) == [] <==> IsValidStatement(program[i]) {
      StatementIsValidExactlyWhen(program[i]);
    }
    if Diagnostics(program) == [] {
      forall i | 0 <= i < |program| ensures IsValidStatement(program[i]) { EmptyConcat(Findings(program), i); }
    }
    if forall i | 0 <= i < |program| :: IsValidStatement(program[i]) { AllEmptyConcat(Findings(program)); }
  }

  /** An unknown name is reported once, where it stands, with the first known name that comes nearest to it. */
  lemma UnknownIsReportedWithNearest(kind: ArgType, arg: string, i: nat, span: Span, obs: Observation)
    requires kind != IntegerArg && CandidatesFor(kind, obs).Some?
    requires FirstWith(CandidatesFor(kind, obs).value, Token(arg)).None? && CandidatesFor(kind, obs).value != []
    ensures var r := AnalyzeArg(arg, i, kind, span, obs);
            && r.value == arg && |r.errors| == 1
            && var e := r.errors[0];
               && e.index == i && e.value == arg && e.span == span && e.problem == UnknownIdentifier
               && e.suggestion.Some?
               && ComesNearest(CandidatesFor(kind, obs).value, e.suggestion.value, DistanceFrom(Token(arg)))
  {
    var known := CandidatesFor(kind, obs).value;
    ResolveMeaning(known, arg);
    NearestKnown(known, DistanceFrom(Token(arg)));
    assert Resolve(kind, arg, obs) == ResolveAmong(known, arg);
  }

  /** Rows of a block keep their place and quantity, and each name becomes the known item it stands for. */
  lemma {:induction false} RowsAreResolved(items: seq<TC.NodeItem>, span: Span, obs: Observation, k: nat)
    requires k < |items| && AnalyzeItems(items, span, obs).errors == []
    ensures var now := AnalyzeItems(items, span, obs).value[k];
            && now.quantity == items[k].quantity && now.quantity > 0
            && (if obs.itemIds == [] then now.id == items[k].id
                else FirstWith(obs.itemIds, Token(items[k].id)) == Some(now.id))
    decreases k
  {
    var first, rest := TransferItemId(items[0].id, false, span, obs), AnalyzeItems(items[1..], span, obs);
    var mine := Report(items[0].quantity <= 0, span, NotPositive);
    assert |mine + first.errors + rest.errors| == |mine| + |first.errors| + |rest.errors|;
    if k > 0 {
      RowsAreResolved(items[1..], span, obs, k - 1);
    } else {
      ResolveMeaning(obs.itemIds, items[0].id);
    }
  }

  // ---- progress ----

  lemma {:induction false} ErrorsAreEmpty(program: seq<Statement>, obs: Observation, n: nat, k: nat)
    requires k < n <= |program|
    ensures AnalyzeUpTo(program, n, obs).value[k] == AnalyzeStatement(program[k], obs).value
    ensures AnalyzeUpTo(program, n, obs).errors == [] ==> AnalyzeStatement(program[k], obs).errors == []
    decreases n
  {
    var before, last := AnalyzeUpTo(program, n - 1, obs), AnalyzeStatement(program[n - 1], obs);
    assert |before.errors + last.errors| == |before.errors| + |last.errors|;
    if k < n - 1 { ErrorsAreEmpty(program, obs, n - 1, k); }
  }

  lemma {:induction false} ArgsAreAnalyzed(args: seq<string>, i: nat, spec: seq<ArgSpec>, span: Span,
                                           obs: Observation, k: nat)
    requires i <= k < |args|
    ensures AnalyzeArgs(args, i, spec, span, obs).value[k - i]
            == AnalyzeArg(args[k], k, KindAt(spec, k), span, obs).value
    decreases k - i
  {
    var first, rest := AnalyzeArg(args[i], i, KindAt(spec, i), span, obs), AnalyzeArgs(args, i + 1, spec, span, obs);
    assert AnalyzeArgs(args, i, spec, span, obs).value == [first.value] + rest.value;
    if i < k { ArgsAreAnalyzed(args, i + 1, spec, span, obs, k); }
  }

  /** A validated number is still a number, and unsigned, once analysis has rewritten it. */
  lemma IntegerTokenStaysNumber(s: string, i: nat, span: Span, obs: Observation)
    requires IsIntegerToken(s)
    ensures ParseU64(AnalyzeArg(s, i, IntegerArg, span, obs).value).Some?
  {
    var n := ParseI64(s).value;
    assert s[0] in s;
    assert n >= 0;
    ParseU64OfShow(n);
  }

  lemma AnalyzedHasNumbers(args: seq<string>, spec: seq<ArgSpec>, span: Span, obs: Observation)
    requires IsAccepted(args, spec)
    ensures HasNumbers(AnalyzeArgs(args, 0, spec, span, obs).value, spec)
  {
    var r := AnalyzeArgs(args, 0, spec, span, obs).value;
    forall i | 0 <= i < |r| && i < |spec| && spec[i].kind == IntegerArg ensures ParseU64(r[i]).Some? {
      ArgsAreAnalyzed(args, 0, spec, span, obs, i);
      assert IsNumberWhereAsked(args, spec, i);
      IntegerTokenStaysNumber(args[i], i, span, obs);
    }
  }

  /** What the two commands whose arguments are only looked at when they are lowered ask of their words. */
  ghost predicate ShapeIsRight(name: CommandName, args: seq<string>) {
    if name == FoundStation then |args| >= 2 && (args[1] == "true" || args[1] == "false")
    else name == TradeOffer ==> Trade.IsListOfTerms(args)
  }

  /** Analysis leaves the arguments of those two commands as they were written. */
  lemma AnyArgsAreKept(args: seq<string>, i: nat, spec: seq<ArgSpec>, span: Span, obs: Observation)
    requires i <= |args| && forall k | 0 <= k < |args| :: KindAt(spec, k) == AnyArg
    ensures AnalyzeArgs(args, i, spec, span, obs).value == args[i..]
    decreases |args| - i
  {
    if i < |args| { AnyArgsAreKept(args, i + 1, spec, span, obs); }
  }

  lemma LateShapesTakeAnything(name: CommandName, k: nat)
    requires ChecksShapeLate(name)
    ensures KindAt(Spec(name), k) == AnyArg
  {}

  lemma EarlyProgress(name: CommandName, args: seq<string>, span: Span, obs: Observation)
    requires IsCatalogued(name) && IsAccepted(args, Spec(name)) && !ChecksShapeLate(name)
    ensures LowerCommand(Known(name), AnalyzeArgs(args, 0, Spec(name), span, obs).value).Ok?
  {
    AnalyzedHasNumbers(args, Spec(name), span, obs);
    EarlyShape(name, args, AnalyzeArgs(args, 0, Spec(name), span, obs).value);
  }

  lemma LateArgsAreKept(name: CommandName, args: seq<string>, span: Span, obs: Observation)
    requires ChecksShapeLate(name)
    ensures AnalyzeArgs(args, 0, Spec(name), span, obs).value == args
  {
    forall k | 0 <= k < |args| ensures KindAt(Spec(name), k) == AnyArg { LateShapesTakeAnything(name, k); }
    AnyArgsAreKept(args, 0, Spec(name), span, obs);
    assert args[0..] == args;
  }

  lemma LateProgress(name: CommandName, args: seq<string>, span: Span, obs: Observation)
    requires ChecksShapeLate(name) && (name == FoundStation ==> |args| >= 2)
    ensures LowerCommand(Known(name), AnalyzeArgs(args, 0, Spec(name), span, obs).value).Ok?
            <==> ShapeIsRight(name, args)
  {
    LateArgsAreKept(name, args, span, obs);
    LateShape(name, args);
  }

  /** Arguments that keep their number and their numbers are enough for every other command. */
  lemma EarlyShape(name: CommandName, args: seq<string>, analyzed: seq<string>)
    requires IsCatalogued(name) && !ChecksShapeLate(name)
    requires IsAccepted(args, Spec(name)) && |analyzed| == |args| && HasNumbers(analyzed, Spec(name))
    ensures LowerCommand(Known(name), analyzed).Ok?
  {
    CatalogGuaranteesArity(name, args);
    CatalogSuffices(name);
    RecipeProgress(SignatureOf(name), RecipeOf(name), args, analyzed);
  }

  lemma RecipeProgress(signature: Signature, recipe: Recipe, args: seq<string>, analyzed: seq<string>)
    requires Suffices(signature, recipe)
    requires IsAccepted(args, Arguments(signature)) && |analyzed| == |args|
             && HasNumbers(analyzed, Arguments(signature))
    ensures FollowRecipe(recipe, analyzed).Ok?
  {
    if recipe.TakeRefuel? {
      RefuelProgress(analyzed);
    } else {
      forall i | 0 <= i < |Needs(recipe)| ensures IsGuaranteed(Needs(recipe)[i], Arguments(signature)) {
        SufficientIsGuaranteed(signature, recipe, i);
      }
      GuaranteedNeedsAreMet(Needs(recipe), analyzed, Arguments(signature));
    }
  }

  lemma FoundStationShape(args: seq<string>)
    requires |args| >= 2
    ensures FollowRecipe(TakeTextFlag, args).Ok? <==> args[1] == "true" || args[1] == "false"
  {
    var needs := Needs(TakeTextFlag);
    assert needs[1..] == [FlagAt(1)] && [FlagAt(1)][1..] == [];
    assert TakeAll([FlagAt(1)], args).Ok? <==> Take(FlagAt(1), args).Ok?;
  }

  lemma TradeShape(args: seq<string>)
    ensures FollowRecipe(TakeTrade, args).Ok? <==> Trade.IsListOfTerms(args)
  {
    Trade.OfferIsListOfTerms(args);
  }

  lemma FoundStationProgress(args: seq<string>)
    requires |args| >= 2
    ensures LowerCommand(Known(FoundStation), args).Ok? <==> ShapeIsRight(FoundStation, args)
  {
    FoundStationShape(args);
  }

  lemma TradeOfferProgress(args: seq<string>)
    ensures LowerCommand(Known(TradeOffer), args).Ok? <==> ShapeIsRight(TradeOffer, args)
  {
    TradeShape(args);
  }

  lemma FoundStationAsksForTwo()
    ensures RequiredCount(Spec(FoundStation)) == 2
  {
    RequiredPrefixCounts(Spec(FoundStation), 1);
  }

  lemma LateShape(name: CommandName, args: seq<string>)
    requires ChecksShapeLate(name) && (name == FoundStation ==> |args| >= 2)
    ensures LowerCommand(Known(name), args).Ok? <==> ShapeIsRight(name, args)
  {
    if name == FoundStation { FoundStationProgress(args); } else { TradeOfferProgress(args); }
  }

  lemma RefuelProgress(args: seq<string>)
    requires |args| <= 2 && (|args| == 2 ==> ParseU64(args[1]).Some?)
    ensures LowerRefuel(args).Ok?
  {}

  lemma {:induction false} ItemsLower(items: seq<TC.NodeItem>, span: Span, obs: Observation)
    requires AnalyzeItems(items, span, obs).errors == []
    requires forall i | 0 <= i < |items| :: items[i].quantity <= I64_MAX
    ensures TC.LowerItems(AnalyzeItems(items, span, obs).value).Ok?
    decreases |items|
  {
    if items != [] {
      ItemsLower(items[1..], span, obs);
      var analyzed := AnalyzeItems(items, span, obs).value;
      assert analyzed[1..] == AnalyzeItems(items[1..], span, obs).value;
    }
  }

  /** Quantities a parsed statement can hold. */
  predicate FitsI64(node: TC.Node) {
    && (node.subject.Credits? ==> node.subject.quantity <= I64_MAX)
    && (node.subject.Item? && node.subject.itemQuantity.Some? ==> node.subject.itemQuantity.value <= I64_MAX)
    && forall i | 0 <= i < |node.items| :: node.items[i].quantity <= I64_MAX
  }

  lemma TransferProgress(node: TC.Node, span: Span, obs: Observation)
    requires FitsI64(node) && AnalyzeTransfer(node, span, obs).errors == []
    ensures TC.Lower(AnalyzeTransfer(node, span, obs).value).Ok?
  {
    var (from, to) := TC.DefaultEnds(node);
    assert AnalyzeItems(node.items, span, obs).errors == [];
    assert AnalyzeSubject(node.subject, to, span, obs).errors == [];
    ItemsLower(node.items, span, obs);
    SubjectLowers(node.subject, to, span, obs);
  }

  lemma SubjectLowers(subject: TC.NodeSubject, to: T.Endpoint, span: Span, obs: Observation)
    requires AnalyzeSubject(subject, to, span, obs).errors == []
    requires subject.Credits? ==> subject.quantity <= I64_MAX
    requires subject.Item? && subject.itemQuantity.Some? ==> subject.itemQuantity.value <= I64_MAX
    ensures TC.LowerSubject(AnalyzeSubject(subject, to, span, obs).value).Ok?
  {}

  predicate IsParsed(st: Statement) {
    st.TransferStatement? ==> FitsI64(st.transfer)
  }

  ghost predicate StatementShapeIsRight(st: Statement) {
    st.CommandStatement? && st.name.Known? ==> ShapeIsRight(st.name.command, st.args)
  }

  lemma CommandProgress(st: Statement, obs: Observation)
    requires st.CommandStatement? && st.name.Known? && IsCatalogued(st.name.command)
             && IsAccepted(st.args, Spec(st.name.command))
    ensures CompileStatement(AnalyzeStatement(st, obs).value).Ok? <==> StatementShapeIsRight(st)
  {
    if !ChecksShapeLate(st.name.command) {
      EarlyProgress(st.name.command, st.args, st.span, obs);
    } else {
      FoundStationAsksForTwo();
      LateProgress(st.name.command, st.args, st.span, obs);
    }
  }

  lemma StatementProgress(st: Statement, obs: Observation)
    requires IsParsed(st) && StatementDiagnostics(st) == [] && AnalyzeStatement(st, obs).errors == []
    ensures AnalyzeStatement(st, obs).value.span == st.span
    ensures CompileStatement(AnalyzeStatement(st, obs).value).Ok? <==> StatementShapeIsRight(st)
  {
    if st.CommandStatement? {
      assert IsCatalogued(st.name.command);
      AcceptedMeansNoComplaint(st.args, Spec(st.name.command));
      CommandProgress(st, obs);
    } else if st.TransferStatement? {
      TransferProgress(st.transfer, st.span, obs);
    }
  }

  /** The part of a program's fate that one statement decides. */
  lemma StatementDecides(program: seq<Statement>, obs: Observation, i: nat)
    requires i < |program| && IsParsed(program[i])
    requires Diagnostics(program) == [] && AnalyzeAll(program, obs).errors == []
    ensures AnalyzeAll(program, obs).value[i].span == program[i].span
    ensures CompileStatement(AnalyzeAll(program, obs).value[i]).Ok? <==> StatementShapeIsRight(program[i])
  {
    EmptyConcat(Findings(program), i);
    ErrorsAreEmpty(program, obs, |program|, i);
    StatementProgress(program[i], obs);
  }

  /**
   * Progress: a program that validates without diagnostics and analyses without errors compiles, exactly when each
   * `found_station` says true or false and each `trade_offer` is a list of terms; and its nodes and source map then
   * have one entry per statement, in order, with the statement's span.
   */
  lemma Progress(program: seq<Statement>, obs: Observation)
    requires forall i | 0 <= i < |program| :: IsParsed(program[i])
    requires Diagnostics(program) == [] && AnalyzeAll(program, obs).errors == []
    ensures var analyzed := AnalyzeAll(program, obs).value;
            && ((forall i | 0 <= i < |analyzed| :: CompileStatement(analyzed[i]).Ok?)
                <==> forall i | 0 <= i < |program| :: StatementShapeIsRight(program[i]))
            && Spans(analyzed) == Spans(program)
  {
    var analyzed := AnalyzeAll(program, obs).value;
    forall i | 0 <= i < |program|
      ensures analyzed[i].span == program[i].span
      ensures CompileStatement(analyzed[i]).Ok? <==> StatementShapeIsRight(program[i])
    {
      StatementDecides(program, obs, i);
    }
  }
}
