/**
 * The command table twice over: what the catalog asks of a command's arguments before a program is accepted, and what
 * lowering takes from them afterwards.
 */
module Commands {
  import opened Prelude
  import opened TextTools
  import opened Decimal
  import opened Resolution
  import Trade = TradeOffers

  /** The commands that have a lowering; `Halt` and `Wait` are not in the catalog. */
  datatype CommandName =
    | Halt | Wait | Cloak | Hunt | PrepayTax | CancelCraftJob | RefitShip | CancelCommission | CancelShipListing
    | PlaceShipBuyOrder | CancelShipBuyOrder | SellShipToOrder | ReleaseWreck | InsureShip | CitizenshipApply
    | CitizenshipWithdraw | CitizenshipRenounce | TradeAccept | FactionLeave | FactionWithdrawInvite
    | FactionProposeAlly | FactionAcceptAlly | FactionRemoveAlly | FactionDeclareWar | FactionProposePeace
    | FactionAcceptPeace | FactionSetEnemy | FactionRemoveEnemy | FactionPrepayTax | FactionCancelMission
    | Espionage | ScanPoi | SupplyCommission | TradeOffer | Mine | Survey | Attack | Scan | Find | Go
    | AcceptMission | AbandonMission | DeclineMission | CompleteMission | Dock | Undock | SetHome | Repair
    | RepairModule | Recycle | Refuel | SelfDestruct | LoadPassenger | UnloadPassenger | Sell | Buy | CancelBuy
    | CancelSell | FactionCreate | FactionInvite | FactionAcceptInvite | FactionKick | FactionSetRole
    | FoundStation | FacilityBuild | FactionFacilityBuild | FacilityUpgrade | FactionFacilityUpgrade
    | FacilityDismantle | FactionFacilityDismantle | FacilitySetAccess | FacilitySetOutputPrice | FacilitySetName
    | UseItem | SwitchShip | RenameShip | InstallMod | UninstallMod | BuyShip | BuyListedShip | CommissionShip
    | SellShip | ScrapShip | ListShipForSale | CancelOrder | ModifyOrder | Craft | SalvageWreck | TowWreck
    | ScrapWreck | SellWreck | DistressSignal | Say

  /** The name of a command statement, after lower-casing. */
  datatype Name = Known(command: CommandName) | Unlisted(name: string)

  // ---- the catalog ----

  datatype ArgSpec = ArgSpec(kind: ArgType, required: bool, variadic: bool)

  function Must(kind: ArgType): ArgSpec {
    ArgSpec(kind, true, false)
  }

  function May(kind: ArgType): ArgSpec {
    ArgSpec(kind, false, false)
  }

  function Variadic(kind: ArgType): ArgSpec {
    ArgSpec(kind, false, true)
  }

  /** The argument lists the catalog uses. */
  datatype Signature =
    | Uncatalogued | NoArguments | MayAny | MayItem | AnyList | OneAny | OneInteger | OneItem | OneShip | OneListing
    | OneMission | OnePoi | OneModule | OneGoTarget | AnyAndInteger | ShipAndInteger | AnyAndShip | TwoAny | AnyMayAny
    | RecipeMayInteger | ItemMayInteger | AnyItemInteger | RepairArguments | RefuelArguments | SellArguments
    | BuyArguments | SayArguments | TradeArguments

  function SignatureOf(name: CommandName): Signature {
    match name
    case Halt | Wait => Uncatalogued
    case Cloak | Scan | DistressSignal => MayAny
    case Hunt | CancelCraftJob | CancelCommission | CancelShipBuyOrder | CitizenshipApply | CitizenshipWithdraw
       | CitizenshipRenounce | TradeAccept | FactionWithdrawInvite | FactionProposeAlly | FactionAcceptAlly
       | FactionRemoveAlly | FactionAcceptPeace | FactionSetEnemy | FactionRemoveEnemy | Attack | FactionInvite
       | FactionAcceptInvite | FactionKick | FacilityBuild | FactionFacilityBuild | FacilityDismantle
       | FactionFacilityDismantle | RenameShip | CancelOrder | SalvageWreck | TowWreck => OneAny
    case PrepayTax | InsureShip | FactionPrepayTax => OneInteger
    case RefitShip | ReleaseWreck | FactionLeave | Espionage | Survey | Dock | Undock | SetHome | SelfDestruct
       | ScrapWreck | SellWreck => NoArguments
    case CancelShipListing | BuyShip | BuyListedShip => OneListing
    case PlaceShipBuyOrder | ModifyOrder => AnyAndInteger
    case SellShipToOrder => AnyAndShip
    case FactionDeclareWar | FactionProposePeace | UnloadPassenger | CommissionShip => AnyMayAny
    case FactionCancelMission | AcceptMission | AbandonMission | DeclineMission | CompleteMission => OneMission
    case ScanPoi | LoadPassenger => OnePoi
    case SupplyCommission | FacilitySetOutputPrice => AnyItemInteger
    case TradeOffer => TradeArguments
    case Mine => MayItem
    case Find => AnyList
    case Go => OneGoTarget
    case Repair => RepairArguments
    case RepairModule | InstallMod | UninstallMod => OneModule
    case Recycle | Craft => RecipeMayInteger
    case Refuel => RefuelArguments
    case Sell => SellArguments
    case Buy => BuyArguments
    case CancelBuy | CancelSell => OneItem
    case FactionCreate | FactionSetRole | FoundStation | FacilityUpgrade | FactionFacilityUpgrade | FacilitySetAccess
       | FacilitySetName => TwoAny
    case UseItem => ItemMayInteger
    case SwitchShip | SellShip | ScrapShip => OneShip
    case ListShipForSale => ShipAndInteger
    case Say => SayArguments
  }

  function Arguments(signature: Signature): seq<ArgSpec> {
    match signature
    case Uncatalogued | NoArguments => []
    case MayAny => [May(AnyArg)]
    case MayItem => [May(ItemIdArg)]
    case AnyList => [Variadic(AnyArg)]
    case OneAny => [Must(AnyArg)]
    case OneInteger => [Must(IntegerArg)]
    case OneItem => [Must(ItemIdArg)]
    case OneShip => [Must(ShipIdArg)]
    case OneListing => [Must(ListingIdArg)]
    case OneMission => [Must(MissionIdArg)]
    case OnePoi => [Must(PoiIdArg)]
    case OneModule => [Must(ModuleIdArg)]
    case OneGoTarget => [Must(GoTargetArg)]
    case AnyAndInteger => [Must(AnyArg), Must(IntegerArg)]
    case ShipAndInteger => [Must(ShipIdArg), Must(IntegerArg)]
    case AnyAndShip => [Must(AnyArg), Must(ShipIdArg)]
    case TwoAny => [Must(AnyArg), Must(AnyArg)]
    case AnyMayAny => [Must(AnyArg), May(AnyArg)]
    case RecipeMayInteger => [Must(RecipeIdArg), May(IntegerArg)]
    case ItemMayInteger => [Must(ItemIdArg), May(IntegerArg)]
    case AnyItemInteger => [Must(AnyArg), Must(ItemIdArg), Must(IntegerArg)]
    case RepairArguments => [May(AnyArg), May(ItemIdArg), May(IntegerArg)]
    case RefuelArguments => [May(AnyArg), May(IntegerArg)]
    case SellArguments => [May(ItemIdArg), May(IntegerArg), May(IntegerArg), May(AnyArg)]
    case BuyArguments => [Must(ItemIdArg), Must(IntegerArg), May(IntegerArg), May(AnyArg)]
    case SayArguments => [Must(AnyArg), Must(AnyArg), May(AnyArg)]
    case TradeArguments => [Must(AnyArg)] + seq(20, _ => May(AnyArg))
  }

  predicate IsCatalogued(name: CommandName) {
    !SignatureOf(name).Uncatalogued?
  }

  /** The catalog's argument list for a command. */
  function Spec(name: CommandName): seq<ArgSpec> {
    Arguments(SignatureOf(name))
  }

  predicate IsVariadic(spec: seq<ArgSpec>) {
    spec != [] && spec[|spec| - 1].variadic
  }

  function RequiredCount(spec: seq<ArgSpec>): (n: nat)
    ensures n <= |spec|
  {
    if spec == [] then 0 else (if spec[0].required then 1 else 0) + RequiredCount(spec[1..])
  }

  /** The specification of the argument at an index; the last one again for a variadic tail. */
  function SpecAt(spec: seq<ArgSpec>, i: nat): Option<ArgSpec> {
    if i < |spec| then Some(spec[i])
    else if IsVariadic(spec) then Some(spec[|spec| - 1])
    else None
  }

  function KindAt(spec: seq<ArgSpec>, i: nat): ArgType {
    match SpecAt(spec, i)
    case Some(arg) => arg.kind
    case None => AnyArg
  }

  // ---- validation of one command ----

  /** A decimal integer without sign or leading zeros that an i64 can hold. */
  predicate IsIntegerToken(s: string) {
    && s != "" && AllDigits(s) && (s[0] != '0' || |s| == 1)
    && ParseI64(s).Some?
  }

  datatype Complaint = TooManyArguments | MissingArguments | NotAnInteger(index: nat)

  /** Complaints about the arguments from the `i`-th on. */
  function IntegerComplaints(args: seq<string>, spec: seq<ArgSpec>, i: nat): seq<Complaint>
    requires i <= |args|
    decreases |args| - i
  {
    if i == |args| then []
    else (if KindAt(spec, i) == IntegerArg && !IsIntegerToken(args[i]) then [NotAnInteger(i)] else [])
         + IntegerComplaints(args, spec, i + 1)
  }

  function Complaints(args: seq<string>, spec: seq<ArgSpec>): seq<Complaint> {
    if !IsVariadic(spec) && |args| > |spec| then [TooManyArguments]
    else (if |args| < RequiredCount(spec) then [MissingArguments] else []) + IntegerComplaints(args, spec, 0)
  }

  method ValidateCommandArgs(args: seq<string>, spec: seq<ArgSpec>) returns (out: seq<Complaint>)
    ensures out == Complaints(args, spec)
  {
    if !IsVariadic(spec) && |args| > |spec| { return [TooManyArguments]; }
    out := [];
    if |args| < RequiredCount(spec) { out := out + [MissingArguments]; }
    ghost var start := out;
    for i := 0 to |args|
      invariant out + IntegerComplaints(args, spec, i) == start + IntegerComplaints(args, spec, 0)
    {
      ghost var rest := IntegerComplaints(args, spec, i + 1);
      var arg := SpecAt(spec, i);
      if arg.Some? && arg.value.kind == IntegerArg && !IsIntegerToken(args[i]) {
        assert out + ([NotAnInteger(i)] + rest) == out + [NotAnInteger(i)] + rest;
        out := out + [NotAnInteger(i)];
      } else {
        assert [] + rest == rest;
      }
    }
    assert out + [] == out;
  }

  predicate IsNumberWhereAsked(args: seq<string>, spec: seq<ArgSpec>, i: nat)
    requires i < |args|
  {
    KindAt(spec, i) == IntegerArg ==> IsIntegerToken(args[i])
  }

  predicate AreNumbersFrom(args: seq<string>, spec: seq<ArgSpec>, i: nat) {
    forall j {:trigger IsNumberWhereAsked(args, spec, j)} | i <= j < |args| :: IsNumberWhereAsked(args, spec, j)
  }

  /** No complaint means: enough arguments, not too many, and a number wherever one is asked for. */
  predicate IsAccepted(args: seq<string>, spec: seq<ArgSpec>) {
    && RequiredCount(spec) <= |args|
    && (IsVariadic(spec) || |args| <= |spec|)
    && AreNumbersFrom(args, spec, 0)
  }

  lemma {:induction false} NoIntegerComplaints(args: seq<string>, spec: seq<ArgSpec>, i: nat)
    requires i <= |args|
    ensures IntegerComplaints(args, spec, i) == [] <==> AreNumbersFrom(args, spec, i)
    decreases |args| - i
  {
    if i < |args| {
      NoIntegerComplaints(args, spec, i + 1);
      assert AreNumbersFrom(args, spec, i) <==> IsNumberWhereAsked(args, spec, i) && AreNumbersFrom(args, spec, i + 1);
    }
  }

  lemma AcceptedMeansNoComplaint(args: seq<string>, spec: seq<ArgSpec>)
    ensures Complaints(args, spec) == [] <==> IsAccepted(args, spec)
  {
    NoIntegerComplaints(args, spec, 0);
  }

  // ---- lowering ----

  /** How lowering gets one field of an action out of the arguments. */
  datatype Need =
    | TextAt(index: nat)
    | MaybeTextAt(index: nat)
    | AllTexts
    | NumberAt(index: nat)
    | MaybeNumberAt(index: nat)
    | NumberOrOneAt(index: nat)
    | FlagAt(index: nat)
    | OrderAt(index: nat)
    | OnUnlessOff

  /** The ways lowering takes its arguments. */
  datatype Recipe =
    | TakeNothing | TakeSwitch | TakeList | TakeText | TakeMaybeText | TakeNumber | TakeCount | TakeTextNumber
    | TakeTwoTexts | TakeTextMaybeText | TakeTextCount | TakeTextFlag | TakeTwoTextsNumber | TakeTwoTextsMaybeText
    | TakeRepair | TakeSell | TakeBuy | TakeRefuel | TakeTrade

  function RecipeOf(name: CommandName): Recipe {
    match name
    case Halt | RefitShip | ReleaseWreck | FactionLeave | Espionage | Survey | Dock | Undock | SetHome | SelfDestruct
       | ScrapWreck | SellWreck => TakeNothing
    case Wait => TakeCount
    case Cloak => TakeSwitch
    case Find => TakeList
    case Hunt | CancelCraftJob | CancelCommission | CancelShipListing | CancelShipBuyOrder | CitizenshipApply
       | CitizenshipWithdraw | CitizenshipRenounce | TradeAccept | FactionWithdrawInvite | FactionProposeAlly
       | FactionAcceptAlly | FactionRemoveAlly | FactionAcceptPeace | FactionSetEnemy | FactionRemoveEnemy
       | FactionCancelMission | ScanPoi | Attack | Go | AcceptMission | AbandonMission | DeclineMission | CompleteMission
       | RepairModule | LoadPassenger | CancelBuy | CancelSell | FactionInvite | FactionAcceptInvite | FactionKick
       | FacilityBuild | FactionFacilityBuild | FacilityDismantle | FactionFacilityDismantle | SwitchShip | RenameShip
       | InstallMod | UninstallMod | BuyShip | BuyListedShip | CommissionShip | SellShip | ScrapShip | CancelOrder
       | SalvageWreck | TowWreck => TakeText
    case PrepayTax | InsureShip | FactionPrepayTax => TakeNumber
    case PlaceShipBuyOrder | ListShipForSale | ModifyOrder => TakeTextNumber
    case SellShipToOrder | FactionCreate | FactionSetRole | FacilityUpgrade | FactionFacilityUpgrade | FacilitySetAccess
       | FacilitySetName => TakeTwoTexts
    case FactionDeclareWar | FactionProposePeace | UnloadPassenger => TakeTextMaybeText
    case SupplyCommission | FacilitySetOutputPrice => TakeTwoTextsNumber
    case Mine | Scan | DistressSignal => TakeMaybeText
    case Repair => TakeRepair
    case Sell => TakeSell
    case Buy => TakeBuy
    case FoundStation => TakeTextFlag
    case UseItem | Craft | Recycle => TakeTextCount
    case Say => TakeTwoTextsMaybeText
    case Refuel => TakeRefuel
    case TradeOffer => TakeTrade
  }

  function Needs(recipe: Recipe): seq<Need> {
    match recipe
    case TakeNothing | TakeRefuel | TakeTrade => []
    case TakeSwitch => [OnUnlessOff]
    case TakeList => [AllTexts]
    case TakeText => [TextAt(0)]
    case TakeMaybeText => [MaybeTextAt(0)]
    case TakeNumber => [NumberAt(0)]
    case TakeCount => [NumberOrOneAt(0)]
    case TakeTextNumber => [TextAt(0), NumberAt(1)]
    case TakeTwoTexts => [TextAt(0), TextAt(1)]
    case TakeTextMaybeText => [TextAt(0), MaybeTextAt(1)]
    case TakeTextCount => [TextAt(0), NumberOrOneAt(1)]
    case TakeTextFlag => [TextAt(0), FlagAt(1)]
    case TakeTwoTextsNumber => [TextAt(0), TextAt(1), NumberAt(2)]
    case TakeTwoTextsMaybeText => [TextAt(0), TextAt(1), MaybeTextAt(2)]
    case TakeRepair => [MaybeTextAt(0), MaybeNumberAt(2), MaybeTextAt(1)]
    case TakeSell => [MaybeTextAt(0), MaybeNumberAt(1), MaybeNumberAt(2), OrderAt(3)]
    case TakeBuy => [TextAt(0), NumberAt(1), MaybeNumberAt(2), OrderAt(3)]
  }

  /** Commands whose lowering is guarded by the number of arguments. */
  predicate ArityAllows(name: CommandName, count: nat) {
    match name
    case Halt | Dock | Undock => count == 0
    case Wait | Mine => count <= 1
    case Go => count == 1
    case _ => true
  }

  datatype Field =
    | Text(text: string)
    | MaybeText(maybeText: Option<string>)
    | Texts(texts: seq<string>)
    | Number(number: u64)
    | MaybeNumber(maybeNumber: Option<u64>)
    | Flag(flag: bool)
    | Offer(offer: Trade.TradeOffer)

  datatype LowerError = NoTypedLowering | InvalidArguments

  function ArgAt(args: seq<string>, i: nat): Option<string> {
    if i < |args| then Some(args[i]) else None
  }

  function OptionalNumber(args: seq<string>, i: nat): Result<Option<u64>, LowerError> {
    if i >= |args| then Ok(None)
    else
      match ParseU64(args[i])
      case Some(n) => Ok(Some(n))
      case None => Err(InvalidArguments)
  }

  function Take(need: Need, args: seq<string>): Result<Field, LowerError> {
    match need
    case TextAt(i) => if i < |args| then Ok(Text(args[i])) else Err(InvalidArguments)
    case MaybeTextAt(i) => Ok(MaybeText(ArgAt(args, i)))
    case AllTexts => Ok(Texts(args))
    case NumberAt(i) =>
      (match OptionalNumber(args, i)
       case Ok(Some(n)) => Ok(Number(n))
       case _ => Err(InvalidArguments))
    case MaybeNumberAt(i) =>
      (match OptionalNumber(args, i)
       case Ok(n) => Ok(MaybeNumber(n))
       case Err(e) => Err(e))
    case NumberOrOneAt(i) =>
      (match OptionalNumber(args, i)
       case Ok(n) => Ok(Number(n.GetOr(1)))
       case Err(e) => Err(e))
    case FlagAt(i) =>
      if ArgAt(args, i) == Some("true") then Ok(Flag(true))
      else if ArgAt(args, i) == Some("false") then Ok(Flag(false))
      else Err(InvalidArguments)
    case OrderAt(i) => Ok(Flag(ArgAt(args, i) == Some("order")))
    case OnUnlessOff => Ok(Flag(ArgAt(args, 0) != Some("off")))
  }

  function TakeAll(needs: seq<Need>, args: seq<string>): Result<seq<Field>, LowerError> {
    if needs == [] then Ok([])
    else
      match Take(needs[0], args)
      case Err(e) => Err(e)
      case Ok(field) =>
        match TakeAll(needs[1..], args)
        case Err(e) => Err(e)
        case Ok(more) => Ok([field] + more)
  }

  lemma TakeOneMore(need: Need, rest: seq<Need>, args: seq<string>)
    ensures TakeAll([need] + rest, args)
            == if Take(need, args).Err? then Err(Take(need, args).error)
               else if TakeAll(rest, args).Err? then Err(TakeAll(rest, args).error)
               else Ok([Take(need, args).value] + TakeAll(rest, args).value)
  {
    assert ([need] + rest)[1..] == rest;
  }

  lemma TakeTwo(a: Need, b: Need, args: seq<string>)
    requires Take(a, args).Ok? && Take(b, args).Ok?
    ensures TakeAll([a, b], args) == Ok([Take(a, args).value, Take(b, args).value])
  {
    TakeOneMore(b, [], args);
    TakeOneMore(a, [b], args);
    assert [b] + [] == [b] && [a] + [b] == [a, b];
    var x, y := Take(a, args).value, Take(b, args).value;
    assert [y] + [] == [y] && [x] + [y] == [x, y];
  }

  lemma TakeThree(a: Need, b: Need, c: Need, args: seq<string>)
    requires Take(a, args).Ok? && Take(b, args).Ok? && Take(c, args).Ok?
    ensures TakeAll([a, b, c], args) == Ok([Take(a, args).value, Take(b, args).value, Take(c, args).value])
  {
    TakeTwo(b, c, args);
    TakeOneMore(a, [b, c], args);
    assert [a] + [b, c] == [a, b, c];
    var x, y, z := Take(a, args).value, Take(b, args).value, Take(c, args).value;
    assert [x] + [y, z] == [x, y, z];
  }

  lemma TakeFour(a: Need, b: Need, c: Need, d: Need, args: seq<string>)
    requires Take(a, args).Ok? && Take(b, args).Ok? && Take(c, args).Ok? && Take(d, args).Ok?
    ensures TakeAll([a, b, c, d], args)
            == Ok([Take(a, args).value, Take(b, args).value, Take(c, args).value, Take(d, args).value])
  {
    TakeThree(b, c, d, args);
    TakeOneMore(a, [b, c, d], args);
    assert [a] + [b, c, d] == [a, b, c, d];
    var w, x, y, z := Take(a, args).value, Take(b, args).value, Take(c, args).value, Take(d, args).value;
    assert [w] + [x, y, z] == [w, x, y, z];
  }

  /** A lone number is a quantity, anything else a target; what follows a lone number is not looked at. */
  function LowerRefuel(args: seq<string>): Result<seq<Field>, LowerError> {
    var quantityOnly := args != [] && ParseU64(args[0]).Some?;
    match OptionalNumber(args, if quantityOnly then 0 else 1)
    case Ok(n) => Ok([MaybeText(if quantityOnly then None else ArgAt(args, 0)), MaybeNumber(n)])
    case Err(e) => Err(e)
  }

  function FollowRecipe(recipe: Recipe, args: seq<string>): Result<seq<Field>, LowerError> {
    match recipe
    case TakeRefuel => LowerRefuel(args)
    case TakeTrade =>
      (match Trade.OfferOf(args)
       case Ok(offer) => Ok([Offer(offer)])
       case Err(_) => Err(InvalidArguments))
    case _ => TakeAll(Needs(recipe), args)
  }

  /** The fields of the typed action a command stands for. */
  function LowerCommand(name: Name, args: seq<string>): Result<seq<Field>, LowerError> {
    if name.Unlisted? || !ArityAllows(name.command, |args|) then Err(NoTypedLowering)
    else FollowRecipe(RecipeOf(name.command), args)
  }

  /** Most commands are lowered by taking what they need. */
  lemma LoweredByTaking(name: CommandName, recipe: Recipe, args: seq<string>)
    requires recipe == RecipeOf(name) && !recipe.TakeRefuel? && !recipe.TakeTrade? && ArityAllows(name, |args|)
    ensures LowerCommand(Known(name), args) == TakeAll(Needs(recipe), args)
  {}

  lemma TradeTakes(args: seq<string>)
    ensures LowerCommand(Known(TradeOffer), args)
            == if Trade.OfferOf(args).Ok? then Ok([Offer(Trade.OfferOf(args).value)]) else Err(InvalidArguments)
  {}

  // ---- what the catalog guarantees lowering ----

  /** The catalog's specification is enough for lowering to find what it needs. */
  predicate IsGuaranteed(need: Need, spec: seq<ArgSpec>) {
    match need
    case TextAt(i) => i < RequiredCount(spec)
    case NumberAt(i) => i < RequiredCount(spec) && spec[i].kind == IntegerArg
    case MaybeNumberAt(i) => i < |spec| && spec[i].kind == IntegerArg
    case NumberOrOneAt(i) => i < |spec| && spec[i].kind == IntegerArg
    case FlagAt(_) => false
    case _ => true
  }

  /** The arguments as lowering sees them: numbers where the catalog asks for numbers. */
  predicate HasNumbers(args: seq<string>, spec: seq<ArgSpec>) {
    && RequiredCount(spec) <= |args|
    && forall i | 0 <= i < |args| && i < |spec| && spec[i].kind == IntegerArg :: ParseU64(args[i]).Some?
  }

  lemma {:induction false} GuaranteedNeedsAreMet(needs: seq<Need>, args: seq<string>, spec: seq<ArgSpec>)
    requires HasNumbers(args, spec)
    requires forall i | 0 <= i < |needs| :: IsGuaranteed(needs[i], spec)
    ensures TakeAll(needs, args).Ok?
    decreases |needs|
  {
    if needs != [] {
      assert IsGuaranteed(needs[0], spec);
      GuaranteedNeedsAreMet(needs[1..], args, spec);
    }
  }

  /** The two commands whose arguments are only looked at when they are lowered. */
  predicate ChecksShapeLate(name: CommandName) {
    name == FoundStation || name == TradeOffer
  }

  /** The argument lists that are enough for a recipe. */
  predicate Suffices(signature: Signature, recipe: Recipe) {
    match recipe
    case TakeNothing | TakeSwitch | TakeList | TakeMaybeText => true
    case TakeText =>
      || signature.OneAny? || signature.OneItem? || signature.OneShip? || signature.OneListing? || signature.OneMission?
      || signature.OnePoi? || signature.OneModule? || signature.OneGoTarget? || signature.AnyMayAny?
    case TakeNumber => signature.OneInteger?
    case TakeTextNumber => signature.AnyAndInteger? || signature.ShipAndInteger?
    case TakeTwoTexts => signature.TwoAny? || signature.AnyAndShip?
    case TakeTextMaybeText => signature.AnyMayAny?
    case TakeTextCount => signature.RecipeMayInteger? || signature.ItemMayInteger?
    case TakeTwoTextsNumber => signature.AnyItemInteger?
    case TakeTwoTextsMaybeText => signature.SayArguments?
    case TakeRepair => signature.RepairArguments?
    case TakeSell => signature.SellArguments?
    case TakeBuy => signature.BuyArguments?
    case TakeRefuel => signature.RefuelArguments?
    case TakeCount | TakeTextFlag | TakeTrade => false
  }

  lemma TextSuffices(name: CommandName)
    requires RecipeOf(name).TakeText?
    ensures Suffices(SignatureOf(name), TakeText)
  {}

  /** Recipes that never fail, whatever the arguments. */
  predicate NeedsNothing(recipe: Recipe) {
    recipe.TakeNothing? || recipe.TakeSwitch? || recipe.TakeList? || recipe.TakeMaybeText?
  }

  predicate TakesOnlyTexts(recipe: Recipe) {
    recipe.TakeTwoTexts? || recipe.TakeTextMaybeText? || recipe.TakeTwoTextsMaybeText? || recipe.TakeTextFlag?
  }

  lemma TextsSuffice(name: CommandName)
    requires IsCatalogued(name) && TakesOnlyTexts(RecipeOf(name))
    ensures Suffices(SignatureOf(name), RecipeOf(name)) <==> !ChecksShapeLate(name)
  {}

  lemma NumbersSuffice(name: CommandName)
    requires IsCatalogued(name) && !RecipeOf(name).TakeText? && !NeedsNothing(RecipeOf(name))
             && !TakesOnlyTexts(RecipeOf(name))
    ensures Suffices(SignatureOf(name), RecipeOf(name)) <==> !ChecksShapeLate(name)
  {}

  /** The catalog asks enough of every command but the two that check late. */
  lemma CatalogSuffices(name: CommandName)
    requires IsCatalogued(name)
    ensures Suffices(SignatureOf(name), RecipeOf(name)) <==> !ChecksShapeLate(name)
  {
    if RecipeOf(name).TakeText? {
      TextSuffices(name);
    } else if TakesOnlyTexts(RecipeOf(name)) {
      TextsSuffice(name);
    } else if !NeedsNothing(RecipeOf(name)) {
      NumbersSuffice(name);
    }
  }

  lemma {:induction false} RequiredPrefixCounts(spec: seq<ArgSpec>, i: nat)
    requires i < |spec| && forall j | 0 <= j <= i :: spec[j].required
    ensures i < RequiredCount(spec)
    decreases i
  {
    if i > 0 { RequiredPrefixCounts(spec[1..], i - 1); }
  }

  /** How many leading arguments a recipe must find, and the last of them that must be a number. */
  lemma SufficientIsGuaranteed(signature: Signature, recipe: Recipe, i: nat)
    requires Suffices(signature, recipe) && i < |Needs(recipe)|
    ensures IsGuaranteed(Needs(recipe)[i], Arguments(signature))
  {
    var need := Needs(recipe)[i];
    if need.TextAt? || need.NumberAt? {
      LeadingAreRequired(signature, recipe, i);
      RequiredPrefixCounts(Arguments(signature), need.index);
    } else if need.MaybeNumberAt? || need.NumberOrOneAt? {
      CountsAreNumbers(signature, recipe, i);
    }
  }

  lemma LeadingAreRequired(signature: Signature, recipe: Recipe, i: nat)
    requires Suffices(signature, recipe) && i < |Needs(recipe)|
             && (Needs(recipe)[i].TextAt? || Needs(recipe)[i].NumberAt?)
    ensures var need, spec := Needs(recipe)[i], Arguments(signature);
            && need.index < |spec| && (need.NumberAt? ==> spec[need.index].kind == IntegerArg)
            && forall j | 0 <= j <= need.index :: spec[j].required
  {}

  lemma CountsAreNumbers(signature: Signature, recipe: Recipe, i: nat)
    requires Suffices(signature, recipe) && i < |Needs(recipe)|
    requires Needs(recipe)[i].MaybeNumberAt? || Needs(recipe)[i].NumberOrOneAt?
    ensures Needs(recipe)[i].index < |Arguments(signature)|
            && Arguments(signature)[Needs(recipe)[i].index].kind == IntegerArg
  {}

  /** Every catalogued command but two asks for everything its lowering needs. */
  lemma CatalogGuaranteesLowering(name: CommandName, i: nat)
    requires IsCatalogued(name) && !ChecksShapeLate(name) && i < |Needs(RecipeOf(name))|
    ensures IsGuaranteed(Needs(RecipeOf(name))[i], Spec(name))
  {
    CatalogSuffices(name);
    SufficientIsGuaranteed(SignatureOf(name), RecipeOf(name), i);
  }

  /** Where lowering counts the arguments, the catalog has counted them already. */
  lemma CatalogGuaranteesArity(name: CommandName, args: seq<string>)
    requires IsCatalogued(name) && IsAccepted(args, Spec(name))
    ensures ArityAllows(name, |args|)
  {
    if name == Go { RequiredPrefixCounts(Spec(name), 0); }
  }
}
