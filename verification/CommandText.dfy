/**
 * Every command that is printed in the common shape, there and back: what its typed action is made of, the text the
 * action is printed as, and that the text means that action again.
 */
module CommandText {
  import opened Prelude
  import opened TextTools
  import opened Decimal
  import opened Lexing
  import opened Resolution
  import opened Commands
  import opened Pipeline
  import opened Statements
  import Trade = TradeOffers
  import BS = BuySell
  import C = Crafting

  // ---- what an action is made of ----

  datatype FieldKind = TextField | MaybeTextField | TextsField | NumberField | MaybeNumberField | FlagField | OfferField

  function KindOf(f: Field): FieldKind {
    match f
    case Text(_) => TextField
    case MaybeText(_) => MaybeTextField
    case Texts(_) => TextsField
    case Number(_) => NumberField
    case MaybeNumber(_) => MaybeNumberField
    case Flag(_) => FlagField
    case Offer(_) => OfferField
  }

  /** The fields of the typed action, in the order they are declared and printed. */
  function FieldsOf(name: CommandName): seq<FieldKind> {
    match name
    case Halt | Dock | Undock | SetHome | Survey | SelfDestruct | RefitShip | ScrapWreck | SellWreck | ReleaseWreck
       | FactionLeave | Espionage => []
    case Cloak => [FlagField]
    case Find => [TextsField]
    case Mine | Scan | DistressSignal => [MaybeTextField]
    case Wait | PrepayTax | InsureShip | FactionPrepayTax => [NumberField]
    case UseItem | ListShipForSale | PlaceShipBuyOrder | ModifyOrder | Craft | Recycle => [TextField, NumberField]
    case UnloadPassenger | FactionDeclareWar | FactionProposePeace => [TextField, MaybeTextField]
    case FactionCreate | FactionSetRole | FacilityUpgrade | FactionFacilityUpgrade | FacilitySetAccess | FacilitySetName
       | SellShipToOrder => [TextField, TextField]
    case FoundStation => [TextField, FlagField]
    case FacilitySetOutputPrice | SupplyCommission => [TextField, TextField, NumberField]
    case Repair => [MaybeTextField, MaybeNumberField, MaybeTextField]
    case Refuel => [MaybeTextField, MaybeNumberField]
    case TradeOffer => [OfferField]
    case Say => [TextField, TextField, MaybeTextField]
    case Sell => [MaybeTextField, MaybeNumberField, MaybeNumberField, FlagField]
    case Buy => [TextField, NumberField, MaybeNumberField, FlagField]
    case _ => [TextField]
  }

  predicate IsTyped(kinds: seq<FieldKind>, fields: seq<Field>) {
    |fields| == |kinds| && forall i | 0 <= i < |fields| :: KindOf(fields[i]) == kinds[i]
  }

  function KindTaken(need: Need): FieldKind {
    match need
    case TextAt(_) => TextField
    case MaybeTextAt(_) => MaybeTextField
    case AllTexts => TextsField
    case NumberAt(_) => NumberField
    case MaybeNumberAt(_) => MaybeNumberField
    case NumberOrOneAt(_) => NumberField
    case FlagAt(_) => FlagField
    case OrderAt(_) => FlagField
    case OnUnlessOff => FlagField
  }

  function KindsTaken(needs: seq<Need>): (r: seq<FieldKind>)
    ensures |r| == |needs|
  {
    seq(|needs|, i requires 0 <= i < |needs| => KindTaken(needs[i]))
  }

  lemma {:induction false} TakenIsTyped(needs: seq<Need>, args: seq<string>)
    ensures TakeAll(needs, args).Ok? ==> IsTyped(KindsTaken(needs), TakeAll(needs, args).value)
    decreases |needs|
  {
    if needs != [] { TakenIsTyped(needs[1..], args); }
  }

  /** Lowering in turn: the fields come from the arguments one after another, and only the last may be missing. */
  predicate IsPlainRecipe(recipe: Recipe) {
    recipe.TakeNothing? || recipe.TakeText? || recipe.TakeMaybeText? || recipe.TakeNumber? || recipe.TakeCount?
    || recipe.TakeTextNumber? || recipe.TakeTwoTexts? || recipe.TakeTextMaybeText? || recipe.TakeTextCount?
    || recipe.TakeTextFlag? || recipe.TakeTwoTextsNumber? || recipe.TakeTwoTextsMaybeText?
  }

  function KindsOfRecipe(recipe: Recipe): seq<FieldKind> {
    match recipe
    case TakeNothing => []
    case TakeSwitch => [FlagField]
    case TakeList => [TextsField]
    case TakeText => [TextField]
    case TakeMaybeText => [MaybeTextField]
    case TakeNumber => [NumberField]
    case TakeCount => [NumberField]
    case TakeTextNumber => [TextField, NumberField]
    case TakeTwoTexts => [TextField, TextField]
    case TakeTextMaybeText => [TextField, MaybeTextField]
    case TakeTextCount => [TextField, NumberField]
    case TakeTextFlag => [TextField, FlagField]
    case TakeTwoTextsNumber => [TextField, TextField, NumberField]
    case TakeTwoTextsMaybeText => [TextField, TextField, MaybeTextField]
    case TakeRepair => [MaybeTextField, MaybeNumberField, MaybeTextField]
    case TakeSell => [MaybeTextField, MaybeNumberField, MaybeNumberField, FlagField]
    case TakeBuy => [TextField, NumberField, MaybeNumberField, FlagField]
    case TakeRefuel => [MaybeTextField, MaybeNumberField]
    case TakeTrade => [OfferField]
  }

  lemma TextFitsAction(name: CommandName)
    requires RecipeOf(name).TakeText?
    ensures FieldsOf(name) == [TextField]
  {}

  lemma NothingFitsAction(name: CommandName)
    requires RecipeOf(name).TakeNothing?
    ensures FieldsOf(name) == []
  {}

  predicate TakesTwoOrThree(recipe: Recipe) {
    recipe.TakeTextNumber? || recipe.TakeTwoTexts? || recipe.TakeTextMaybeText? || recipe.TakeTextCount?
    || recipe.TakeTextFlag? || recipe.TakeTwoTextsNumber? || recipe.TakeTwoTextsMaybeText?
  }

  lemma LongerFitsAction(name: CommandName)
    requires TakesTwoOrThree(RecipeOf(name))
    ensures KindsOfRecipe(RecipeOf(name)) == FieldsOf(name)
  {}

  lemma OtherFitsAction(name: CommandName)
    requires !RecipeOf(name).TakeText? && !RecipeOf(name).TakeNothing? && !TakesTwoOrThree(RecipeOf(name))
    ensures KindsOfRecipe(RecipeOf(name)) == FieldsOf(name)
  {}

  lemma RecipeFitsAction(name: CommandName)
    ensures KindsOfRecipe(RecipeOf(name)) == FieldsOf(name)
  {
    if RecipeOf(name).TakeText? {
      TextFitsAction(name);
    } else if RecipeOf(name).TakeNothing? {
      NothingFitsAction(name);
    } else if TakesTwoOrThree(RecipeOf(name)) {
      LongerFitsAction(name);
    } else {
      OtherFitsAction(name);
    }
  }

  lemma RecipeTakesItsKinds(recipe: Recipe)
    requires !recipe.TakeRefuel? && !recipe.TakeTrade?
    ensures KindsTaken(Needs(recipe)) == KindsOfRecipe(recipe)
  {}

  /** Lowering gives every command the fields of its typed action. */
  lemma LoweredIsTyped(name: CommandName, args: seq<string>)
    ensures LowerCommand(Known(name), args).Ok? ==> IsTyped(FieldsOf(name), LowerCommand(Known(name), args).value)
  {
    var recipe := RecipeOf(name);
    RecipeFitsAction(name);
    if !recipe.TakeRefuel? && !recipe.TakeTrade? {
      RecipeTakesItsKinds(recipe);
      TakenIsTyped(Needs(recipe), args);
    }
  }

  // ---- the words of an action ----

  function Words(f: Field): seq<string> {
    match f
    case Text(t) => [t]
    case MaybeText(t) => if t.Some? then [t.value] else []
    case Texts(ts) => ts
    case Number(n) => [Show(n)]
    case MaybeNumber(n) => if n.Some? then [Show(n.value)] else []
    case Flag(b) => [if b then "true" else "false"]
    case Offer(o) => Trade.OfferTokens(o)
  }

  function AllWords(fields: seq<Field>): seq<string> {
    if fields == [] then [] else Words(fields[0]) + AllWords(fields[1..])
  }

  /** The `i`-th need looks at the `k + i`-th argument, and an optional one comes last. */
  predicate InTurn(needs: seq<Need>, k: nat) {
    forall i | 0 <= i < |needs| ::
      && (match needs[i]
          case TextAt(at) => at == k + i
          case NumberAt(at) => at == k + i
          case FlagAt(at) => at == k + i
          case MaybeTextAt(at) => at == k + i && i == |needs| - 1
          case NumberOrOneAt(at) => at == k + i && i == |needs| - 1
          case _ => false)
  }

  lemma PlainIsInTurn(recipe: Recipe)
    requires IsPlainRecipe(recipe)
    ensures InTurn(Needs(recipe), 0)
  {}

  lemma InTurnTail(needs: seq<Need>, k: nat)
    requires needs != [] && InTurn(needs, k)
    ensures InTurn(needs[1..], k + 1)
  {}

  /** Taking in turn from the words of the fields gives the fields. */
  lemma {:induction false} TakesItsWords(needs: seq<Need>, fields: seq<Field>, k: nat, args: seq<string>)
    requires InTurn(needs, k) && IsTyped(KindsTaken(needs), fields)
    requires k <= |args| && args[k..] == AllWords(fields)
    ensures TakeAll(needs, args) == Ok(fields)
    decreases |needs|
  {
    if needs != [] {
      var need, f := needs[0], fields[0];
      InTurnTail(needs, k);
      assert KindOf(f) == KindTaken(need);
      assert fields == [f] + fields[1..];
      if f.Number? { ParseU64OfShow(f.number); }
      if f.MaybeText? && f.maybeText.None? {
        assert fields[1..] == [] && needs[1..] == [];
        assert args[k..] == [];
      } else {
        var word := Words(f)[0];
        assert args[k..] == [word] + AllWords(fields[1..]);
        assert args[k] == args[k..][0] && args[k + 1..] == args[k..][1..];
        FieldIsTaken(need, f, k, args);
        assert IsTyped(KindsTaken(needs[1..]), fields[1..]);
        TakesItsWords(needs[1..], fields[1..], k + 1, args);
      }
    }
  }

  lemma FieldIsTaken(need: Need, f: Field, k: nat, args: seq<string>)
    requires InTurn([need], k) && KindOf(f) == KindTaken(need) && k < |args| && Words(f) == [args[k]]
    ensures Take(need, args) == Ok(f)
  {
    if f.Number? { ParseU64OfShow(f.number); }
    assert InTurn([need], k) ==> ([need][0] == need);
  }

  /** The argument is a number written the way it is printed. */
  predicate IsPrintedNumber(s: string) {
    ParseU64(s).Some? && Show(ParseU64(s).value) == s
  }

  predicate TakesNumber(need: Need) {
    need.NumberAt? || need.NumberOrOneAt?
  }

  /** Numbers stand where numbers are taken. */
  predicate NumbersArePrinted(needs: seq<Need>, k: nat, args: seq<string>) {
    forall i | 0 <= i < |needs| && TakesNumber(needs[i]) && k + i < |args| :: IsPrintedNumber(args[k + i])
  }

  /** What the one count that may be left out stands for. */
  function Default(needs: seq<Need>, k: nat, args: seq<string>): seq<string> {
    if needs != [] && needs[|needs| - 1].NumberOrOneAt? && |args| < k + |needs| then ["1"] else []
  }

  lemma TakenFirstAndRest(needs: seq<Need>, args: seq<string>)
    requires needs != [] && TakeAll(needs, args).Ok?
    ensures Take(needs[0], args).Ok? && TakeAll(needs[1..], args).Ok?
    ensures AllWords(TakeAll(needs, args).value)
            == Words(Take(needs[0], args).value) + AllWords(TakeAll(needs[1..], args).value)
  {
    var f, rest := Take(needs[0], args).value, TakeAll(needs[1..], args).value;
    assert ([f] + rest)[1..] == rest;
  }

  /** The words of what is taken in turn are the arguments themselves, in their order, and the default count. */
  lemma {:induction false} WordsAreTheArguments(needs: seq<Need>, k: nat, args: seq<string>)
    requires InTurn(needs, k) && k <= |args| <= k + |needs| && NumbersArePrinted(needs, k, args)
    requires TakeAll(needs, args).Ok?
    ensures AllWords(TakeAll(needs, args).value) == args[k..] + Default(needs, k, args)
    decreases |needs|
  {
    if needs != [] {
      TakenFirstAndRest(needs, args);
      if k < |args| {
        InTurnTail(needs, k);
        TailIsPrinted(needs, k, args);
        WordsAreTheArguments(needs[1..], k + 1, args);
        HeadIsPrinted(needs, k, args);
        HeadWord(needs[0], k, args);
        PrependWord(args, k, Default(needs, k, args));
      } else {
        LastMayBeMissing(needs, k, args);
        assert args[k..] == [];
      }
    } else {
      assert args[k..] == [];
    }
  }

  lemma PrependWord(args: seq<string>, k: nat, more: seq<string>)
    requires k < |args|
    ensures [args[k]] + (args[k + 1..] + more) == args[k..] + more
  {}

  lemma HeadIsPrinted(needs: seq<Need>, k: nat, args: seq<string>)
    requires needs != [] && InTurn(needs, k) && k < |args| && NumbersArePrinted(needs, k, args)
    ensures InTurn([needs[0]], k) && (TakesNumber(needs[0]) ==> IsPrintedNumber(args[k]))
  {
    assert TakesNumber(needs[0]) ==> IsPrintedNumber(args[k + 0]);
  }

  lemma TailIsPrinted(needs: seq<Need>, k: nat, args: seq<string>)
    requires needs != [] && k < |args| && NumbersArePrinted(needs, k, args)
    ensures NumbersArePrinted(needs[1..], k + 1, args)
    ensures Default(needs[1..], k + 1, args) == Default(needs, k, args)
  {
    forall i | 0 <= i < |needs| - 1 && TakesNumber(needs[1..][i]) && k + 1 + i < |args|
      ensures IsPrintedNumber(args[k + 1 + i])
    {
      assert needs[1..][i] == needs[i + 1];
      assert IsPrintedNumber(args[k + (i + 1)]);
    }
  }

  lemma HeadWord(need: Need, k: nat, args: seq<string>)
    requires InTurn([need], k) && k < |args| && (TakesNumber(need) ==> IsPrintedNumber(args[k]))
    requires Take(need, args).Ok?
    ensures Words(Take(need, args).value) == [args[k]]
  {
    assert [need][0] == need;
  }

  lemma LastMayBeMissing(needs: seq<Need>, k: nat, args: seq<string>)
    requires needs != [] && InTurn(needs, k) && |args| == k && Take(needs[0], args).Ok?
    ensures needs[1..] == []
    ensures Words(Take(needs[0], args).value) + AllWords([]) == Default(needs, k, args)
  {
    assert Show(1) == "1";
  }

  // ---- the arguments of a printed action ----

  function MaybeTextOf(f: Field): Option<string> {
    if f.MaybeText? then f.maybeText else None
  }

  function MaybeNumberOf(f: Field): Option<u64> {
    if f.MaybeNumber? then f.maybeNumber else None
  }

  /** The arguments a typed action is lowered from. */
  function CanonicalArgs(name: CommandName, fields: seq<Field>): seq<string>
    requires IsTyped(FieldsOf(name), fields)
  {
    match name
    case Cloak => if fields[0].flag then [] else ["off"]
    case Refuel => CanonicalRefuel(fields[0].maybeText, fields[1].maybeNumber)
    case Repair => CanonicalRepair(fields[0].maybeText, fields[2].maybeText, fields[1].maybeNumber)
    case _ => AllWords(fields)
  }

  function CanonicalRepair(target: Option<string>, item: Option<string>, quantity: Option<u64>): seq<string> {
    if target.None? then []
    else if item.None? then [target.value]
    else [target.value, item.value] + (if quantity.Some? then [Show(quantity.value)] else [])
  }

  /** The words the action is printed with. */
  function PrintedArgs(name: CommandName, fields: seq<Field>): seq<string>
    requires IsTyped(FieldsOf(name), fields)
  {
    match name
    case Refuel => RefuelTokens(fields[0].maybeText, fields[1].maybeNumber)
    case Repair => RepairTokens(fields[0].maybeText, fields[2].maybeText, fields[1].maybeNumber)
    case UnloadPassenger => UnloadTokens(fields[0].text, fields[1].maybeText)
    case ModifyOrder => [fields[0].text, "at", Show(fields[1].number)]
    case _ => CanonicalArgs(name, fields)
  }

  /** The actions whose printed form is the common shape of commands; the others have statements of their own. */
  predicate IsPrintedAsCommand(name: CommandName) {
    name != Buy && name != Sell && name != Craft && name != Recycle && name != CommissionShip && name != Say
  }

  /** The parser reads the printed words as they are meant. */
  predicate ParsesAsWritten(name: CommandName, fields: seq<Field>)
    requires IsTyped(FieldsOf(name), fields)
  {
    && (name == Repair ==> fields[0].maybeText != Some("with"))
    && (name == ModifyOrder ==> fields[1].number > 0)
  }

  /** Lowering takes the arguments as they are meant. */
  predicate LowersAsWritten(name: CommandName, fields: seq<Field>)
    requires IsTyped(FieldsOf(name), fields)
  {
    && (name == Refuel ==> fields[0].maybeText.Some? ==> ParseU64(fields[0].maybeText.value).None?)
    && (name == Repair ==>
          && (fields[0].maybeText.None? ==> fields[2].maybeText.None?)
          && (fields[2].maybeText.None? ==> fields[1].maybeNumber.None?))
    && (name == TradeOffer ==> !Trade.IsEmptyOffer(fields[0].offer))
  }

  // ---- lowering what was printed ----

  lemma PlainLowers(name: CommandName, fields: seq<Field>)
    requires IsTyped(FieldsOf(name), fields) && IsPlainRecipe(RecipeOf(name))
    ensures LowerCommand(Known(name), AllWords(fields)) == Ok(fields)
  {
    var recipe := RecipeOf(name);
    RecipeFitsAction(name);
    RecipeTakesItsKinds(recipe);
    PlainIsInTurn(recipe);
    assert AllWords(fields)[0..] == AllWords(fields);
    TakesItsWords(Needs(recipe), fields, 0, AllWords(fields));
    WordsFitArity(name, fields);
  }

  lemma WordsFitArity(name: CommandName, fields: seq<Field>)
    requires IsTyped(FieldsOf(name), fields)
    ensures ArityAllows(name, |AllWords(fields)|)
  {
    if |FieldsOf(name)| == 1 {
      assert fields[1..] == [];
      assert AllWords(fields) == Words(fields[0]) + AllWords(fields[1..]);
    }
  }

  lemma PlainIsNotOdd(name: CommandName)
    requires IsPlainRecipe(RecipeOf(name))
    ensures name != Cloak && name != Refuel && name != Repair && name != TradeOffer
  {}

  lemma PlainWords(name: CommandName, fields: seq<Field>)
    requires IsTyped(FieldsOf(name), fields) && IsPlainRecipe(RecipeOf(name))
    ensures CanonicalArgs(name, fields) == AllWords(fields)
    ensures LowersAsWritten(name, fields)
  {
    PlainIsNotOdd(name);
  }

  lemma SwitchLowers(on: bool)
    ensures LowerCommand(Known(Cloak), if on then [] else ["off"]) == Ok([Flag(on)])
  {
    var args := if on then [] else ["off"];
    TakeOneMore(OnUnlessOff, [], args);
    assert [OnUnlessOff] + [] == [OnUnlessOff] && [Flag(on)] + [] == [Flag(on)];
  }

  lemma ListLowers(texts: seq<string>)
    ensures LowerCommand(Known(Find), texts) == Ok([Texts(texts)])
  {
    TakeOneMore(AllTexts, [], texts);
    assert [AllTexts] + [] == [AllTexts] && [Texts(texts)] + [] == [Texts(texts)];
  }

  lemma RepairLowersBack(target: Option<string>, quantity: Option<u64>, item: Option<string>)
    ensures LowerCommand(Known(Repair), CanonicalRepair(target, item, quantity))
            == Ok([MaybeText(target), MaybeNumber(quantity), MaybeText(item)])
            <==> (target.None? ==> item.None?) && (item.None? ==> quantity.None?)
  {
    if quantity.Some? { ParseU64OfShow(quantity.value); }
    RepairLowers(CanonicalRepair(target, item, quantity));
  }

  lemma TradeLowersBack(o: Trade.TradeOffer)
    ensures LowerCommand(Known(TradeOffer), Trade.OfferTokens(o)) == Ok([Offer(o)]) <==> !Trade.IsEmptyOffer(o)
  {
    TradeTakes(Trade.OfferTokens(o));
    Trade.TradeOfferRoundTrip(o);
    if Trade.OfferOf(Trade.OfferTokens(o)).Ok? {
      var back := Trade.OfferOf(Trade.OfferTokens(o)).value;
      assert [Offer(back)][0] == Offer(back);
      assert [Offer(back)] == [Offer(o)] <==> back == o;
    }
  }

  lemma OneField(f: Field)
    ensures AllWords([f]) == Words(f)
  {
    assert [f][1..] == [];
    assert Words(f) + [] == Words(f);
  }

  /** Lowering gives the action back from its own arguments, exactly when they can carry it. */
  lemma CanonicalLowers(name: CommandName, fields: seq<Field>)
    requires IsTyped(FieldsOf(name), fields) && IsPrintedAsCommand(name)
    ensures LowerCommand(Known(name), CanonicalArgs(name, fields)) == Ok(fields) <==> LowersAsWritten(name, fields)
  {
    if IsPlainRecipe(RecipeOf(name)) {
      PlainLowers(name, fields);
      PlainWords(name, fields);
    } else {
      OddOnes(name);
      OddLowers(name, fields);
    }
  }

  lemma OddOnes(name: CommandName)
    requires IsPrintedAsCommand(name) && !IsPlainRecipe(RecipeOf(name))
    ensures name == Cloak || name == Find || name == Repair || name == Refuel || name == TradeOffer
  {}

  lemma SwitchOrListLowers(name: CommandName, fields: seq<Field>)
    requires IsTyped(FieldsOf(name), fields) && (name == Cloak || name == Find)
    ensures LowerCommand(Known(name), CanonicalArgs(name, fields)) == Ok(fields) && LowersAsWritten(name, fields)
  {
    assert fields == [fields[0]];
    if name == Cloak {
      SwitchLowers(fields[0].flag);
    } else {
      ListLowers(fields[0].texts);
      OneField(fields[0]);
    }
  }

  lemma ServiceLowers(name: CommandName, fields: seq<Field>)
    requires IsTyped(FieldsOf(name), fields) && (name == Repair || name == Refuel)
    ensures LowerCommand(Known(name), CanonicalArgs(name, fields)) == Ok(fields) <==> LowersAsWritten(name, fields)
  {
    if name == Repair {
      RepairLowersBack(fields[0].maybeText, fields[1].maybeNumber, fields[2].maybeText);
      assert fields == [fields[0], fields[1], fields[2]];
    } else {
      RefuelLowers(fields[0].maybeText, fields[1].maybeNumber);
      assert fields == [fields[0], fields[1]];
    }
  }

  lemma OfferLowers(fields: seq<Field>)
    requires IsTyped(FieldsOf(TradeOffer), fields)
    ensures LowerCommand(Known(TradeOffer), CanonicalArgs(TradeOffer, fields)) == Ok(fields)
            <==> LowersAsWritten(TradeOffer, fields)
  {
    TradeLowersBack(fields[0].offer);
    OneField(fields[0]);
    assert fields == [fields[0]];
  }

  lemma OddLowers(name: CommandName, fields: seq<Field>)
    requires IsTyped(FieldsOf(name), fields)
    requires name == Cloak || name == Find || name == Repair || name == Refuel || name == TradeOffer
    ensures LowerCommand(Known(name), CanonicalArgs(name, fields)) == Ok(fields) <==> LowersAsWritten(name, fields)
  {
    if name == Cloak || name == Find {
      SwitchOrListLowers(name, fields);
    } else if name == TradeOffer {
      OfferLowers(fields);
    } else {
      ServiceLowers(name, fields);
    }
  }

  /** The arguments a catalogued command was accepted with are the words of its fields, and the count left out is one. */
  lemma FieldsAreTheArguments(name: CommandName, args: seq<string>)
    requires IsCatalogued(name) && IsAccepted(args, Spec(name)) && IsPlainRecipe(RecipeOf(name))
    requires name != CommissionShip && LowerCommand(Known(name), args).Ok?
    ensures AllWords(LowerCommand(Known(name), args).value) == args + Default(Needs(RecipeOf(name)), 0, args)
  {
    var needs := Needs(RecipeOf(name));
    PlainIsInTurn(RecipeOf(name));
    NoMoreThanIsTaken(name);
    forall i | 0 <= i < |needs| && TakesNumber(needs[i]) && 0 + i < |args| ensures IsPrintedNumber(args[0 + i]) {
      NumberIsAskedFor(name, i);
      assert IsNumberWhereAsked(args, Spec(name), i);
      IntegerTokenIsPrinted(args[i]);
    }
    WordsAreTheArguments(needs, 0, args);
    assert args[0..] == args;
  }

  lemma NumberIsAskedFor(name: CommandName, i: nat)
    requires IsCatalogued(name) && i < |Needs(RecipeOf(name))| && TakesNumber(Needs(RecipeOf(name))[i])
    requires IsPlainRecipe(RecipeOf(name))
    ensures Needs(RecipeOf(name))[i].index == i && KindAt(Spec(name), i) == IntegerArg
  {
    PlainIsInTurn(RecipeOf(name));
    LateTakesNoNumbers(name);
    CatalogGuaranteesLowering(name, i);
  }

  lemma LateTakesNoNumbers(name: CommandName)
    ensures ChecksShapeLate(name) ==>
              forall i | 0 <= i < |Needs(RecipeOf(name))| :: !TakesNumber(Needs(RecipeOf(name))[i])
  {}

  lemma NoMoreThanIsTaken(name: CommandName)
    requires IsCatalogued(name) && IsPlainRecipe(RecipeOf(name)) && name != CommissionShip
    ensures |Spec(name)| == |Needs(RecipeOf(name))| && !IsVariadic(Spec(name))
  {
    SignatureFitsRecipe(name);
    SignatureLength(SignatureOf(name), RecipeOf(name));
  }

  predicate TakesAll(signature: Signature, recipe: Recipe) {
    match recipe
    case TakeNothing => signature.NoArguments?
    case TakeText =>
      || signature.OneAny? || signature.OneItem? || signature.OneShip? || signature.OneListing? || signature.OneMission?
      || signature.OnePoi? || signature.OneModule? || signature.OneGoTarget?
    case TakeMaybeText => signature.MayAny? || signature.MayItem?
    case TakeNumber => signature.OneInteger?
    case TakeTextNumber => signature.AnyAndInteger? || signature.ShipAndInteger?
    case TakeTwoTexts => signature.TwoAny? || signature.AnyAndShip?
    case TakeTextMaybeText => signature.AnyMayAny?
    case TakeTextCount => signature.RecipeMayInteger? || signature.ItemMayInteger?
    case TakeTextFlag => signature.TwoAny?
    case TakeTwoTextsNumber => signature.AnyItemInteger?
    case TakeTwoTextsMaybeText => signature.SayArguments?
    case _ => false
  }

  lemma SignatureFitsRecipe(name: CommandName)
    requires IsCatalogued(name) && IsPlainRecipe(RecipeOf(name)) && name != CommissionShip
    ensures TakesAll(SignatureOf(name), RecipeOf(name))
  {}

  lemma SignatureLength(signature: Signature, recipe: Recipe)
    requires TakesAll(signature, recipe)
    ensures |Arguments(signature)| == |Needs(recipe)| && !IsVariadic(Arguments(signature))
  {}

  lemma {:induction false} ShowOfValue(s: string)
    requires s != "" && AllDigits(s) && (s[0] != '0' || |s| == 1)
    ensures Show(Value(s)) == s
    ensures |s| > 1 ==> Value(s) >= 10
    decreases |s|
  {
    var init, last := s[..|s| - 1], s[|s| - 1];
    assert last in s && s == init + [last];
    LastDigit(last);
    if init == "" {
      assert Value(init) == 0;
    } else {
      assert forall c | c in init :: c in s;
      assert init[0] == s[0];
      ShowOfValue(init);
      PositiveValue(init);
      ShowOneMore(Value(init), last);
    }
  }

  lemma ShowOneMore(n: nat, last: char)
    requires n > 0 && IsAsciiDigit(last) && DigitValue(last) < 10 && Digit(DigitValue(last)) == last
    ensures Show(n * 10 + DigitValue(last)) == Show(n) + [last]
  {
    assert (n * 10 + DigitValue(last)) / 10 == n && (n * 10 + DigitValue(last)) % 10 == DigitValue(last);
  }

  lemma LastDigit(c: char)
    requires IsAsciiDigit(c)
    ensures DigitValue(c) < 10 && Digit(DigitValue(c)) == c
  {}

  lemma PositiveValue(s: string)
    requires s != "" && AllDigits(s) && Show(Value(s)) == s && s[0] != '0'
    ensures Value(s) > 0
  {
    assert Show(0) == "0";
  }

  lemma IntegerTokenIsPrinted(s: string)
    requires IsIntegerToken(s)
    ensures IsPrintedNumber(s)
  {
    assert s[0] in s;
    ShowOfValue(s);
  }

  // ---- from the text ----

  /** A spelling that stands for the command and is printed and lexed as one word. */
  predicate IsSpelling(spelling: string, name: CommandName, known: Spellings) {
    && IsPlain(spelling) && IsIdentStart(spelling[0]) && !("say" <= spelling)
    && NameOf(spelling, known) == Known(name)
    && (match name
        case ModifyOrder => spelling == "modify_order"
        case UnloadPassenger => spelling == "unload_passenger"
        case Refuel => spelling == "refuel"
        case Repair => spelling == "repair"
        case _ => !HasOwnGrammar(spelling))
  }

  /** The words the parser treats in a way of their own. */
  predicate HasOwnGrammar(spelling: string) {
    spelling == "transfer" || spelling == "craft" || spelling == "recycle" || spelling == "buy" || spelling == "sell"
    || spelling == "commission_ship" || spelling == "modify_order" || spelling == "unload_passenger"
    || spelling == "refuel" || spelling == "repair"
  }

  lemma CommonShape(c: Command, known: Spellings, span: Span)
    requires !HasOwnGrammar(c.name)
    ensures StatementOf(c, known, span) == Ok(CommandStatement(NameOf(c.name, known), c.args, span))
  {}

  lemma OwnShape(name: CommandName, c: Command, known: Spellings, span: Span)
    requires HasOwnShape(name) && IsSpelling(c.name, name, known)
    ensures StatementOf(c, known, span) == CommandOf(c.name, Rearranged(name, c.args), known, span)
  {}

  lemma TwoFields(fields: seq<Field>)
    requires |fields| == 2
    ensures AllWords(fields) == Words(fields[0]) + Words(fields[1])
  {
    assert fields[1..] == [fields[1]];
    OneField(fields[1]);
  }

  predicate HasOwnShape(name: CommandName) {
    name == ModifyOrder || name == UnloadPassenger || name == Refuel || name == Repair
  }

  /** How the parser rearranges the words of the four commands with keywords of their own. */
  function Rearranged(name: CommandName, args: seq<string>): Result<seq<string>, ParseError> {
    match name
    case ModifyOrder => ModifyOrderArgs(args)
    case UnloadPassenger => UnloadArgs(args)
    case Refuel => RefuelArgs(args)
    case Repair => RepairArgs(args)
    case _ => Ok(args)
  }

  lemma RefuelParses(fields: seq<Field>)
    requires IsTyped(FieldsOf(Refuel), fields)
    ensures RefuelArgs(PrintedArgs(Refuel, fields)) == Ok(CanonicalArgs(Refuel, fields))
  {
    RefuelCanonical(fields[0].maybeText, fields[1].maybeNumber);
  }

  lemma RepairFieldsParse(fields: seq<Field>)
    requires IsTyped(FieldsOf(Repair), fields)
    ensures RepairArgs(PrintedArgs(Repair, fields))
            == if fields[0].maybeText == Some("with") then Err(BadShape) else Ok(CanonicalArgs(Repair, fields))
  {
    RepairParses(fields[0].maybeText, fields[2].maybeText, fields[1].maybeNumber);
  }

  lemma OwnShapeParses(name: CommandName, fields: seq<Field>)
    requires IsTyped(FieldsOf(name), fields) && HasOwnShape(name)
    ensures Rearranged(name, PrintedArgs(name, fields))
            == if ParsesAsWritten(name, fields) then Ok(CanonicalArgs(name, fields)) else Err(BadShape)
  {
    if name == ModifyOrder {
      ModifyOrderParses(fields);
    } else if name == UnloadPassenger {
      UnloadParses(fields);
    } else if name == Refuel {
      RefuelParses(fields);
    } else {
      RepairFieldsParse(fields);
    }
  }

  lemma ModifyOrderParses(fields: seq<Field>)
    requires IsTyped(FieldsOf(ModifyOrder), fields)
    ensures ModifyOrderArgs(PrintedArgs(ModifyOrder, fields))
            == if fields[1].number > 0 then Ok(CanonicalArgs(ModifyOrder, fields)) else Err(BadShape)
  {
    TwoFields(fields);
    ModifyOrderCanonical(fields[0].text, fields[1].number);
    assert [fields[0].text] + [Show(fields[1].number)] == [fields[0].text, Show(fields[1].number)];
  }

  lemma UnloadParses(fields: seq<Field>)
    requires IsTyped(FieldsOf(UnloadPassenger), fields)
    ensures UnloadArgs(PrintedArgs(UnloadPassenger, fields)) == Ok(CanonicalArgs(UnloadPassenger, fields))
  {
    TwoFields(fields);
    UnloadCanonical(fields[0].text, fields[1].maybeText);
  }

  /** The printed words parse to the arguments the action is lowered from. */
  lemma PrintedParses(name: CommandName, spelling: string, fields: seq<Field>, known: Spellings, span: Span)
    requires IsTyped(FieldsOf(name), fields) && IsPrintedAsCommand(name) && IsSpelling(spelling, name, known)
    ensures StatementOf(Command(spelling, PrintedArgs(name, fields)), known, span)
            == if ParsesAsWritten(name, fields)
               then Ok(CommandStatement(Known(name), CanonicalArgs(name, fields), span)) else Err(BadShape)
  {
    if HasOwnShape(name) {
      OwnShape(name, Command(spelling, PrintedArgs(name, fields)), known, span);
      OwnShapeParses(name, fields);
    } else {
      CommonShape(Command(spelling, PrintedArgs(name, fields)), known, span);
      assert PrintedArgs(name, fields) == CanonicalArgs(name, fields);
    }
  }

  lemma UnloadCanonical(name: string, target: Option<string>)
    ensures UnloadArgs(UnloadTokens(name, target)) == Ok([name] + (if target.Some? then [target.value] else []))
  {
    assert [name] + (if target.Some? then [target.value] else [])
        == if target.Some? then [name, target.value] else [name];
  }

  lemma RepairParses(target: Option<string>, item: Option<string>, quantity: Option<u64>)
    ensures RepairArgs(RepairTokens(target, item, quantity))
            == if target == Some("with") then Err(BadShape) else Ok(CanonicalRepair(target, item, quantity))
  {
    if target.Some? { RepairCanonical(target.value, item, quantity); }
  }

  /** Analysis leaves the argument as it is. */
  predicate IsKept(arg: string, kind: ArgType, obs: Observation) {
    if kind == IntegerArg then ParseI64(arg).Some? && ShowInt(ParseI64(arg).value) == arg
    else IsCanonical(kind, arg, obs)
  }

  predicate AreKept(args: seq<string>, spec: seq<ArgSpec>, i: nat, obs: Observation) {
    forall j | i <= j < |args| :: IsKept(args[j], KindAt(spec, j), obs)
  }

  lemma OneIsKept(arg: string, i: nat, kind: ArgType, span: Span, obs: Observation)
    ensures AnalyzeArg(arg, i, kind, span, obs) == Outcome(arg, []) <==> IsKept(arg, kind, obs)
  {}

  lemma {:induction false} KeptIsUnchanged(args: seq<string>, i: nat, spec: seq<ArgSpec>, span: Span, obs: Observation)
    requires i <= |args|
    ensures AnalyzeArgs(args, i, spec, span, obs) == Outcome(args[i..], []) <==> AreKept(args, spec, i, obs)
    decreases |args| - i
  {
    if i < |args| {
      KeptIsUnchanged(args, i + 1, spec, span, obs);
      var first := AnalyzeArg(args[i], i, KindAt(spec, i), span, obs);
      var rest := AnalyzeArgs(args, i + 1, spec, span, obs);
      OneIsKept(args[i], i, KindAt(spec, i), span, obs);
      OutcomeIsBoth(first, rest, args[i..]);
      assert args[i..][1..] == args[i + 1..];
      assert AreKept(args, spec, i, obs) <==> IsKept(args[i], KindAt(spec, i), obs) && AreKept(args, spec, i + 1, obs);
    } else {
      assert args[i..] == [];
    }
  }

  lemma OutcomeIsBoth(first: Outcome<string>, rest: Outcome<seq<string>>, args: seq<string>)
    requires args != []
    ensures Outcome([first.value] + rest.value, first.errors + rest.errors) == Outcome(args, [])
            <==> first == Outcome(args[0], []) && rest == Outcome(args[1..], [])
  {
    assert |first.errors + rest.errors| == |first.errors| + |rest.errors|;
    assert ([first.value] + rest.value)[0] == first.value && ([first.value] + rest.value)[1..] == rest.value;
    assert args == [args[0]] + args[1..];
  }

  lemma NothingElseHasThisForm(name: CommandName, fields: seq<Field>)
    requires IsPrintedAsCommand(name)
    ensures ActionFor(name, fields) == CommandAction(name, fields)
  {}

  lemma CommandMeans(name: CommandName, args: seq<string>, fields: seq<Field>, span: Span, obs: Observation)
    requires IsPrintedAsCommand(name)
    ensures var analyzed := AnalyzeArgs(args, 0, Spec(name), span, obs);
            MeaningOf(CommandStatement(Known(name), args, span), obs) == Some(CommandAction(name, fields))
            <==> analyzed.errors == [] && LowerCommand(Known(name), analyzed.value) == Ok(fields)
  {
    var analyzed := AnalyzeArgs(args, 0, Spec(name), span, obs);
    if LowerCommand(Known(name), analyzed.value).Ok? {
      NothingElseHasThisForm(name, LowerCommand(Known(name), analyzed.value).value);
    }
  }

  // ---- nothing but the arguments themselves lowers to the action ----

  lemma {:induction false} NoErrorsMeansNone(args: seq<string>, i: nat, spec: seq<ArgSpec>, span: Span,
                                             obs: Observation, k: nat)
    requires i <= k < |args| && AnalyzeArgs(args, i, spec, span, obs).errors == []
    ensures AnalyzeArg(args[k], k, KindAt(spec, k), span, obs).errors == []
    decreases k - i
  {
    var first, rest := AnalyzeArg(args[i], i, KindAt(spec, i), span, obs), AnalyzeArgs(args, i + 1, spec, span, obs);
    assert |first.errors + rest.errors| == |first.errors| + |rest.errors|;
    if i < k { NoErrorsMeansNone(args, i + 1, spec, span, obs, k); }
  }

  lemma OneAnalyzed(arg: string, k: nat, kind: ArgType, span: Span, obs: Observation)
    requires AnalyzeArg(arg, k, kind, span, obs).errors == []
    ensures kind == AnyArg ==> AnalyzeArg(arg, k, kind, span, obs).value == arg
    ensures kind == IntegerArg ==>
              ParseI64(arg).Some? && AnalyzeArg(arg, k, kind, span, obs).value == ShowInt(ParseI64(arg).value)
  {}

  /** What analysis without complaints makes of the `k`-th argument. */
  lemma AnalyzedArg(args: seq<string>, spec: seq<ArgSpec>, span: Span, obs: Observation, k: nat, now: string)
    requires k < |args| && AnalyzeArgs(args, 0, spec, span, obs).errors == []
    requires now == AnalyzeArgs(args, 0, spec, span, obs).value[k]
    ensures KindAt(spec, k) == AnyArg ==> now == args[k]
    ensures KindAt(spec, k) == IntegerArg ==> ParseI64(args[k]).Some? && now == ShowInt(ParseI64(args[k]).value)
  {
    NoErrorsMeansNone(args, 0, spec, span, obs, k);
    ArgsAreAnalyzed(args, 0, spec, span, obs, k);
    OneAnalyzed(args[k], k, KindAt(spec, k), span, obs);
  }

  lemma PrintedNumberStays(n: u64)
    ensures ParseI64(Show(n)).Some? ==> ShowInt(ParseI64(Show(n)).value) == Show(n)
  {
    ParseI64OfShow(n);
  }

  lemma NegativeIsNoU64(n: int)
    requires n < 0
    ensures ParseU64(ShowInt(n)).None?
  {
    assert ShowInt(n)[0] == '-';
    assert WithoutPlus(ShowInt(n)) == ShowInt(n);
    assert '-' in ShowInt(n);
  }

  lemma ShownIntIsPrinted(n: int)
    ensures ParseU64(ShowInt(n)).Some? ==> IsPrintedNumber(ShowInt(n))
  {
    if n >= 0 { ParseU64OfShow(n); } else { NegativeIsNoU64(n); }
  }

  lemma {:induction false} NoMoreWordsThanFields(kinds: seq<FieldKind>, fields: seq<Field>)
    requires IsTyped(kinds, fields) && TextsField !in kinds && OfferField !in kinds
    ensures |AllWords(fields)| <= |fields|
    decreases |fields|
  {
    if fields != [] {
      assert kinds[0] in kinds && KindOf(fields[0]) == kinds[0];
      assert forall k | k in kinds[1..] :: k in kinds;
      NoMoreWordsThanFields(kinds[1..], fields[1..]);
    }
  }

  lemma {:induction false} TakenNumberParses(needs: seq<Need>, args: seq<string>, i: nat)
    requires TakeAll(needs, args).Ok? && i < |needs| && TakesNumber(needs[i]) && needs[i].index < |args|
    ensures ParseU64(args[needs[i].index]).Some?
    decreases i
  {
    TakenFirstAndRest(needs, args);
    if i > 0 { TakenNumberParses(needs[1..], args, i - 1); }
  }

  /** A catalogued command in turn: analysed arguments that lower to the action are its own words. */
  lemma PlainIsKept(name: CommandName, fields: seq<Field>, span: Span, obs: Observation)
    requires IsTyped(FieldsOf(name), fields) && IsCatalogued(name) && IsPlainRecipe(RecipeOf(name))
    requires AnalyzeArgs(AllWords(fields), 0, Spec(name), span, obs).errors == []
    requires LowerCommand(Known(name), AnalyzeArgs(AllWords(fields), 0, Spec(name), span, obs).value) == Ok(fields)
    ensures AnalyzeArgs(AllWords(fields), 0, Spec(name), span, obs).value == AllWords(fields)
  {
    var needs, args := Needs(RecipeOf(name)), AllWords(fields);
    var now := AnalyzeArgs(args, 0, Spec(name), span, obs).value;
    PlainIsInTurn(RecipeOf(name));
    forall i | 0 <= i < |needs| && TakesNumber(needs[i]) && 0 + i < |now| ensures IsPrintedNumber(now[0 + i]) {
      NumberIsAskedFor(name, i);
      AnalyzedArg(args, Spec(name), span, obs, i, now[i]);
      TakenNumberParses(needs, now, i);
      ShownIntIsPrinted(ParseI64(args[i]).value);
    }
    FieldsOfPlain(name, fields);
    WordsAreTheArguments(needs, 0, now);
    assert now[0..] == now;
  }

  lemma FieldsOfPlain(name: CommandName, fields: seq<Field>)
    requires IsTyped(FieldsOf(name), fields) && IsPlainRecipe(RecipeOf(name))
    ensures |AllWords(fields)| <= |Needs(RecipeOf(name))|
  {
    RecipeFitsAction(name);
    RecipeTakesItsKinds(RecipeOf(name));
    NoMoreWordsThanFields(FieldsOf(name), fields);
  }

  predicate TakesAnything(name: CommandName) {
    name == Halt || name == Wait || name == Cloak || name == Find || name == TradeOffer
  }

  lemma AnyKind(name: CommandName, k: nat)
    requires TakesAnything(name)
    ensures KindAt(Spec(name), k) == AnyArg
  {}

  /** The commands none of whose arguments are looked at. */
  lemma AnythingIsKept(name: CommandName, args: seq<string>, span: Span, obs: Observation)
    requires TakesAnything(name)
    ensures AnalyzeArgs(args, 0, Spec(name), span, obs).value == args
  {
    forall k | 0 <= k < |args| ensures KindAt(Spec(name), k) == AnyArg { AnyKind(name, k); }
    AnyArgsAreKept(args, 0, Spec(name), span, obs);
    assert args[0..] == args;
  }

  lemma RepairKinds()
    ensures KindAt(Spec(Repair), 0) == AnyArg && KindAt(Spec(Repair), 2) == IntegerArg
  {}

  lemma RepairWords(target: Option<string>, quantity: Option<u64>, item: Option<string>)
    ensures var args := CanonicalRepair(target, item, quantity);
            && |args| <= 3 && (|args| > 1 ==> item == Some(args[1]))
            && (|args| > 2 ==> IsPrintedNumber(args[2]))
  {
    if quantity.Some? { ParseU64OfShow(quantity.value); }
  }

  lemma NumberIsKept(args: seq<string>, spec: seq<ArgSpec>, span: Span, obs: Observation, k: nat, now: string)
    requires k < |args| && AnalyzeArgs(args, 0, spec, span, obs).errors == []
    requires now == AnalyzeArgs(args, 0, spec, span, obs).value[k]
    requires KindAt(spec, k) == IntegerArg && IsPrintedNumber(args[k])
    ensures now == args[k]
  {
    AnalyzedArg(args, spec, span, obs, k, now);
    PrintedNumberStays(ParseU64(args[k]).value);
  }

  lemma UpToThreeAgree(a: seq<string>, b: seq<string>)
    requires |a| == |b| <= 3
    requires (|a| > 0 ==> a[0] == b[0]) && (|a| > 1 ==> a[1] == b[1]) && (|a| > 2 ==> a[2] == b[2])
    ensures a == b
  {}

  /** Analysis keeps a word, a looked-up name that lowering has seen unchanged, and a printed number. */
  lemma RepairIsKept(args: seq<string>, spec: seq<ArgSpec>, item: Option<string>, span: Span, obs: Observation)
    requires KindAt(spec, 0) == AnyArg && KindAt(spec, 2) == IntegerArg
    requires |args| <= 3 && (|args| > 1 ==> item == Some(args[1])) && (|args| > 2 ==> IsPrintedNumber(args[2]))
    requires AnalyzeArgs(args, 0, spec, span, obs).errors == []
    requires ArgAt(AnalyzeArgs(args, 0, spec, span, obs).value, 1) == item
    ensures AnalyzeArgs(args, 0, spec, span, obs).value == args
  {
    var now := AnalyzeArgs(args, 0, spec, span, obs).value;
    if |args| > 0 { AnalyzedArg(args, spec, span, obs, 0, now[0]); }
    if |args| > 2 { NumberIsKept(args, spec, span, obs, 2, now[2]); }
    UpToThreeAgree(now, args);
  }

  lemma RepairTakesItem(args: seq<string>)
    ensures var r := LowerCommand(Known(Repair), args);
            r.Ok? ==> |r.value| == 3 && r.value[2] == MaybeText(ArgAt(args, 1))
  {
    if Take(MaybeNumberAt(2), args).Ok? {
      TakeThree(MaybeTextAt(0), MaybeNumberAt(2), MaybeTextAt(1), args);
    } else {
      TakeOneMore(MaybeTextAt(0), [MaybeNumberAt(2), MaybeTextAt(1)], args);
      TakeOneMore(MaybeNumberAt(2), [MaybeTextAt(1)], args);
      assert [MaybeNumberAt(2)] + [MaybeTextAt(1)] == [MaybeNumberAt(2), MaybeTextAt(1)];
      assert [MaybeTextAt(0)] + [MaybeNumberAt(2), MaybeTextAt(1)] == Needs(TakeRepair);
    }
  }

  /** A word that is looked at by nobody, and a printed number after it. */
  lemma WordAndNumberAreKept(args: seq<string>, spec: seq<ArgSpec>, span: Span, obs: Observation)
    requires KindAt(spec, 0) == AnyArg && KindAt(spec, 1) == IntegerArg
    requires |args| <= 2 && (|args| == 2 ==> IsPrintedNumber(args[1]))
    requires AnalyzeArgs(args, 0, spec, span, obs).errors == []
    ensures AnalyzeArgs(args, 0, spec, span, obs).value == args
  {
    var now := AnalyzeArgs(args, 0, spec, span, obs).value;
    forall k | 0 <= k < |args| ensures now[k] == args[k] {
      AnalyzedArg(args, spec, span, obs, k, now[k]);
      if k == 1 { PrintedNumberStays(ParseU64(args[1]).value); }
    }
  }

  lemma RefuelKinds()
    ensures KindAt(Spec(Refuel), 0) == AnyArg && KindAt(Spec(Refuel), 1) == IntegerArg
  {}

  lemma RefuelEndsInNumber(target: Option<string>, quantity: Option<u64>)
    ensures |CanonicalRefuel(target, quantity)| <= 2
    ensures |CanonicalRefuel(target, quantity)| == 2 ==> IsPrintedNumber(CanonicalRefuel(target, quantity)[1])
  {
    if quantity.Some? { ParseU64OfShow(quantity.value); }
  }

  predicate IsUnderstoodAs(name: CommandName, args: seq<string>, fields: seq<Field>, span: Span, obs: Observation) {
    var analyzed := AnalyzeArgs(args, 0, Spec(name), span, obs);
    analyzed.errors == [] && LowerCommand(Known(name), analyzed.value) == Ok(fields)
  }

  lemma RepairFieldsAreKept(fields: seq<Field>, args: seq<string>, span: Span, obs: Observation)
    requires IsTyped(FieldsOf(Repair), fields) && args == CanonicalArgs(Repair, fields)
    requires IsUnderstoodAs(Repair, args, fields, span, obs)
    ensures AnalyzeArgs(args, 0, Spec(Repair), span, obs).value == args
  {
    RepairTakesItem(AnalyzeArgs(args, 0, Spec(Repair), span, obs).value);
    RepairWords(fields[0].maybeText, fields[1].maybeNumber, fields[2].maybeText);
    RepairKinds();
    RepairIsKept(args, Spec(Repair), fields[2].maybeText, span, obs);
  }

  lemma RefuelFieldsAreKept(fields: seq<Field>, args: seq<string>, span: Span, obs: Observation)
    requires IsTyped(FieldsOf(Refuel), fields) && args == CanonicalArgs(Refuel, fields)
    requires AnalyzeArgs(args, 0, Spec(Refuel), span, obs).errors == []
    ensures AnalyzeArgs(args, 0, Spec(Refuel), span, obs).value == args
  {
    RefuelKinds();
    RefuelEndsInNumber(fields[0].maybeText, fields[1].maybeNumber);
    WordAndNumberAreKept(args, Spec(Refuel), span, obs);
  }

  lemma OnlyItsArguments(name: CommandName, fields: seq<Field>, span: Span, obs: Observation)
    requires IsTyped(FieldsOf(name), fields) && IsPrintedAsCommand(name)
    requires IsUnderstoodAs(name, CanonicalArgs(name, fields), fields, span, obs)
    ensures AnalyzeArgs(CanonicalArgs(name, fields), 0, Spec(name), span, obs).value == CanonicalArgs(name, fields)
  {
    if TakesAnything(name) {
      AnythingIsKept(name, CanonicalArgs(name, fields), span, obs);
    } else if name == Repair {
      RepairFieldsAreKept(fields, CanonicalArgs(name, fields), span, obs);
    } else if name == Refuel {
      RefuelFieldsAreKept(fields, CanonicalArgs(name, fields), span, obs);
    } else {
      TheOthersArePlain(name);
      PlainWords(name, fields);
      PlainIsKept(name, fields, span, obs);
    }
  }

  lemma TheOthersArePlain(name: CommandName)
    requires IsPrintedAsCommand(name) && !TakesAnything(name) && name != Repair && name != Refuel
    ensures IsCatalogued(name) && IsPlainRecipe(RecipeOf(name))
  {}

  // ---- the main result ----

  lemma CanonicalMeans(name: CommandName, fields: seq<Field>, span: Span, obs: Observation)
    requires IsTyped(FieldsOf(name), fields) && IsPrintedAsCommand(name)
    ensures MeaningOf(CommandStatement(Known(name), CanonicalArgs(name, fields), span), obs)
            == Some(CommandAction(name, fields))
            <==> LowersAsWritten(name, fields) && AreKept(CanonicalArgs(name, fields), Spec(name), 0, obs)
  {
    var args := CanonicalArgs(name, fields);
    var analyzed := AnalyzeArgs(args, 0, Spec(name), span, obs);
    CommandMeans(name, args, fields, span, obs);
    CanonicalLowers(name, fields);
    KeptIsUnchanged(args, 0, Spec(name), span, obs);
    assert args[0..] == args;
    if analyzed.errors == [] && LowerCommand(Known(name), analyzed.value) == Ok(fields) {
      OnlyItsArguments(name, fields, span, obs);
    }
  }

  /**
   * Every action printed in the common shape means itself: its text lexes, parses, analyses and compiles to that very
   * action, if and only if the grammar and lowering can carry its words and analysis leaves them alone.
   */
  lemma CommandMeansItself(name: CommandName, spelling: string, fields: seq<Field>, known: Spellings, span: Span,
                           obs: Observation)
    requires IsTyped(FieldsOf(name), fields) && IsPrintedAsCommand(name) && IsSpelling(spelling, name, known)
    requires AllPrintable(PrintedArgs(name, fields))
    ensures ActionOf(Lexing.Statement(spelling, PrintedArgs(name, fields)), known, span, obs)
            == Some(CommandAction(name, fields))
            <==> (&& ParsesAsWritten(name, fields) && LowersAsWritten(name, fields)
                  && AreKept(CanonicalArgs(name, fields), Spec(name), 0, obs))
  {
    var args := PrintedArgs(name, fields);
    StatementLexes(spelling, args);
    PrintedParses(name, spelling, fields, known, span);
    CanonicalMeans(name, fields, span, obs);
    if ParsesAsWritten(name, fields) {
      CommandParses(Lexing.Statement(spelling, args), Command(spelling, args),
                    CommandStatement(Known(name), CanonicalArgs(name, fields), span), known, span);
    } else {
      CommandFails(Lexing.Statement(spelling, args), Command(spelling, args), known, span, obs);
    }
  }

  lemma CommandFails(text: string, c: Command, known: Spellings, span: Span, obs: Observation)
    requires LexCommand(text) == Some((c, "")) && !("say" <= c.name) && StatementOf(c, known, span).Err?
    ensures ActionOf(text, known, span, obs) == None
  {
    OnlySaySpeaks(text);
  }

  // ---- words too many ----

  /** The commands whose lowering counts the words. */
  predicate CountsWords(name: CommandName) {
    name == Halt || name == Dock || name == Undock || name == Wait || name == Mine || name == Go
  }

  /** Those that count them never pass over a word, accepted by the catalog or not. */
  lemma NoWordIsIgnored(name: CommandName, args: seq<string>)
    requires CountsWords(name) && LowerCommand(Known(name), args).Ok?
    ensures |args| <= |Needs(RecipeOf(name))|
    ensures RecipeOf(name).TakeCount? || AllWords(LowerCommand(Known(name), args).value) == args
  {
    PlainIsInTurn(RecipeOf(name));
    if !RecipeOf(name).TakeCount? {
      WordsAreTheArguments(Needs(RecipeOf(name)), 0, args);
      assert args[0..] == args;
    }
  }

  // ---- the statements that are also commands ----

  lemma BuyTakes(args: seq<string>)
    requires 2 <= |args| && ParseU64(args[1]).Some? && (|args| > 2 ==> ParseU64(args[2]).Some?)
    ensures LowerCommand(Known(Buy), args)
            == Ok([Text(args[0]), Number(ParseU64(args[1]).value),
                   MaybeNumber(if |args| > 2 then ParseU64(args[2]) else None), Flag(ArgAt(args, 3) == Some("order"))])
  {
    LoweredByTaking(Buy, TakeBuy, args);
    BuyIsTaken(Needs(TakeBuy), args);
  }

  lemma BuyIsTaken(needs: seq<Need>, args: seq<string>)
    requires needs == Needs(TakeBuy)
    requires 2 <= |args| && ParseU64(args[1]).Some? && (|args| > 2 ==> ParseU64(args[2]).Some?)
    ensures TakeAll(needs, args)
            == Ok([Text(args[0]), Number(ParseU64(args[1]).value),
                   MaybeNumber(if |args| > 2 then ParseU64(args[2]) else None), Flag(ArgAt(args, 3) == Some("order"))])
  {
    assert needs == [needs[0], needs[1], needs[2], needs[3]];
    TakeFour(needs[0], needs[1], needs[2], needs[3], args);
  }

  lemma SellIsTaken(needs: seq<Need>, args: seq<string>)
    requires needs == Needs(TakeSell)
    requires |args| > 1 ==> ParseU64(args[1]).Some?
    requires |args| > 2 ==> ParseU64(args[2]).Some?
    ensures TakeAll(needs, args)
            == Ok([MaybeText(ArgAt(args, 0)), MaybeNumber(if |args| > 1 then ParseU64(args[1]) else None),
                   MaybeNumber(if |args| > 2 then ParseU64(args[2]) else None), Flag(ArgAt(args, 3) == Some("order"))])
  {
    assert needs == [needs[0], needs[1], needs[2], needs[3]];
    TakeFour(needs[0], needs[1], needs[2], needs[3], args);
  }

  lemma SellTakes(args: seq<string>)
    requires |args| > 1 ==> ParseU64(args[1]).Some?
    requires |args| > 2 ==> ParseU64(args[2]).Some?
    ensures LowerCommand(Known(Sell), args)
            == Ok([MaybeText(ArgAt(args, 0)), MaybeNumber(if |args| > 1 then ParseU64(args[1]) else None),
                   MaybeNumber(if |args| > 2 then ParseU64(args[2]) else None), Flag(ArgAt(args, 3) == Some("order"))])
  {
    LoweredByTaking(Sell, TakeSell, args);
    SellIsTaken(Needs(TakeSell), args);
  }

  /** What a list of words means when it is lowered as a command of that name. */
  function CommandMeaning(name: CommandName, args: seq<string>): Option<Action> {
    match LowerCommand(Known(name), args)
    case Ok(fields) => Some(ActionFor(name, fields))
    case Err(_) => None
  }

  /** At most four words, whose third is not `order`. */
  predicate IsShortTrade(args: seq<string>) {
    |args| <= 4 && (|args| > 2 ==> args[2] != "order") && (|args| > 3 ==> args[3] == "order")
  }

  lemma OrderComesLast(args: seq<string>)
    requires IsShortTrade(args)
    ensures (exists k :: 2 <= k < |args| && args[k] == "order") <==> ArgAt(args, 3) == Some("order")
  {
    if |args| > 3 { assert args[3] == "order"; }
  }

  /**
   * Spelt otherwise than in lower case, `buy` and `sell` are common commands; in the legacy forms the catalog accepts
   * they mean what the statements mean.
   */
  lemma BuyMeansTheStatement(args: seq<string>)
    requires IsShortTrade(args) && BS.IsLegacyBuy(args) && BS.BuyOf(args).Ok?
    ensures CommandMeaning(Buy, args) == Some(BuyAction(BS.BuyOf(args).value))
  {
    BS.LegacyBuyReads(args);
    OrderComesLast(args);
    BuyTakes(args);
  }

  lemma SellMeansTheStatement(args: seq<string>)
    requires IsShortTrade(args) && BS.IsLegacySell(args) && BS.SellOf(args).Ok?
    ensures CommandMeaning(Sell, args) == Some(SellAction(BS.SellOf(args).value))
  {
    BS.LegacySellReads(args);
    OrderComesLast(args);
    SellTakes(args);
  }

  lemma CountTakes(recipe: string, quantity: Option<u64>)
    ensures TakeAll(Needs(TakeTextCount), [recipe] + (if quantity.Some? then [Show(quantity.value)] else []))
            == Ok([Text(recipe), Number(quantity.GetOr(1))])
  {
    var args := [recipe] + (if quantity.Some? then [Show(quantity.value)] else []);
    if quantity.Some? { ParseU64OfShow(quantity.value); }
    TakeTwo(TextAt(0), NumberOrOneAt(1), args);
  }

  function JobWords(recipe: string, quantity: Option<u64>): seq<string> {
    [recipe] + (if quantity.Some? then [Show(quantity.value)] else [])
  }

  lemma JobWordsRead(recipe: string, quantity: Option<u64>)
    requires quantity != Some(0)
    ensures C.CraftOf(JobWords(recipe, quantity)) == Ok(C.Craft(recipe, quantity.GetOr(1), C.NO_CLAUSES))
            == C.RecycleOf(JobWords(recipe, quantity))
  {
    if quantity.Some? { ParseU64OfShow(quantity.value); }
    JobReads(JobWords(recipe, quantity));
  }

  lemma JobTakes(name: CommandName, recipe: string, quantity: Option<u64>)
    requires RecipeOf(name).TakeTextCount?
    ensures LowerCommand(Known(name), JobWords(recipe, quantity)) == Ok([Text(recipe), Number(quantity.GetOr(1))])
  {
    LoweredByTaking(name, TakeTextCount, JobWords(recipe, quantity));
    CountTakes(recipe, quantity);
  }

  /** So do crafting, recycling and commissioning without clauses. */
  lemma CraftMeansTheStatement(recipe: string, quantity: Option<u64>)
    requires quantity != Some(0)
    ensures C.CraftOf(JobWords(recipe, quantity)).Ok?
    ensures CommandMeaning(Craft, JobWords(recipe, quantity))
            == Some(CraftAction(C.CraftOf(JobWords(recipe, quantity)).value))
  {
    JobTakes(Craft, recipe, quantity);
    JobWordsRead(recipe, quantity);
  }

  lemma RecycleMeansTheStatement(recipe: string, quantity: Option<u64>)
    requires quantity != Some(0)
    ensures C.RecycleOf(JobWords(recipe, quantity)).Ok?
    ensures CommandMeaning(Recycle, JobWords(recipe, quantity))
            == Some(RecycleAction(recipe, C.RecycleOf(JobWords(recipe, quantity)).value.quantity, None, None, None))
  {
    JobTakes(Recycle, recipe, quantity);
    JobWordsRead(recipe, quantity);
  }

  lemma JobReads(args: seq<string>)
    requires 1 <= |args| <= 2 && (|args| == 2 ==> IsPrintedNumber(args[1]) && ParseU64(args[1]).value > 0)
    ensures C.CraftOf(args)
            == Ok(C.Craft(args[0], if |args| == 2 then ParseU64(args[1]).value else 1, C.NO_CLAUSES))
            == C.RecycleOf(args)
  {
    if |args| == 2 {
      NumberIsNoWord(ParseU64(args[1]).value);
      assert args[1..] == [args[1]] && args[1..][1..] == [];
    } else {
      assert args[1..] == [];
    }
  }

  lemma NumberIsNoWord(n: nat)
    ensures !C.IsClauseKeyword(Show(n)) && Show(n) != "dry_run"
  {
    assert Show(n)[0] in Show(n);
  }

  lemma CommissionsMeanTheStatement(shipClass: string)
    ensures CommandMeaning(CommissionShip, [shipClass]) == Some(CommissionAction(shipClass, false))
    ensures CommissionOf([shipClass]) == Ok((shipClass, false))
  {
    TakeOneMore(TextAt(0), [], [shipClass]);
    assert [TextAt(0)] + [] == [TextAt(0)] && [Text(shipClass)] + [] == [Text(shipClass)];
  }

  /** The commands with a field that is an item, and the argument that names it. */
  function ItemArgument(name: CommandName): Option<nat> {
    match name
    case Mine | CancelBuy | CancelSell | UseItem | Sell | Buy => Some(0)
    case SupplyCommission | FacilitySetOutputPrice | Repair => Some(1)
    case _ => None
  }

  /** Items are looked up among the known items wherever a command names one, and nowhere else. */
  lemma ItemsAreLookedUp(name: CommandName, i: nat)
    requires IsCatalogued(name)
    ensures KindAt(Spec(name), i) == ItemIdArg <==> ItemArgument(name) == Some(i)
  {
    ItemSignatures(name);
    ItemPosition(SignatureOf(name), i);
  }

  function ItemPositionOf(signature: Signature): Option<nat> {
    match signature
    case MayItem | OneItem | ItemMayInteger | SellArguments | BuyArguments => Some(0)
    case AnyItemInteger | RepairArguments => Some(1)
    case _ => None
  }

  lemma NoItemSignature(name: CommandName)
    requires ItemArgument(name).None? && IsCatalogued(name)
    ensures ItemPositionOf(SignatureOf(name)).None?
  {}

  lemma ItemSignatures(name: CommandName)
    requires IsCatalogued(name)
    ensures ItemPositionOf(SignatureOf(name)) == ItemArgument(name)
  {
    if ItemArgument(name).None? { NoItemSignature(name); }
  }

  lemma ItemPosition(signature: Signature, i: nat)
    ensures KindAt(Arguments(signature), i) == ItemIdArg <==> ItemPositionOf(signature) == Some(i)
  {}
}
