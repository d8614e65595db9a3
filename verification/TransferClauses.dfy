/** The `transfer` statement: subject, endpoints, the block of items, and lowering to a request. */
module TransferClauses {
  import opened Prelude
  import opened TextTools
  import opened Decimal
  import opened Lexing
  import T = Transfers

  datatype TransferError =
    | CreditsNeedQuantity
    | ShipNeedsId
    | ModuleNeedsId
    | NotAnInteger
    | BadSubject
    | MissingEndpoint
    | PlayerNeedsName
    | CommissionNeedsId
    | UnknownEndpoint
    | DuplicateFrom
    | DuplicateTo
    | ExpectedClause
    | EndpointInBlock
    | BadEntry
    | EmptyBlock
    | NegativeQuantity

  datatype NodeItem = NodeItem(id: string, quantity: int)

  datatype NodeSubject =
    | AllCargo
    | Credits(quantity: int)
    | Item(id: string, itemQuantity: Option<int>)
    | ShipSubject(ship: string)
    | ModuleSubject(moduleId: string)

  /** A parsed statement; an endpoint that was not written is absent. */
  datatype Node = Node(subject: NodeSubject, items: seq<NodeItem>, source: Option<T.Endpoint>,
                       destination: Option<T.Endpoint>)

  predicate IsClause(token: string) {
    token == "to" || token == "from"
  }

  /** The number of tokens before the first clause. */
  function SubjectLength(parts: seq<string>): (n: nat)
    ensures n <= |parts|
    ensures forall i | 0 <= i < n :: !IsClause(parts[i])
    ensures n < |parts| ==> IsClause(parts[n])
  {
    if parts == [] || IsClause(parts[0]) then 0 else 1 + SubjectLength(parts[1..])
  }

  function SubjectOf(parts: seq<string>): Result<NodeSubject, TransferError> {
    if parts == [] then Ok(AllCargo)
    else if |parts| == 1 then
      if parts[0] == "credits" then Err(CreditsNeedQuantity)
      else if parts[0] == "ship" then Err(ShipNeedsId)
      else if parts[0] == "module" then Err(ModuleNeedsId)
      else Ok(Item(parts[0], None))
    else if |parts| == 2 then
      if parts[0] == "ship" then Ok(ShipSubject(parts[1]))
      else if parts[0] == "module" then Ok(ModuleSubject(parts[1]))
      else
        match ParseI64(parts[1])
        case None => Err(NotAnInteger)
        case Some(n) => Ok(if parts[0] == "credits" then Credits(n) else Item(parts[0], Some(n)))
    else Err(BadSubject)
  }

  /** An optional or required name after an endpoint's head: the next token unless it starts a clause. */
  function NameIn(rest: seq<string>): Option<string> {
    if rest == [] || IsClause(rest[0]) then None else Some(rest[0])
  }

  /** An endpoint and how many tokens it takes. */
  function EndpointOf(rest: seq<string>): (r: Result<(T.Endpoint, nat), TransferError>)
    ensures r.Ok? ==> 1 <= r.value.1 <= |rest| && !r.value.0.Ship?
  {
    if rest == [] then Err(MissingEndpoint)
    else
      var name := NameIn(rest[1..]);
      if rest[0] == "cargo" then Ok((T.Cargo, 1))
      else if rest[0] == "storage" then Ok((T.Storage, 1))
      else if rest[0] == "faction" then
        if name.Some? then Ok((T.FactionTag(name.value), 2)) else Ok((T.Faction, 1))
      else if rest[0] == "player" then
        if name.Some? then Ok((T.Player(name.value), 2)) else Err(PlayerNeedsName)
      else if rest[0] == "space" then
        if name.Some? then Ok((T.Space(name), 2)) else Ok((T.Space(None), 1))
      else if rest[0] == "commission" then
        if name.Some? then Ok((T.Commission(name.value), 2)) else Err(CommissionNeedsId)
      else Err(UnknownEndpoint)
  }

  datatype Ends = Ends(source: Option<T.Endpoint>, destination: Option<T.Endpoint>)

  const NO_ENDS := Ends(None, None)

  /** What one clause makes of the endpoints read so far. */
  function PlaceEnd(clause: string, end: T.Endpoint, ends: Ends): Result<Ends, TransferError> {
    if clause == "from" then if ends.source.None? then Ok(ends.(source := Some(end))) else Err(DuplicateFrom)
    else if clause == "to" then if ends.destination.None? then Ok(ends.(destination := Some(end))) else Err(DuplicateTo)
    else Err(ExpectedClause)
  }

  function ClausesOf(rest: seq<string>, ends: Ends): (r: Result<Ends, TransferError>)
    ensures r.Ok? && ends.source.Some? ==> r.value.source == ends.source
    ensures r.Ok? && ends.destination.Some? ==> r.value.destination == ends.destination
    decreases |rest|
  {
    if rest == [] then Ok(ends)
    else
      match EndpointOf(rest[1..])
      case Err(e) => Err(e)
      case Ok((end, used)) =>
        match PlaceEnd(rest[0], end, ends)
        case Err(e) => Err(e)
        case Ok(more) => ClausesOf(rest[1 + used..], more)
  }

  function FlatOf(parts: seq<string>): Result<Node, TransferError> {
    var n := SubjectLength(parts);
    match SubjectOf(parts[..n])
    case Err(e) => Err(e)
    case Ok(subject) =>
      match ClausesOf(parts[n..], NO_ENDS)
      case Err(e) => Err(e)
      case Ok(ends) => Ok(Node(subject, [], ends.source, ends.destination))
  }

  method ParseTransferClauses(parts: seq<string>) returns (r: Result<Ends, TransferError>)
    ensures r == ClausesOf(parts, NO_ENDS)
  {
    var ends := NO_ENDS;
    var idx := 0;
    while idx < |parts|
      invariant idx <= |parts| && ClausesOf(parts[idx..], ends) == ClausesOf(parts, NO_ENDS)
    {
      assert parts[idx..][1..] == parts[idx + 1..];
      var clause := parts[idx];
      idx := idx + 1;
      var end := EndpointOf(parts[idx..]);
      if end.Err? { return Err(end.error); }
      assert parts[idx - 1..][1 + end.value.1..] == parts[idx + end.value.1..];
      idx := idx + end.value.1;
      var placed := PlaceEnd(clause, end.value.0, ends);
      if placed.Err? { return Err(placed.error); }
      ends := placed.value;
    }
    r := Ok(ends);
  }

  method ParseTransferParts(parts: seq<string>) returns (r: Result<Node, TransferError>)
    ensures r == FlatOf(parts)
  {
    var idx := 0;
    var subjectParts: seq<string> := [];
    while idx < |parts| && !IsClause(parts[idx])
      invariant 0 <= idx <= SubjectLength(parts) && subjectParts == parts[..idx]
    {
      subjectParts := subjectParts + [parts[idx]];
      idx := idx + 1;
    }
    assert idx == SubjectLength(parts);
    var subject := SubjectOf(subjectParts);
    if subject.Err? { return Err(subject.error); }
    var ends := ParseTransferClauses(parts[idx..]);
    if ends.Err? { return Err(ends.error); }
    r := Ok(Node(subject.value, [], ends.value.source, ends.value.destination));
  }

  // ---- block form ----

  function EntryOf(entry: seq<string>): Result<NodeItem, TransferError>
    requires entry != []
  {
    if IsClause(entry[0]) then Err(EndpointInBlock)
    else if |entry| != 2 then Err(BadEntry)
    else
      match ParseI64(entry[1])
      case Some(n) => Ok(NodeItem(entry[0], n))
      case None => Err(NotAnInteger)
  }

  /** The entries of a block in order; an empty entry is skipped. */
  function EntriesOf(entries: seq<seq<string>>): Result<seq<NodeItem>, TransferError> {
    if entries == [] then Ok([])
    else if entries[0] == [] then EntriesOf(entries[1..])
    else
      match EntryOf(entries[0])
      case Err(e) => Err(e)
      case Ok(item) =>
        match EntriesOf(entries[1..])
        case Err(e) => Err(e)
        case Ok(more) => Ok([item] + more)
  }

  function BlockOf(parts: seq<string>, entries: seq<seq<string>>): Result<Node, TransferError> {
    match ClausesOf(parts, NO_ENDS)
    case Err(e) => Err(e)
    case Ok(ends) =>
      match EntriesOf(entries)
      case Err(e) => Err(e)
      case Ok(items) =>
        if items == [] then Err(EmptyBlock) else Ok(Node(AllCargo, items, ends.source, ends.destination))
  }

  method ParseTransferBlockEntries(parts: seq<string>, entries: seq<seq<string>>)
    returns (r: Result<Node, TransferError>)
    ensures r == BlockOf(parts, entries)
  {
    var ends := ParseTransferClauses(parts);
    if ends.Err? { return Err(ends.error); }
    var items: seq<NodeItem> := [];
    assert entries[0..] == entries;
    assert EntriesOf(entries).Ok? ==> items + EntriesOf(entries).value == EntriesOf(entries).value;
    for i := 0 to |entries|
      invariant EntriesOf(entries)
                == match EntriesOf(entries[i..]) {
                     case Ok(more) => Ok(items + more)
                     case Err(e) => Err(e)
                   }
    {
      assert entries[i..][1..] == entries[i + 1..];
      if entries[i] != [] {
        var item := EntryOf(entries[i]);
        if item.Err? { return Err(item.error); }
        ghost var more := EntriesOf(entries[i + 1..]);
        assert more.Ok? ==> items + ([item.value] + more.value) == items + [item.value] + more.value;
        items := items + [item.value];
      }
    }
    assert entries[|entries|..] == [];
    assert EntriesOf(entries) == Ok(items) by { assert items + [] == items; }
    if items == [] { return Err(EmptyBlock); }
    r := Ok(Node(AllCargo, items, ends.value.source, ends.value.destination));
  }

  // ---- lowering ----

  /** `u64::try_from` */
  function Positive(n: int): Result<u64, TransferError> {
    if 0 <= n <= U64_MAX then Ok(n) else Err(NegativeQuantity)
  }

  function LowerSubject(subject: NodeSubject): Result<T.Subject, TransferError>
  {
    match subject
    case AllCargo => Ok(T.AllCargo)
    case Credits(n) =>
      (match Positive(n)
       case Ok(q) => Ok(T.Credits(q))
       case Err(e) => Err(e))
    case Item(id, None) => Ok(T.Item(id, None))
    case Item(id, Some(n)) =>
      (match Positive(n)
       case Ok(q) => Ok(T.Item(id, Some(q)))
       case Err(e) => Err(e))
    case ShipSubject(id) => Ok(T.ShipSubject(id))
    case ModuleSubject(id) => Ok(T.ModuleSubject(id))
  }

  function LowerItems(items: seq<NodeItem>): Result<seq<T.TransferItem>, TransferError> {
    if items == [] then Ok([])
    else
      match Positive(items[0].quantity)
      case Err(e) => Err(e)
      case Ok(q) =>
        match LowerItems(items[1..])
        case Err(e) => Err(e)
        case Ok(more) => Ok([T.TransferItem(items[0].id, q)] + more)
  }

  /** The endpoints of a statement, with the source's defaults for those not written. */
  function DefaultEnds(node: Node): (T.Endpoint, T.Endpoint) {
    match (node.source, node.destination)
    case (None, None) => (T.Cargo, if node.subject.Credits? then T.Cargo else T.Storage)
    case (Some(source), None) => (source, T.Cargo)
    case (None, Some(destination)) => (T.Cargo, destination)
    case (Some(source), Some(destination)) => (source, destination)
  }

  function Lower(node: Node): Result<T.Transfer, TransferError> {
    var (source, destination) := DefaultEnds(node);
    if node.items == [] then
      match LowerSubject(node.subject)
      case Ok(subject) => Ok(T.Transfer(subject, source, destination))
      case Err(e) => Err(e)
    else
      match LowerItems(node.items)
      case Ok(items) => Ok(T.Transfer(T.Items(items), source, destination))
      case Err(e) => Err(e)
  }

  // ---- printing ----

  function EndpointTokens(e: T.Endpoint): (tokens: seq<string>)
    ensures tokens != []
  {
    match e
    case Cargo => ["cargo"]
    case Storage => ["storage"]
    case Ship(id) => ["ship", id]
    case Faction => ["faction"]
    case FactionTag(tag) => ["faction", tag]
    case Player(name) => ["player", name]
    case Space(None) => ["space"]
    case Space(Some(id)) => ["space", id]
    case Commission(id) => ["commission", id]
  }

  function SubjectTokens(s: T.Subject): seq<string>
    requires !s.Items?
  {
    match s
    case AllCargo => ["all"]
    case Credits(q) => ["credits", Show(q)]
    case Item(id, Some(q)) => [id, Show(q)]
    case Item(id, None) => [id]
    case ShipSubject(id) => ["ship", id]
    case ModuleSubject(id) => ["module", id]
  }

  function TransferTokens(t: T.Transfer): seq<string>
    requires !t.subject.Items?
  {
    SubjectTokens(t.subject) + (["from"] + EndpointTokens(t.source) + (["to"] + EndpointTokens(t.destination)))
  }

  predicate IsReserved(id: string) {
    IsClause(id) || id == "credits" || id == "ship" || id == "module"
  }

  predicate WellFormedEndpoint(e: T.Endpoint) {
    match e
    case Cargo => true
    case Storage => true
    case Ship(_) => false
    case Faction => true
    case FactionTag(tag) => !IsClause(tag)
    case Player(name) => !IsClause(name)
    case Space(None) => true
    case Space(Some(id)) => !IsClause(id)
    case Commission(id) => !IsClause(id)
  }

  predicate WellFormedSubject(s: T.Subject) {
    match s
    case AllCargo => false
    case Credits(q) => q <= I64_MAX
    case Item(id, None) => !IsReserved(id)
    case Item(id, Some(q)) => !IsReserved(id) && q <= I64_MAX
    case ShipSubject(id) => !IsClause(id)
    case ModuleSubject(id) => !IsClause(id)
    case Items(_) => false
  }

  predicate WellFormedTransfer(t: T.Transfer) {
    WellFormedSubject(t.subject) && WellFormedEndpoint(t.source) && WellFormedEndpoint(t.destination)
  }

  function NodeSubjectFor(s: T.Subject): NodeSubject
    requires !s.Items?
  {
    match s
    case AllCargo => AllCargo
    case Credits(q) => Credits(q)
    case Item(id, Some(q)) => Item(id, Some(q))
    case Item(id, None) => Item(id, None)
    case ShipSubject(id) => ShipSubject(id)
    case ModuleSubject(id) => ModuleSubject(id)
  }

  function NodeFor(t: T.Transfer): Node
    requires !t.subject.Items?
  {
    Node(NodeSubjectFor(t.subject), [], Some(t.source), Some(t.destination))
  }

  /** An endpoint followed by a clause, or by nothing, is read back exactly when it is well formed. */
  lemma EndpointRoundTrip(e: T.Endpoint, rest: seq<string>)
    requires rest == [] || IsClause(rest[0])
    ensures WellFormedEndpoint(e) ==> EndpointOf(EndpointTokens(e) + rest) == Ok((e, |EndpointTokens(e)|))
    ensures !WellFormedEndpoint(e) ==>
              EndpointOf(EndpointTokens(e) + rest).Err? || EndpointOf(EndpointTokens(e) + rest).value.0 != e
  {
    var tokens := EndpointTokens(e) + rest;
    assert tokens[0] == EndpointTokens(e)[0];
    if |EndpointTokens(e)| == 1 {
      assert tokens[1..] == rest;
    } else {
      assert tokens[1..][0] == EndpointTokens(e)[1];
    }
  }

  lemma ReadClause(clause: string, e: T.Endpoint, rest: seq<string>, ends: Ends)
    requires IsClause(clause) && (rest == [] || IsClause(rest[0]))
    requires if clause == "from" then ends.source.None? else ends.destination.None?
    ensures var more := if clause == "from" then ends.(source := Some(e)) else ends.(destination := Some(e));
            var r := ClausesOf([clause] + EndpointTokens(e) + rest, ends);
            if WellFormedEndpoint(e) then r == ClausesOf(rest, more)
            else r.Err? || (if clause == "from" then r.value.source != Some(e) else r.value.destination != Some(e))
  {
    var tokens := [clause] + EndpointTokens(e) + rest;
    assert tokens[1..] == EndpointTokens(e) + rest;
    EndpointRoundTrip(e, rest);
    if WellFormedEndpoint(e) {
      assert tokens[1 + |EndpointTokens(e)|..] == rest;
    }
  }

  lemma EndsRoundTrip(source: T.Endpoint, destination: T.Endpoint)
    ensures ClausesOf(["from"] + EndpointTokens(source) + (["to"] + EndpointTokens(destination)), NO_ENDS)
            == Ok(Ends(Some(source), Some(destination)))
            <==> WellFormedEndpoint(source) && WellFormedEndpoint(destination)
  {
    var rest := ["to"] + EndpointTokens(destination);
    ReadClause("from", source, rest, NO_ENDS);
    ReadClause("to", destination, [], Ends(Some(source), None));
    assert ["to"] + EndpointTokens(destination) + [] == rest;
  }

  /** The clauses may be written in either order. */
  lemma EndsInEitherOrder(source: T.Endpoint, destination: T.Endpoint)
    requires WellFormedEndpoint(source) && WellFormedEndpoint(destination)
    ensures ClausesOf(["to"] + EndpointTokens(destination) + (["from"] + EndpointTokens(source)), NO_ENDS)
            == Ok(Ends(Some(source), Some(destination)))
  {
    var rest := ["from"] + EndpointTokens(source);
    ReadClause("to", destination, rest, NO_ENDS);
    ReadClause("from", source, [], Ends(None, Some(destination)));
    assert ["from"] + EndpointTokens(source) + [] == rest;
  }

  /** The subject's tokens end where the first clause begins, unless one of them is itself a clause keyword. */
  lemma {:induction false} SubjectLengthIs(head: seq<string>, rest: seq<string>)
    requires rest != [] && IsClause(rest[0])
    requires forall i | 0 <= i < |head| :: !IsClause(head[i])
    ensures SubjectLength(head + rest) == |head|
    decreases |head|
  {
    if head == [] {
      assert head + rest == rest;
    } else {
      assert (head + rest)[1..] == head[1..] + rest;
      SubjectLengthIs(head[1..], rest);
    }
  }

  lemma NumberIsNoClause(n: nat)
    ensures !IsClause(Show(n))
  {
    assert Show(n)[0] in Show(n);
  }

  lemma SubjectRoundTrip(s: T.Subject, rest: seq<string>)
    requires !s.Items? && rest != [] && IsClause(rest[0])
    ensures var parts := SubjectTokens(s) + rest;
            var n := SubjectLength(parts);
            if WellFormedSubject(s) then n == |SubjectTokens(s)| && SubjectOf(parts[..n]) == Ok(NodeSubjectFor(s))
            else SubjectOf(parts[..n]) != Ok(NodeSubjectFor(s))
  {
    var head := SubjectTokens(s);
    var parts := head + rest;
    if s.Credits? { NumberIsNoClause(s.quantity); ParseI64OfShow(s.quantity); }
    if s.Item? && s.itemQuantity.Some? { NumberIsNoClause(s.itemQuantity.value); ParseI64OfShow(s.itemQuantity.value); }
    if forall i | 0 <= i < |head| :: !IsClause(head[i]) {
      SubjectLengthIs(head, rest);
      assert parts[..|head|] == head;
    } else if IsClause(head[0]) {
      assert SubjectLength(parts) == 0;
    } else {
      assert |head| == 2 && IsClause(head[1]);
      SubjectLengthIs([head[0]], [head[1]] + rest);
      assert [head[0]] + ([head[1]] + rest) == parts;
      assert parts[..1] == [head[0]];
    }
  }

  lemma LowersBack(t: T.Transfer)
    requires !t.subject.Items? && !t.subject.AllCargo?
    ensures Lower(NodeFor(t)) == Ok(t)
  {}

  lemma ParsesBack(t: T.Transfer)
    requires !t.subject.Items?
    ensures FlatOf(TransferTokens(t)) == Ok(NodeFor(t)) <==> WellFormedTransfer(t)
  {
    var rest := ["from"] + EndpointTokens(t.source) + (["to"] + EndpointTokens(t.destination));
    SubjectRoundTrip(t.subject, rest);
    EndsRoundTrip(t.source, t.destination);
    if WellFormedSubject(t.subject) {
      assert TransferTokens(t)[|SubjectTokens(t.subject)|..] == rest;
    }
  }

  /** A flat transfer survives printing and lowering exactly when it is well formed. */
  lemma TransferRoundTrip(t: T.Transfer)
    requires !t.subject.Items?
    ensures FlatOf(TransferTokens(t)) == Ok(NodeFor(t)) <==> WellFormedTransfer(t)
    ensures WellFormedTransfer(t) ==> Lower(NodeFor(t)) == Ok(t)
  {
    ParsesBack(t);
    if WellFormedTransfer(t) { LowersBack(t); }
  }

  /** The rows that are not empty: those the reader does not pass over. */
  function Filled(entries: seq<seq<string>>): seq<seq<string>> {
    if entries == [] then []
    else if entries[0] == [] then Filled(entries[1..])
    else [entries[0]] + Filled(entries[1..])
  }

  lemma {:induction false} OneItemARow(entries: seq<seq<string>>)
    requires EntriesOf(entries).Ok?
    ensures |EntriesOf(entries).value| == |Filled(entries)|
    decreases |entries|
  {
    if entries != [] { OneItemARow(entries[1..]); }
  }

  /** A block is accepted exactly with endpoints before it and readable rows in it, one of them at least not empty. */
  lemma BlockIsReadExactlyWhen(parts: seq<string>, entries: seq<seq<string>>)
    ensures BlockOf(parts, entries).Ok?
            <==> ClausesOf(parts, NO_ENDS).Ok? && EntriesOf(entries).Ok? && Filled(entries) != []
    ensures BlockOf(parts, entries).Ok? ==> |BlockOf(parts, entries).value.items| == |Filled(entries)|
  {
    if EntriesOf(entries).Ok? { OneItemARow(entries); }
  }

  // ---- what may be left out ----

  /** What a list of tokens makes the bot move. */
  function FlatTransferOf(parts: seq<string>): Option<T.Transfer> {
    match FlatOf(parts)
    case Err(_) => None
    case Ok(node) =>
      match Lower(node)
      case Ok(t) => Some(t)
      case Err(_) => None
  }

  lemma SubjectThenClauses(s: T.Subject, clauses: seq<string>)
    requires !s.Items? && WellFormedSubject(s) && (clauses == [] || IsClause(clauses[0]))
    ensures FlatOf(SubjectTokens(s) + clauses)
            == match ClausesOf(clauses, NO_ENDS) {
                 case Err(e) => Err(e)
                 case Ok(ends) => Ok(Node(NodeSubjectFor(s), [], ends.source, ends.destination))
               }
  {
    var parts := SubjectTokens(s) + clauses;
    if clauses == [] {
      SubjectRoundTrip(s, ["to"]);
      SubjectAlone(SubjectTokens(s), ["to"]);
      assert parts == SubjectTokens(s);
    } else {
      SubjectRoundTrip(s, clauses);
    }
    assert parts[|SubjectTokens(s)|..] == clauses;
  }

  lemma {:induction false} SubjectAlone(head: seq<string>, rest: seq<string>)
    requires rest != [] && IsClause(rest[0]) && SubjectLength(head + rest) == |head|
    ensures SubjectLength(head) == |head| && (head + rest)[..|head|] == head == head[..|head|]
    decreases |head|
  {
    if head != [] {
      assert (head + rest)[1..] == head[1..] + rest;
      SubjectAlone(head[1..], rest);
    }
  }

  lemma OneEnd(clause: string, e: T.Endpoint)
    requires IsClause(clause) && WellFormedEndpoint(e)
    ensures ClausesOf([clause] + EndpointTokens(e), NO_ENDS)
            == Ok(if clause == "from" then Ends(Some(e), None) else Ends(None, Some(e)))
  {
    ReadClause(clause, e, [], NO_ENDS);
    assert [clause] + EndpointTokens(e) + [] == [clause] + EndpointTokens(e);
  }

  lemma WithoutSource(s: T.Subject, destination: T.Endpoint)
    requires !s.Items? && WellFormedSubject(s) && WellFormedEndpoint(destination)
    ensures FlatTransferOf(SubjectTokens(s) + (["to"] + EndpointTokens(destination)))
            == Some(T.Transfer(s, T.Cargo, destination))
  {
    OneEnd("to", destination);
    SubjectThenClauses(s, ["to"] + EndpointTokens(destination));
  }

  lemma WithoutDestination(s: T.Subject, source: T.Endpoint)
    requires !s.Items? && WellFormedSubject(s) && WellFormedEndpoint(source)
    ensures FlatTransferOf(SubjectTokens(s) + (["from"] + EndpointTokens(source)))
            == Some(T.Transfer(s, source, T.Cargo))
  {
    OneEnd("from", source);
    SubjectThenClauses(s, ["from"] + EndpointTokens(source));
  }

  lemma WithoutEnds(s: T.Subject)
    requires !s.Items? && WellFormedSubject(s)
    ensures FlatTransferOf(SubjectTokens(s))
            == Some(T.Transfer(s, T.Cargo, if s.Credits? then T.Cargo else T.Storage))
  {
    SubjectThenClauses(s, []);
    assert SubjectTokens(s) + [] == SubjectTokens(s);
  }

  /**
   * A transfer may leave its ends out. Without a source it is taken from cargo, with only a source it goes to cargo, and
   * with neither it goes from cargo to storage, or back to cargo for credits: each short form is the long one.
   */
  lemma ShortFormsMeanTheLong(s: T.Subject, source: T.Endpoint, destination: T.Endpoint)
    requires !s.Items? && WellFormedSubject(s) && WellFormedEndpoint(source) && WellFormedEndpoint(destination)
    ensures FlatTransferOf(SubjectTokens(s) + (["to"] + EndpointTokens(destination)))
            == FlatTransferOf(TransferTokens(T.Transfer(s, T.Cargo, destination)))
            == Some(T.Transfer(s, T.Cargo, destination))
    ensures FlatTransferOf(SubjectTokens(s) + (["from"] + EndpointTokens(source)))
            == FlatTransferOf(TransferTokens(T.Transfer(s, source, T.Cargo)))
            == Some(T.Transfer(s, source, T.Cargo))
    ensures var rest := T.Transfer(s, T.Cargo, if s.Credits? then T.Cargo else T.Storage);
            FlatTransferOf(SubjectTokens(s)) == FlatTransferOf(TransferTokens(rest)) == Some(rest)
  {
    WithoutSource(s, destination);
    WithoutDestination(s, source);
    WithoutEnds(s);
    LongForm(T.Transfer(s, T.Cargo, destination));
    LongForm(T.Transfer(s, source, T.Cargo));
    LongForm(T.Transfer(s, T.Cargo, if s.Credits? then T.Cargo else T.Storage));
  }

  lemma LongForm(t: T.Transfer)
    requires WellFormedTransfer(t)
    ensures FlatTransferOf(TransferTokens(t)) == Some(t)
  {
    TransferRoundTrip(t);
  }

  /** A transfer of all cargo is printed with the word `all`, which is read as the name of an item. */
  lemma AllCargoIsReadAsItem(source: T.Endpoint, destination: T.Endpoint)
    requires WellFormedEndpoint(source) && WellFormedEndpoint(destination)
    ensures FlatTransferOf(TransferTokens(T.Transfer(T.AllCargo, source, destination)))
            == Some(T.Transfer(T.Item("all", None), source, destination))
  {
    LongForm(T.Transfer(T.Item("all", None), source, destination));
  }

  /** The rows of a block. */
  function EntryTokens(items: seq<T.TransferItem>): seq<seq<string>> {
    if items == [] then [] else [[items[0].id, Show(items[0].quantity)]] + EntryTokens(items[1..])
  }

  function NodeItemsFor(items: seq<T.TransferItem>): seq<NodeItem> {
    if items == [] then [] else [NodeItem(items[0].id, items[0].quantity)] + NodeItemsFor(items[1..])
  }

  predicate WellFormedItems(items: seq<T.TransferItem>) {
    forall i | 0 <= i < |items| :: !IsClause(items[i].id) && items[i].quantity <= I64_MAX
  }

  /** Rows are read back, in order, exactly when no id is a clause keyword and every quantity fits. */
  lemma {:induction false} EntriesRoundTrip(items: seq<T.TransferItem>)
    ensures EntriesOf(EntryTokens(items)) == Ok(NodeItemsFor(items)) <==> WellFormedItems(items)
    decreases |items|
  {
    if items != [] {
      var row := [items[0].id, Show(items[0].quantity)];
      ParseI64OfShow(items[0].quantity);
      EntriesRoundTrip(items[1..]);
      assert EntryTokens(items)[0] == row && EntryTokens(items)[1..] == EntryTokens(items[1..]);
      assert NodeItemsFor(items)[1..] == NodeItemsFor(items[1..]);
      assert WellFormedItems(items) <==> (!IsClause(items[0].id) && items[0].quantity <= I64_MAX
                                          && WellFormedItems(items[1..])) by {
        assert forall i | 0 < i < |items| :: items[i] == items[1..][i - 1];
      }
    }
  }

  lemma {:induction false} ItemsLowerBack(items: seq<T.TransferItem>)
    requires WellFormedItems(items)
    ensures LowerItems(NodeItemsFor(items)) == Ok(items)
    decreases |items|
  {
    if items != [] {
      ItemsLowerBack(items[1..]);
      assert NodeItemsFor(items)[1..] == NodeItemsFor(items[1..]);
      assert items == [T.TransferItem(items[0].id, items[0].quantity)] + items[1..];
    }
  }

  /** With its endpoints before the block, as the parser wants them, a transfer of items survives. */
  lemma BlockRoundTrip(t: T.Transfer)
    requires t.subject.Items? && t.subject.items != [] && WellFormedItems(t.subject.items)
    requires WellFormedEndpoint(t.source) && WellFormedEndpoint(t.destination)
    ensures var node := BlockOf(["from"] + EndpointTokens(t.source) + (["to"] + EndpointTokens(t.destination)),
                                EntryTokens(t.subject.items));
            node.Ok? && Lower(node.value) == Ok(t)
  {
    EndsRoundTrip(t.source, t.destination);
    EntriesRoundTrip(t.subject.items);
    ItemsLowerBack(t.subject.items);
  }

  // ---- text ----

  function EndpointText(e: T.Endpoint): string {
    match e
    case Cargo => "cargo"
    case Storage => "storage"
    case Ship(id) => "ship " + Arg(id)
    case Faction => "faction"
    case FactionTag(tag) => "faction " + Arg(tag)
    case Player(name) => "player " + Arg(name)
    case Space(Some(id)) => "space " + Arg(id)
    case Space(None) => "space"
    case Commission(id) => "commission " + Arg(id)
  }

  function SubjectText(s: T.Subject): string
    requires !s.Items?
  {
    match s
    case AllCargo => "all"
    case Credits(q) => "credits " + Show(q)
    case Item(id, Some(q)) => Arg(id) + " " + Show(q)
    case Item(id, None) => Arg(id)
    case ShipSubject(id) => "ship " + Arg(id)
    case ModuleSubject(id) => "module " + Arg(id)
  }

  function RenderTransfer(t: T.Transfer): string
    requires !t.subject.Items?
  {
    "transfer " + SubjectText(t.subject) + " from " + EndpointText(t.source) + " to "
        + EndpointText(t.destination) + ";"
  }

  lemma SpacedOne(a: string)
    ensures Spaced([a]) == " " + Arg(a)
  {
    assert [a][1..] == [];
  }

  lemma SpacedTwo(a: string, b: string)
    ensures Spaced([a, b]) == " " + (Arg(a) + " " + Arg(b))
  {
    SpacedOne(b);
    assert [a, b][1..] == [b];
  }

  lemma PlainPrints(word: string)
    requires IsPlain(word)
    ensures Spaced([word]) == " " + word
  {
    PlainIsBare(word);
    SpacedOne(word);
  }

  lemma ThingPrints(kind: string, head: string, id: string)
    requires IsPlain(kind) && head == kind + " "
    ensures Spaced([kind, id]) == " " + (head + Arg(id))
  {
    PlainIsBare(kind);
    SpacedTwo(kind, id);
  }

  lemma EndpointPrints(e: T.Endpoint)
    ensures Spaced(EndpointTokens(e)) == " " + EndpointText(e)
  {
    if e.Cargo? || e.Storage? || e.Faction? || e == T.Space(None) {
      BareEndpointPrints(e);
    } else {
      NamedEndpointPrints(e);
    }
  }

  lemma BareEndpointPrints(e: T.Endpoint)
    requires e.Cargo? || e.Storage? || e.Faction? || e == T.Space(None)
    ensures Spaced(EndpointTokens(e)) == " " + EndpointText(e)
  {
    match e
    case Cargo => PlainPrints("cargo");
    case Storage => PlainPrints("storage");
    case Faction => PlainPrints("faction");
    case Space(None) => PlainPrints("space");
  }

  lemma NamedEndpointPrints(e: T.Endpoint)
    requires !e.Cargo? && !e.Storage? && !e.Faction? && e != T.Space(None)
    ensures Spaced(EndpointTokens(e)) == " " + EndpointText(e)
  {
    match e
    case Ship(id) => ThingPrints("ship", "ship ", id);
    case FactionTag(tag) => ThingPrints("faction", "faction ", tag);
    case Player(name) => ThingPrints("player", "player ", name);
    case Space(Some(id)) => ThingPrints("space", "space ", id);
    case Commission(id) => ThingPrints("commission", "commission ", id);
  }

  lemma CreditsPrint(q: u64)
    ensures Spaced(["credits", Show(q)]) == " " + ("credits " + Show(q))
  {
    PlainIsBare("credits");
    NumberIsPlain(q);
    SpacedTwo("credits", Show(q));
    assert "credits" + " " == "credits ";
  }

  lemma SubjectPrints(s: T.Subject)
    requires !s.Items?
    ensures Spaced(SubjectTokens(s)) == " " + SubjectText(s)
  {
    match s
    case AllCargo => PlainIsBare("all"); SpacedOne("all");
    case Credits(q) => CreditsPrint(q);
    case Item(id, Some(q)) => NumberIsPlain(q); SpacedTwo(id, Show(q));
    case Item(id, None) => SpacedOne(id);
    case ShipSubject(id) => ThingPrints("ship", "ship ", id);
    case ModuleSubject(id) => ThingPrints("module", "module ", id);
  }

  lemma ClausePrints(clause: string, e: T.Endpoint)
    requires IsClause(clause)
    ensures Spaced([clause] + EndpointTokens(e)) == " " + clause + " " + EndpointText(e)
  {
    if clause == "from" { PlainIsBare("from"); } else { PlainIsBare("to"); }
    SpacedConcat([clause], EndpointTokens(e));
    SpacedOne(clause);
    EndpointPrints(e);
  }

  lemma TransferText(name: string, subject: string, source: string, destination: string)
    ensures name + ((" " + subject) + ((" " + "from" + " " + source) + (" " + "to" + " " + destination))) + ";"
            == (name + " ") + subject + " from " + source + " to " + destination + ";"
  {
    assert " " + "from" + " " == " from " && " " + "to" + " " == " to ";
  }

  lemma RenderTransferIsStatement(t: T.Transfer)
    requires !t.subject.Items?
    ensures RenderTransfer(t) == Statement("transfer", TransferTokens(t))
  {
    var source, destination := ["from"] + EndpointTokens(t.source), ["to"] + EndpointTokens(t.destination);
    SubjectPrints(t.subject);
    ClausePrints("from", t.source);
    ClausePrints("to", t.destination);
    SpacedConcat(source, destination);
    SpacedConcat(SubjectTokens(t.subject), source + destination);
    TransferText("transfer", SubjectText(t.subject), EndpointText(t.source), EndpointText(t.destination));
    assert "transfer" + " " == "transfer ";
  }

  /** Every name in the request can be printed as one argument. */
  predicate NamesArePrintable(t: T.Transfer)
    requires !t.subject.Items?
  {
    AllPrintable(SubjectTokens(t.subject)) && AllPrintable(EndpointTokens(t.source))
        && AllPrintable(EndpointTokens(t.destination))
  }

  lemma TransferTokensArePrintable(t: T.Transfer)
    requires !t.subject.Items? && NamesArePrintable(t)
    ensures AllPrintable(TransferTokens(t))
  {
    PlainIsBare("from");
    PlainIsBare("to");
    OnePrintable("from");
    OnePrintable("to");
    var source, destination := ["from"] + EndpointTokens(t.source), ["to"] + EndpointTokens(t.destination);
    PrintableConcat(["from"], EndpointTokens(t.source));
    PrintableConcat(["to"], EndpointTokens(t.destination));
    PrintableConcat(source, destination);
    PrintableConcat(SubjectTokens(t.subject), source + destination);
  }

  /** From request to text, to tokens, to statement and back to the request. */
  lemma TransferTextRoundTrip(t: T.Transfer)
    requires WellFormedTransfer(t) && NamesArePrintable(t)
    ensures LexCommand(RenderTransfer(t)) == Some((Command("transfer", TransferTokens(t)), ""))
    ensures FlatOf(TransferTokens(t)) == Ok(NodeFor(t)) && Lower(NodeFor(t)) == Ok(t)
  {
    TransferRoundTrip(t);
    TransferLexes(t);
  }

  lemma TransferLexes(t: T.Transfer)
    requires !t.subject.Items? && NamesArePrintable(t)
    ensures LexCommand(RenderTransfer(t)) == Some((Command("transfer", TransferTokens(t)), ""))
  {
    RenderTransferIsStatement(t);
    TransferTokensArePrintable(t);
    StatementLexes("transfer", TransferTokens(t));
  }
}
