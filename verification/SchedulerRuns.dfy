/** What every run of the scheduler keeps: fencing, conservation, order and pausing, and lane non-interference. */
module SchedulerRuns {
  import opened Prelude
  import opened Scheduler

  datatype Op =
    | Claim(owner: QueueOwner)
    | Reclaim(expected: u64, owner: QueueOwner)
    | Append(claim: QueueClaim, actions: seq<Envelope>)
    | AppendInterrupts(actions: seq<Envelope>)
    | Replace(policy: string, replacement: string, action: Action)
    | StartNext
    | SetContinuation(lane: Lane, continuation: Continuation)
    | ClearContinuation(lane: Lane)
    | Complete(lane: Lane, outcome: ActionOutcome)
    | Release(claim: QueueClaim)
    | Cancel(claim: QueueClaim, reason: string)
    | Halt(reason: string)
    | CheckpointAndRestore

  /**
   * One operation of a run. Taking a checkpoint only reads the scheduler, so when the checkpoint cannot be restored the
   * run goes on with the scheduler it was taken from.
   */
  function Perform(s: Checkpoint, op: Op): (Checkpoint, Reply) {
    match op
    case Claim(owner) => ClaimOp(s, owner)
    case Reclaim(expected, owner) => ReclaimOp(s, expected, owner)
    case Append(claim, actions) => AppendOp(s, claim, actions)
    case AppendInterrupts(actions) => AppendInterruptsOp(s, actions)
    case Replace(policy, replacement, action) => ReplaceOp(s, policy, replacement, action)
    case StartNext => StartNextOp(s)
    case SetContinuation(lane, continuation) => WithContinuation(s, lane, Some(continuation))
    case ClearContinuation(lane) => WithContinuation(s, lane, None)
    case Complete(lane, outcome) => CompleteOp(s, lane, outcome)
    case Release(claim) => ReleaseOp(s, claim)
    case Cancel(claim, reason) => CancelOp(s, claim, reason)
    case Halt(reason) => HaltOp(s, reason)
    case CheckpointAndRestore =>
      match Restore(s)
      case Ok(t) => (t, Done)
      case Err(e) => (s, Refused(e))
  }

  /** What an observer of the run writes down beside the scheduler. The scheduler itself never reads it. */
  datatype Ledger = Ledger(
    appended: multiset<ActionId>,        // every id accepted by either lane
    dropped: multiset<ActionId>,         // ids cleared from a queue by cancel or halt
    normalIn: seq<Envelope>,             // accepted by the normal lane since it was last cleared
    normalStarted: seq<Envelope>,        // of those, started
    interruptIn: seq<ActionId>,          // accepted by the interrupt lane since it was last cleared
    interruptStarted: seq<ActionId>,     // of those, started
    normalDone: seq<CompletedAction>,    // finished or cut short in the normal lane
    interruptDone: seq<CompletedAction>, // finished or cut short in the interrupt lane
    finishedBy: seq<Lane>)               // the lane of each completed action, in order

  const Blank := Ledger(multiset{}, multiset{}, [], [], [], [], [], [], [])

  function IdList(es: seq<Envelope>): seq<ActionId> {
    seq(|es|, k requires 0 <= k < |es| => es[k].id)
  }

  function Freed(running: Option<RunningAction>, lane: Lane): seq<Lane> {
    if running.Some? then [lane] else []
  }

  function Note(l: Ledger, s: Checkpoint, op: Op): Ledger {
    var reply := Perform(s, op).1;
    if reply.Refused? then l
    else
      match op
      case Append(_, actions) =>
        l.(appended := l.appended + multiset(IdList(actions)), normalIn := l.normalIn + actions)
      case AppendInterrupts(actions) =>
        l.(appended := l.appended + multiset(IdList(actions)), interruptIn := l.interruptIn + IdList(actions))
      case StartNext =>
        (match reply
         case ActionStarted(Normal, e) => l.(normalStarted := l.normalStarted + [e])
         case ActionStarted(Interrupt, e) => l.(interruptStarted := l.interruptStarted + [e.id])
         case _ => l)
      case Complete(Normal, _) =>
        l.(normalDone := l.normalDone + [reply.completed], finishedBy := l.finishedBy + [Normal])
      case Complete(Interrupt, _) =>
        l.(interruptDone := l.interruptDone + [reply.completed], finishedBy := l.finishedBy + [Interrupt])
      case Cancel(_, reason) =>
        l.(dropped := l.dropped + multiset(IdList(s.pending)), normalIn := [], normalStarted := [],
           normalDone := l.normalDone + CutShort(s.running, reason),
           finishedBy := l.finishedBy + Freed(s.running, Normal))
      case Halt(reason) =>
        l.(dropped := l.dropped + multiset(IdList(s.pending)) + multiset(IdList(s.interruptPending)),
           normalIn := [], normalStarted := [], interruptIn := [], interruptStarted := [],
           normalDone := l.normalDone + CutShort(s.running, reason),
           interruptDone := l.interruptDone + CutShort(s.interrupt, reason),
           finishedBy := l.finishedBy + Freed(s.running, Normal) + Freed(s.interrupt, Interrupt))
      case _ => l
  }

  datatype Moment = Moment(state: Checkpoint, ledger: Ledger)

  const Start := Moment(Fresh, Blank)

  function Next(m: Moment, op: Op): Moment {
    Moment(Perform(m.state, op).0, Note(m.ledger, m.state, op))
  }

  function Run(m: Moment, ops: seq<Op>): Moment
    decreases |ops|
  {
    if ops == [] then m else Run(Next(m, ops[0]), ops[1..])
  }

  // ---- fencing ----

  predicate ClaimIsCurrent(s: Checkpoint) {
    !s.halted && (s.claim.Some? ==> s.claim.value.generation == s.generation)
  }

  lemma StepKeepsClaimCurrent(s: Checkpoint, op: Op)
    requires ClaimIsCurrent(s)
    ensures ClaimIsCurrent(Perform(s, op).0)
    ensures s.generation <= Perform(s, op).0.generation
  {
  }

  /** In every reachable state a live claim carries the current generation, and the halted mode is never entered. */
  lemma {:induction false} LiveClaimIsCurrent(m: Moment, ops: seq<Op>)
    requires ClaimIsCurrent(m.state)
    ensures ClaimIsCurrent(Run(m, ops).state)
    ensures m.state.generation <= Run(m, ops).state.generation
    decreases |ops|
  {
    if ops != [] {
      StepKeepsClaimCurrent(m.state, ops[0]);
      LiveClaimIsCurrent(Next(m, ops[0]), ops[1..]);
    }
  }

  /** The generation has moved past that of claim `c`. */
  predicate Outrun(s: Checkpoint, c: QueueClaim) {
    s.generation > c.generation
  }

  /** A claim below the largest generation is outrun as soon as it is no longer live, and stays outrun. */
  lemma {:induction false} RevokedIsOutrun(m: Moment, ops: seq<Op>, c: QueueClaim)
    requires ClaimIsCurrent(m.state) && c.generation < U64_MAX && (m.state.claim == Some(c) || Outrun(m.state, c))
    ensures Run(m, ops).state.claim == Some(c) || Outrun(Run(m, ops).state, c)
    ensures Outrun(m.state, c) ==> Outrun(Run(m, ops).state, c)
    decreases |ops|
  {
    if ops != [] {
      StepKeepsClaimCurrent(m.state, ops[0]);
      RevokedIsOutrun(Next(m, ops[0]), ops[1..], c);
    }
  }

  /** Every use of the claim is refused as stale and changes nothing. */
  ghost predicate Refuses(s: Checkpoint, c: QueueClaim) {
    && (forall actions :: AppendOp(s, c, actions) == (s, Refused(StaleClaim)))
    && (forall reason :: CancelOp(s, c, reason) == (s, Refused(StaleClaim)))
    && ReleaseOp(s, c) == (s, Refused(StaleClaim))
  }

  /**
   * Fencing. Take any reachable moment at which `c` is live, any later one at which it is not, and any still later
   * one. A claim below the largest generation is refused there, even when the counter has saturated meanwhile, and
   * every claim granted there has a strictly larger generation.
   */
  lemma RevokedClaimIsFenced(before: seq<Op>, during: seq<Op>, after: seq<Op>, c: QueueClaim, owner: QueueOwner)
    requires Run(Start, before).state.claim == Some(c) && c.generation < U64_MAX
    requires Run(Run(Start, before), during).state.claim != Some(c)
    ensures var s := Run(Run(Run(Start, before), during), after).state;
            && Refuses(s, c)
            && (ClaimOp(s, owner).1.ClaimGranted? ==> ClaimOp(s, owner).1.claim.generation > c.generation)
  {
    var m := Run(Start, before);
    LiveClaimIsCurrent(Start, before);
    RevokedIsOutrun(m, during, c);
    LiveClaimIsCurrent(m, during);
    RevokedIsOutrun(Run(m, during), after, c);
    LiveClaimIsCurrent(Run(m, during), after);
  }

  /** How a live claim can be revoked. */
  predicate Revokes(op: Op, c: QueueClaim) {
    op == Release(c) || (op.Cancel? && op.claim == c) || op.Halt?
  }

  /** Claimed again by the same owner, a revoked claim is live again exactly when it had the largest generation. */
  lemma ReclaimRevivesExactlyAtSaturation(s: Checkpoint, c: QueueClaim, op: Op)
    requires ClaimIsCurrent(s) && s.claim == Some(c) && Revokes(op, c)
    ensures Perform(s, op).0.claim != Some(c)
    ensures Authorize(ClaimOp(Perform(s, op).0, c.owner).0, c).None? <==> c.generation == U64_MAX
  {
  }

  /** How a revoked claim of the largest generation comes back: the queue is released and claimed by its owner. */
  function Revival(s: Checkpoint, c: QueueClaim): seq<Op> {
    (if s.claim.Some? then [Release(s.claim.value)] else []) + [Claim(c.owner)]
  }

  lemma RunOne(m: Moment, op: Op)
    ensures Run(m, [op]) == Next(m, op)
  {
    assert [op][1..] == [];
  }

  lemma RevivalRevives(m: Moment, c: QueueClaim)
    requires ClaimIsCurrent(m.state) && m.state.generation == U64_MAX == c.generation && m.state.claim != Some(c)
    ensures Run(m, Revival(m.state, c)).state.claim == Some(c)
  {
    var ops := Revival(m.state, c);
    var last := [Claim(c.owner)];
    if m.state.claim.Some? {
      assert ops[0] == Release(m.state.claim.value) && ops[1..] == last;
      RunOne(Next(m, ops[0]), Claim(c.owner));
    } else {
      assert ops == last;
      RunOne(m, Claim(c.owner));
    }
    assert c == QueueClaim(c.owner, U64_MAX);
  }

  /** A revoked claim is refused in every later state exactly when its generation is not the largest one. */
  lemma FencedForEverExactlyBelowSaturation(before: seq<Op>, during: seq<Op>, c: QueueClaim)
    requires Run(Start, before).state.claim == Some(c)
    requires Run(Run(Start, before), during).state.claim != Some(c)
    ensures c.generation < U64_MAX
            <==> forall after: seq<Op> :: Refuses(Run(Run(Run(Start, before), during), after).state, c)
  {
    var m := Run(Run(Start, before), during);
    if c.generation < U64_MAX {
      forall after: seq<Op> ensures Refuses(Run(m, after).state, c) {
        RevokedClaimIsFenced(before, during, after, c, c.owner);
      }
    } else {
      LiveClaimIsCurrent(Start, before);
      LiveClaimIsCurrent(Run(Start, before), during);
      RevivalRevives(m, c);
      assert !Refuses(Run(m, Revival(m.state, c)).state, c) by {
        assert ReleaseOp(Run(m, Revival(m.state, c)).state, c).1 == Done by {
          LiveClaimIsCurrent(m, Revival(m.state, c));
        }
      }
    }
  }

  // ---- conservation, order and pausing ----

  function RunningId(r: Option<RunningAction>): multiset<ActionId> {
    if r.Some? then multiset{r.value.envelope.id} else multiset{}
  }

  function DoneIds(done: seq<CompletedAction>): seq<ActionId> {
    seq(|done|, k requires 0 <= k < |done| => done[k].envelope.id)
  }

  function Accounted(s: Checkpoint): multiset<ActionId> {
    multiset(IdList(s.pending)) + RunningId(s.running) + multiset(IdList(s.interruptPending)) + RunningId(s.interrupt)
    + multiset(DoneIds(s.completed))
  }

  ghost predicate Balanced(m: Moment) {
    m.ledger.appended == Accounted(m.state) + m.ledger.dropped
  }

  ghost predicate InOrder(m: Moment) {
    && m.ledger.normalIn == m.ledger.normalStarted + m.state.pending
    && m.ledger.interruptIn == m.ledger.interruptStarted + IdList(m.state.interruptPending)
    && multiset(m.state.completed) == multiset(m.ledger.normalDone) + multiset(m.ledger.interruptDone)
  }

  lemma IdListOfAppend(a: seq<Envelope>, b: seq<Envelope>)
    ensures IdList(a + b) == IdList(a) + IdList(b)
  {
  }

  lemma IdListOfTail(a: seq<Envelope>)
    requires a != []
    ensures multiset(IdList(a)) == multiset{a[0].id} + multiset(IdList(a[1..]))
    ensures IdList(a) == [a[0].id] + IdList(a[1..])
  {
    assert IdList(a) == [a[0].id] + IdList(a[1..]);
  }

  lemma DoneIdsOfAppend(a: seq<CompletedAction>, b: seq<CompletedAction>)
    ensures DoneIds(a + b) == DoneIds(a) + DoneIds(b)
  {
  }

  lemma CutShortId(r: Option<RunningAction>, reason: string)
    ensures multiset(DoneIds(CutShort(r, reason))) == RunningId(r)
  {
    if r.Some? {
      assert DoneIds(CutShort(r, reason)) == [r.value.envelope.id];
    }
  }

  predicate MovesWork(op: Op) {
    op.Append? || op.AppendInterrupts? || op.Replace? || op.StartNext? || op.Complete? || op.Cancel? || op.Halt?
  }

  predicate SameAction(a: Option<RunningAction>, b: Option<RunningAction>) {
    a.Some? == b.Some? && (a.Some? ==> a.value.envelope == b.value.envelope)
  }

  /** Same queues, same actions in the lanes, same completions. */
  predicate SameWork(s: Checkpoint, t: Checkpoint) {
    && t.pending == s.pending && t.interruptPending == s.interruptPending && t.completed == s.completed
    && SameAction(s.running, t.running) && SameAction(s.interrupt, t.interrupt)
  }

  lemma OtherOpsMoveNothing(m: Moment, op: Op)
    requires !MovesWork(op)
    ensures SameWork(m.state, Next(m, op).state)
    ensures Next(m, op).ledger == m.ledger
  {
  }

  lemma SameWorkSameAccount(s: Checkpoint, t: Checkpoint)
    requires SameWork(s, t)
    ensures Accounted(t) == Accounted(s)
  {
    assert RunningId(t.running) == RunningId(s.running);
    assert RunningId(t.interrupt) == RunningId(s.interrupt);
  }

  lemma AppendKeepsBalance(m: Moment, claim: QueueClaim, actions: seq<Envelope>)
    requires Balanced(m)
    ensures Balanced(Next(m, Append(claim, actions)))
  {
    IdListOfAppend(m.state.pending, actions);
  }

  lemma AppendInterruptsKeepsBalance(m: Moment, actions: seq<Envelope>)
    requires Balanced(m)
    ensures Balanced(Next(m, AppendInterrupts(actions)))
  {
    IdListOfAppend(m.state.interruptPending, actions);
    assert RunningId(Pause(m.state.running, true)) == RunningId(m.state.running);
  }

  /** Rewriting deferred interrupts keeps their ids and their order. */
  lemma ReplaceKeepsIds(s: Checkpoint, policy: string, replacement: string, action: Action)
    ensures IdList(ReplaceOp(s, policy, replacement, action).0.interruptPending) == IdList(s.interruptPending)
  {
  }

  lemma StartNextMovesOne(s: Checkpoint)
    ensures Accounted(StartNextOp(s).0) == Accounted(s)
  {
    var t := StartNextOp(s).0;
    if s.halted || s.interrupt.Some? {
    } else if s.interruptPending != [] {
      IdListOfTail(s.interruptPending);
      assert RunningId(t.running) == RunningId(s.running);
    } else if s.running.None? && s.pending != [] {
      IdListOfTail(s.pending);
    }
  }

  lemma StartNextKeepsBalance(m: Moment)
    requires Balanced(m)
    ensures Balanced(Next(m, StartNext))
  {
    StartNextMovesOne(m.state);
    assert Next(m, StartNext).ledger.appended == m.ledger.appended
        && Next(m, StartNext).ledger.dropped == m.ledger.dropped;
  }

  lemma CompleteMovesOne(s: Checkpoint, lane: Lane, outcome: ActionOutcome)
    ensures Accounted(CompleteOp(s, lane, outcome).0) == Accounted(s)
  {
    var at, t := InLane(s, lane), CompleteOp(s, lane, outcome).0;
    if at.Some? {
      var done := CompletedAction(at.value.envelope, outcome);
      DoneIdsOfAppend(s.completed, [done]);
      assert DoneIds([done]) == [done.envelope.id];
      assert multiset(DoneIds(t.completed)) == multiset(DoneIds(s.completed)) + RunningId(at);
      if lane == Interrupt {
        assert RunningId(t.running) == RunningId(s.running);
      }
    }
  }

  lemma CompleteKeepsBalance(m: Moment, lane: Lane, outcome: ActionOutcome)
    requires Balanced(m)
    ensures Balanced(Next(m, Complete(lane, outcome)))
  {
    CompleteMovesOne(m.state, lane, outcome);
    var l := Next(m, Complete(lane, outcome)).ledger;
    assert l.appended == m.ledger.appended && l.dropped == m.ledger.dropped;
  }

  lemma CancelKeepsBalance(m: Moment, claim: QueueClaim, reason: string)
    requires Balanced(m)
    ensures Balanced(Next(m, Cancel(claim, reason)))
  {
    DoneIdsOfAppend(m.state.completed, CutShort(m.state.running, reason));
    CutShortId(m.state.running, reason);
  }

  lemma HaltKeepsBalance(m: Moment, reason: string)
    requires Balanced(m)
    ensures Balanced(Next(m, Halt(reason)))
  {
    var s := m.state;
    var first := CutShort(s.running, reason);
    DoneIdsOfAppend(s.completed, first);
    DoneIdsOfAppend(s.completed + first, CutShort(s.interrupt, reason));
    CutShortId(s.running, reason);
    CutShortId(s.interrupt, reason);
  }

  /** Every operation conserves ids: what enters one place leaves another or is recorded as dropped. */
  lemma StepKeepsBalance(m: Moment, op: Op)
    requires Balanced(m)
    ensures Balanced(Next(m, op))
  {
    match op
    case Append(claim, actions) => AppendKeepsBalance(m, claim, actions);
    case AppendInterrupts(actions) => AppendInterruptsKeepsBalance(m, actions);
    case Replace(policy, replacement, action) => ReplaceKeepsIds(m.state, policy, replacement, action);
    case StartNext => StartNextKeepsBalance(m);
    case Complete(lane, outcome) => CompleteKeepsBalance(m, lane, outcome);
    case Cancel(claim, reason) => CancelKeepsBalance(m, claim, reason);
    case Halt(reason) => HaltKeepsBalance(m, reason);
    case _ =>
      OtherOpsMoveNothing(m, op);
      SameWorkSameAccount(m.state, Next(m, op).state);
  }

  lemma QueueingKeepsOrder(m: Moment, op: Op)
    requires InOrder(m) && (op.Append? || op.AppendInterrupts? || op.Replace? || op.StartNext?)
    ensures InOrder(Next(m, op))
  {
    var s, l := m.state, m.ledger;
    match op
    case Append(_, actions) =>
      assert (l.normalStarted + s.pending) + actions == l.normalStarted + (s.pending + actions);
    case AppendInterrupts(actions) => IdListOfAppend(s.interruptPending, actions);
    case Replace(policy, replacement, action) => ReplaceKeepsIds(s, policy, replacement, action);
    case StartNext => if s.interruptPending != [] { IdListOfTail(s.interruptPending); }
  }

  lemma CompleteKeepsOrder(m: Moment, op: Op)
    requires InOrder(m) && op.Complete?
    ensures InOrder(Next(m, op))
  {
  }

  lemma ClearingKeepsOrder(m: Moment, op: Op)
    requires InOrder(m) && (op.Cancel? || op.Halt?)
    ensures InOrder(Next(m, op))
  {
    assert IdList([]) == [];
  }

  lemma StepKeepsOrder(m: Moment, op: Op)
    requires InOrder(m)
    ensures InOrder(Next(m, op))
  {
    if op.Append? || op.AppendInterrupts? || op.Replace? || op.StartNext? {
      QueueingKeepsOrder(m, op);
    } else if op.Complete? {
      CompleteKeepsOrder(m, op);
    } else if op.Cancel? || op.Halt? {
      ClearingKeepsOrder(m, op);
    } else {
      OtherOpsMoveNothing(m, op);
    }
  }

  /**
   * Conservation and order over every run, checkpoints and restores included. Every accepted id is pending, running,
   * completed or dropped, with its multiplicity; in each lane the actions started, followed by those still queued,
   * are the actions accepted, in order.
   */
  lemma {:induction false} RunConservesAndOrders(m: Moment, ops: seq<Op>)
    requires Balanced(m) && InOrder(m)
    ensures Balanced(Run(m, ops)) && InOrder(Run(m, ops))
    decreases |ops|
  {
    if ops != [] {
      StepKeepsBalance(m, ops[0]);
      StepKeepsOrder(m, ops[0]);
      RunConservesAndOrders(Next(m, ops[0]), ops[1..]);
    }
  }

  /** When all accepted ids differ, none is lost, completed twice, or completed while still queued or running. */
  lemma NothingCompletesTwice(ops: seq<Op>, id: ActionId)
    requires Run(Start, ops).ledger.appended[id] == 1
    ensures var m := Run(Start, ops);
            multiset(DoneIds(m.state.completed))[id]
            + multiset(IdList(m.state.pending))[id] + RunningId(m.state.running)[id]
            + multiset(IdList(m.state.interruptPending))[id] + RunningId(m.state.interrupt)[id]
            + m.ledger.dropped[id] == 1
  {
    assert IdList([]) == [] && DoneIds([]) == [];
    RunConservesAndOrders(Start, ops);
  }

  predicate InterruptBusy(s: Checkpoint) {
    s.interrupt.Some? || s.interruptPending != []
  }

  /** The running normal action is paused exactly while the interrupt lane has work. */
  predicate PausedWhileBusy(s: Checkpoint) {
    s.running.Some? ==> (s.running.value.paused <==> InterruptBusy(s))
  }

  /** The one operation that can break this is an empty interrupt batch arriving at an idle lane. */
  predicate PausesForNothing(s: Checkpoint, op: Op) {
    op == AppendInterrupts([]) && !s.halted && !InterruptBusy(s) && s.running.Some?
  }

  lemma PauseBreaksExactlyOnEmptyBatch(s: Checkpoint, op: Op)
    requires PausedWhileBusy(s)
    ensures PausedWhileBusy(Perform(s, op).0) <==> !PausesForNothing(s, op)
  {
    if op.AppendInterrupts? && op.actions != [] {
      assert s.interruptPending + op.actions != [];
    }
  }

  lemma {:induction false} RunOneMore(m: Moment, ops: seq<Op>, k: nat)
    requires k < |ops|
    ensures Run(m, ops[..k + 1]) == Next(Run(m, ops[..k]), ops[k])
    decreases k
  {
    if k == 0 {
      assert ops[..1] == [ops[0]] && ops[..1][1..] == [] && ops[..0] == [];
    } else {
      assert ops[..k + 1][1..] == ops[1..][..k] && ops[..k][1..] == ops[1..][..k - 1];
      RunOneMore(Next(m, ops[0]), ops[1..], k - 1);
    }
  }

  /** The state after the first `k` operations. */
  function After(m: Moment, ops: seq<Op>, k: nat): Checkpoint
    requires k <= |ops|
  {
    Run(m, ops[..k]).state
  }

  ghost predicate NeverPausesForNothing(m: Moment, ops: seq<Op>, n: nat)
    requires n <= |ops|
  {
    forall k | 0 <= k < n :: !PausesForNothing(After(m, ops, k), ops[k])
  }

  ghost predicate PausingTracks(m: Moment, ops: seq<Op>, n: nat)
    requires n <= |ops|
  {
    forall k | 0 <= k <= n :: PausedWhileBusy(After(m, ops, k))
  }

  /** Pausing tracks the interrupt lane all along a run exactly when no step of it pauses for nothing. */
  lemma {:induction false} RunPausesWhileBusy(m: Moment, ops: seq<Op>, n: nat)
    requires PausedWhileBusy(m.state) && n <= |ops|
    ensures PausingTracks(m, ops, n) <==> NeverPausesForNothing(m, ops, n)
  {
    if n == 0 {
      assert ops[..0] == [];
    } else {
      RunPausesWhileBusy(m, ops, n - 1);
      RunOneMore(m, ops, n - 1);
      assert PausingTracks(m, ops, n) <==> PausingTracks(m, ops, n - 1) && PausedWhileBusy(After(m, ops, n));
      assert NeverPausesForNothing(m, ops, n)
             <==> NeverPausesForNothing(m, ops, n - 1) && !PausesForNothing(After(m, ops, n - 1), ops[n - 1]);
      if PausingTracks(m, ops, n - 1) {
        assert PausedWhileBusy(After(m, ops, n - 1));
        PauseBreaksExactlyOnEmptyBatch(After(m, ops, n - 1), ops[n - 1]);
      }
    }
  }

  /** After an empty batch the action stays paused with an idle interrupt lane: nothing can be started to resume it. */
  lemma EmptyBatchStrandsRunningAction(s: Checkpoint)
    requires !s.halted && !InterruptBusy(s) && s.running.Some?
    ensures var t := AppendInterruptsOp(s, []).0;
            && t.running.value.paused && !InterruptBusy(t)
            && StartNextOp(t) == (t, Refused(AlreadyRunning))
            && (forall outcome :: CompleteOp(t, Interrupt, outcome) == (t, Refused(NothingRunning)))
  {
  }

  /** A checkpoint of a reachable state restores to it exactly when every queued action has the current schema. */
  lemma RestoreIsLossless(ops: seq<Op>)
    ensures var s := Run(Start, ops).state;
            && (Restore(s) == Ok(s) <==> forall e | e in Envelopes(s) :: e.schemaVersion == ACTION_SCHEMA_VERSION)
            && (Restore(s).Ok? ==> Restore(s) == Ok(s))
  {
    SteadyFields(Start, ops);
    FirstBadSchemaFinds(Envelopes(Run(Start, ops).state));
  }

  lemma {:induction false} FirstBadSchemaFinds(es: seq<Envelope>)
    ensures FirstBadSchema(es).None? <==> forall e | e in es :: e.schemaVersion == ACTION_SCHEMA_VERSION
  {
    if es != [] {
      FirstBadSchemaFinds(es[1..]);
      assert es == [es[0]] + es[1..];
    }
  }

  lemma {:induction false} SteadyFields(m: Moment, ops: seq<Op>)
    requires m.state.schemaVersion == SCHEDULER_SCHEMA_VERSION && !m.state.halted && m.state.haltReason == None
    ensures var s := Run(m, ops).state; s.schemaVersion == SCHEDULER_SCHEMA_VERSION && !s.halted && s.haltReason == None
    decreases |ops|
  {
    if ops != [] {
      SteadyFields(Next(m, ops[0]), ops[1..]);
    }
  }

  // ---- lane non-interference ----

  /** A scheduler that has never heard of interrupts. */
  datatype OneLane = OneLane(
    generation: u64,
    claim: Option<QueueClaim>,
    pending: seq<Envelope>,
    running: Option<(Envelope, Option<Continuation>)>,
    done: seq<CompletedAction>)

  datatype LaneOp =
    | LClaim(owner: QueueOwner)
    | LReclaim(expected: u64, owner: QueueOwner)
    | LAppend(claim: QueueClaim, actions: seq<Envelope>)
    | LStartNext
    | LSetContinuation(continuation: Option<Continuation>)
    | LComplete(outcome: ActionOutcome)
    | LRelease(claim: QueueClaim)
    | LCancel(claim: QueueClaim, reason: string)
    | LHalt(reason: string)

  function LaneClaim(o: OneLane, owner: QueueOwner): (OneLane, Reply) {
    if o.claim.Some? then (o, Refused(AlreadyClaimed))
    else
      var claim := QueueClaim(owner, SaturatingIncrement(o.generation));
      (o.(generation := claim.generation, claim := Some(claim)), ClaimGranted(claim))
  }

  function LaneClear(o: OneLane, reason: string): OneLane {
    o.(generation := SaturatingIncrement(o.generation), claim := None, pending := [], running := None,
       done := if o.running.Some? then o.done + [CompletedAction(o.running.value.0, Cancelled(reason))] else o.done)
  }

  function LaneStep(o: OneLane, op: LaneOp): (OneLane, Reply) {
    match op
    case LClaim(owner) => LaneClaim(o, owner)
    case LReclaim(expected, owner) =>
      if o.generation != expected then (o, Refused(GenerationMismatch)) else LaneClaim(o, owner)
    case LAppend(claim, actions) =>
      if o.claim != Some(claim) then (o, Refused(StaleClaim)) else (o.(pending := o.pending + actions), Done)
    case LStartNext =>
      if o.running.Some? then (o, Refused(AlreadyRunning))
      else if o.pending == [] then (o, NothingPending)
      else (o.(pending := o.pending[1..], running := Some((o.pending[0], None))), ActionStarted(Normal, o.pending[0]))
    case LSetContinuation(c) =>
      if o.running.None? then (o, Refused(NothingRunning)) else (o.(running := Some((o.running.value.0, c))), Done)
    case LComplete(outcome) =>
      if o.running.None? then (o, Refused(NothingRunning))
      else
        var done := CompletedAction(o.running.value.0, outcome);
        (o.(running := None, done := o.done + [done]), ActionCompleted(done))
    case LRelease(claim) =>
      if o.claim != Some(claim) then (o, Refused(StaleClaim))
      else (o.(generation := SaturatingIncrement(o.generation), claim := None), Done)
    case LCancel(claim, reason) =>
      if o.claim != Some(claim) then (o, Refused(StaleClaim)) else (LaneClear(o, reason), Done)
    case LHalt(reason) => (LaneClear(o, reason), Done)
  }

  function LaneRun(o: OneLane, ops: seq<LaneOp>): OneLane
    decreases |ops|
  {
    if ops == [] then o else LaneRun(LaneStep(o, ops[0]).0, ops[1..])
  }

  /** Forget the interrupt lane and the paused flag. */
  function Erase(m: Moment): OneLane {
    var s := m.state;
    OneLane(s.generation, s.claim, s.pending,
            if s.running.Some? then Some((s.running.value.envelope, s.running.value.continuation)) else None,
            m.ledger.normalDone)
  }

  /** What an operation looks like from the normal lane; None when it is not seen there at all. */
  function EraseOp(s: Checkpoint, op: Op): Option<LaneOp> {
    match op
    case Claim(owner) => Some(LClaim(owner))
    case Reclaim(expected, owner) => Some(LReclaim(expected, owner))
    case Append(claim, actions) => Some(LAppend(claim, actions))
    case StartNext => if InterruptBusy(s) then None else Some(LStartNext)
    case SetContinuation(Normal, c) => Some(LSetContinuation(Some(c)))
    case ClearContinuation(Normal) => Some(LSetContinuation(None))
    case Complete(Normal, outcome) => Some(LComplete(outcome))
    case Release(claim) => Some(LRelease(claim))
    case Cancel(claim, reason) => Some(LCancel(claim, reason))
    case Halt(reason) => Some(LHalt(reason))
    case _ => None
  }

  function EraseRun(m: Moment, ops: seq<Op>): seq<LaneOp>
    decreases |ops|
  {
    if ops == [] then []
    else
      var here := EraseOp(m.state, ops[0]);
      (if here.Some? then [here.value] else []) + EraseRun(Next(m, ops[0]), ops[1..])
  }

  lemma VisibleStepErases(m: Moment, op: Op)
    requires !m.state.halted && EraseOp(m.state, op).Some?
    ensures (Erase(Next(m, op)), Perform(m.state, op).1) == LaneStep(Erase(m), EraseOp(m.state, op).value)
  {
    if op.Cancel? || op.Halt? || op.Complete? {
      VisibleEndErases(m, op);
    } else {
      VisibleStartErases(m, op);
    }
  }

  lemma VisibleEndErases(m: Moment, op: Op)
    requires !m.state.halted && EraseOp(m.state, op).Some? && (op.Cancel? || op.Halt? || op.Complete?)
    ensures (Erase(Next(m, op)), Perform(m.state, op).1) == LaneStep(Erase(m), EraseOp(m.state, op).value)
  {
    assert m.ledger.normalDone + [] == m.ledger.normalDone;
  }

  lemma VisibleStartErases(m: Moment, op: Op)
    requires !m.state.halted && EraseOp(m.state, op).Some? && !op.Cancel? && !op.Halt? && !op.Complete?
    ensures (Erase(Next(m, op)), Perform(m.state, op).1) == LaneStep(Erase(m), EraseOp(m.state, op).value)
  {}

  lemma HiddenStepErases(m: Moment, op: Op)
    requires !m.state.halted && EraseOp(m.state, op).None?
    ensures Erase(Next(m, op)) == Erase(m)
  {
  }

  /** One step: invisible from the normal lane, or the same step with the same reply in a one-lane scheduler. */
  lemma StepErases(m: Moment, op: Op)
    requires !m.state.halted
    ensures match EraseOp(m.state, op)
            case None => Erase(Next(m, op)) == Erase(m)
            case Some(visible) => (Erase(Next(m, op)), Perform(m.state, op).1) == LaneStep(Erase(m), visible)
    ensures !Next(m, op).state.halted
  {
    if EraseOp(m.state, op).Some? { VisibleStepErases(m, op); } else { HiddenStepErases(m, op); }
  }

  /** Non-interference: erasing the interrupt lane from any run leaves a run of the one-lane scheduler. */
  lemma {:induction false} InterruptsAreInvisible(m: Moment, ops: seq<Op>)
    requires !m.state.halted
    ensures Erase(Run(m, ops)) == LaneRun(Erase(m), EraseRun(m, ops))
    decreases |ops|
  {
    if ops != [] {
      StepErases(m, ops[0]);
      InterruptsAreInvisible(Next(m, ops[0]), ops[1..]);
      var here := EraseOp(m.state, ops[0]);
      if here.Some? {
        assert EraseRun(m, ops)[1..] == EraseRun(Next(m, ops[0]), ops[1..]);
      } else {
        assert EraseRun(m, ops) == EraseRun(Next(m, ops[0]), ops[1..]);
      }
    }
  }

  // ---- which completions are the normal lane's ----

  /** The completed actions of one lane, in the order they completed. */
  function Share(done: seq<CompletedAction>, lanes: seq<Lane>, lane: Lane): seq<CompletedAction>
    requires |done| == |lanes|
  {
    if done == [] then []
    else
      var last := |done| - 1;
      Share(done[..last], lanes[..last], lane) + if lanes[last] == lane then [done[last]] else []
  }

  /** Each lane's record is its share of the scheduler's own list of completed actions. */
  predicate IsShared(m: Moment) {
    && |m.state.completed| == |m.ledger.finishedBy|
    && m.ledger.normalDone == Share(m.state.completed, m.ledger.finishedBy, Normal)
    && m.ledger.interruptDone == Share(m.state.completed, m.ledger.finishedBy, Interrupt)
  }

  lemma ShareOneMore(done: seq<CompletedAction>, lanes: seq<Lane>, last: CompletedAction, finisher: Lane, lane: Lane)
    requires |done| == |lanes|
    ensures Share(done + [last], lanes + [finisher], lane)
            == Share(done, lanes, lane) + if finisher == lane then [last] else []
  {
    assert (done + [last])[..|done|] == done && (lanes + [finisher])[..|lanes|] == lanes;
  }

  lemma ShareCutShort(done: seq<CompletedAction>, lanes: seq<Lane>, running: Option<RunningAction>, reason: string,
                      finisher: Lane, lane: Lane)
    requires |done| == |lanes|
    ensures |CutShort(running, reason)| == |Freed(running, finisher)|
    ensures Share(done + CutShort(running, reason), lanes + Freed(running, finisher), lane)
            == Share(done, lanes, lane) + if finisher == lane then CutShort(running, reason) else []
  {
    if running.Some? {
      ShareOneMore(done, lanes, CutShort(running, reason)[0], finisher, lane);
    } else {
      assert done + [] == done && lanes + [] == lanes;
    }
  }

  lemma CompleteKeepsShares(m: Moment, lane: Lane, outcome: ActionOutcome)
    requires IsShared(m)
    ensures IsShared(Next(m, Complete(lane, outcome)))
  {
    var s, l := m.state, m.ledger;
    if InLane(s, lane).Some? {
      var done := CompletedAction(InLane(s, lane).value.envelope, outcome);
      ShareOneMore(s.completed, l.finishedBy, done, lane, Normal);
      ShareOneMore(s.completed, l.finishedBy, done, lane, Interrupt);
    }
  }

  lemma CancelKeepsShares(m: Moment, claim: QueueClaim, reason: string)
    requires IsShared(m)
    ensures IsShared(Next(m, Cancel(claim, reason)))
  {
    var s, l := m.state, m.ledger;
    ShareCutShort(s.completed, l.finishedBy, s.running, reason, Normal, Normal);
    ShareCutShort(s.completed, l.finishedBy, s.running, reason, Normal, Interrupt);
  }

  lemma StepKeepsShares(m: Moment, op: Op)
    requires IsShared(m)
    ensures IsShared(Next(m, op))
  {
    match op
    case Complete(lane, outcome) => CompleteKeepsShares(m, lane, outcome);
    case Cancel(claim, reason) => CancelKeepsShares(m, claim, reason);
    case Halt(reason) => HaltKeepsShares(m, reason);
    case _ =>
  }

  lemma HaltKeepsShares(m: Moment, reason: string)
    requires IsShared(m)
    ensures IsShared(Next(m, Halt(reason)))
  {
    var s, l := m.state, m.ledger;
    HaltSharesLane(s, l, reason, Normal);
    HaltSharesLane(s, l, reason, Interrupt);
  }

  lemma HaltSharesLane(s: Checkpoint, l: Ledger, reason: string, lane: Lane)
    requires |s.completed| == |l.finishedBy|
    ensures var done := s.completed + CutShort(s.running, reason) + CutShort(s.interrupt, reason);
            var lanes := l.finishedBy + Freed(s.running, Normal) + Freed(s.interrupt, Interrupt);
            && |done| == |lanes|
            && Share(done, lanes, lane)
               == Share(s.completed, l.finishedBy, lane)
                  + (if lane == Normal then CutShort(s.running, reason) else CutShort(s.interrupt, reason))
  {
    var done, lanes := s.completed + CutShort(s.running, reason), l.finishedBy + Freed(s.running, Normal);
    ShareCutShort(s.completed, l.finishedBy, s.running, reason, Normal, lane);
    ShareCutShort(done, lanes, s.interrupt, reason, Interrupt, lane);
  }

  lemma {:induction false} RunKeepsShares(m: Moment, ops: seq<Op>)
    requires IsShared(m)
    ensures IsShared(Run(m, ops))
    decreases |ops|
  {
    if ops != [] {
      StepKeepsShares(m, ops[0]);
      RunKeepsShares(Next(m, ops[0]), ops[1..]);
    }
  }

  /** What erasing keeps of a run's completions is exactly the part of `completed` that the normal lane finished. */
  lemma ErasedCompletionsAreTheLanes(ops: seq<Op>)
    ensures var m := Run(Start, ops);
            && |m.state.completed| == |m.ledger.finishedBy|
            && Erase(m).done == Share(m.state.completed, m.ledger.finishedBy, Normal)
  {
    RunKeepsShares(Start, ops);
  }

  // ---- everything accepted gets its turn ----

  /** Each action in turn is started and completed. */
  function Rounds(lane: Lane, outcomes: seq<ActionOutcome>): seq<Op> {
    if outcomes == [] then [] else [StartNext, Complete(lane, outcomes[0])] + Rounds(lane, outcomes[1..])
  }

  /** Actions finished one by one, each with its own outcome. */
  function Finished(es: seq<Envelope>, outcomes: seq<ActionOutcome>): seq<CompletedAction>
    requires |es| == |outcomes|
  {
    seq(|es|, k requires 0 <= k < |es| => CompletedAction(es[k], outcomes[k]))
  }

  lemma {:induction false} RunConcat(m: Moment, a: seq<Op>, b: seq<Op>)
    ensures Run(m, a + b) == Run(Run(m, a), b)
    decreases |a|
  {
    if a == [] {
      assert a + b == b;
    } else {
      assert (a + b)[1..] == a[1..] + b;
      RunConcat(Next(m, a[0]), a[1..], b);
    }
  }

  lemma RunTwo(m: Moment, first: Op, second: Op)
    ensures Run(m, [first, second]) == Next(Next(m, first), second)
  {
    assert [first, second][1..] == [second];
    RunOne(Next(m, first), second);
  }

  /** A waiting interrupt is started before anything else, whatever the normal lane is doing. */
  lemma WaitingInterruptStarts(s: Checkpoint)
    requires !s.halted && s.interrupt.None? && s.interruptPending != []
    ensures var (t, reply) := StartNextOp(s);
            && reply == ActionStarted(Interrupt, s.interruptPending[0])
            && t.interrupt == Some(RunningAction(s.interruptPending[0], None, false))
            && s.interruptPending == [s.interruptPending[0]] + t.interruptPending
            && (s.running.Some? ==> t.running == Some(s.running.value.(paused := true)))
            && t.pending == s.pending && t.completed == s.completed
  {}

  /** A waiting normal action is started as soon as both lanes are free, and only an empty queue is reported empty. */
  lemma WaitingActionStarts(s: Checkpoint)
    requires !s.halted && !InterruptBusy(s) && s.running.None?
    ensures var (t, reply) := StartNextOp(s);
            if s.pending == [] then (t, reply) == (s, NothingPending)
            else && reply == ActionStarted(Normal, s.pending[0])
                 && t.running == Some(RunningAction(s.pending[0], None, false))
                 && s.pending == [s.pending[0]] + t.pending
                 && t.completed == s.completed
  {}

  lemma FinishedInTurn(es: seq<Envelope>, outcomes: seq<ActionOutcome>)
    requires |es| == |outcomes| > 0
    ensures Finished(es, outcomes) == [CompletedAction(es[0], outcomes[0])] + Finished(es[1..], outcomes[1..])
  {}

  /**
   * One round per waiting interrupt empties the interrupt lane, completes the interrupts in order with their outcomes,
   * and leaves the action of the normal lane running, with its continuation and no longer paused.
   */
  lemma {:induction false} InterruptsDrain(m: Moment, outcomes: seq<ActionOutcome>)
    requires !m.state.halted && m.state.interrupt.None? && |outcomes| == |m.state.interruptPending| > 0
    ensures Run(m, Rounds(Interrupt, outcomes)).state
            == m.state.(interruptPending := [], running := Pause(m.state.running, false),
                        completed := m.state.completed + Finished(m.state.interruptPending, outcomes))
    decreases |outcomes|
  {
    var s, round := m.state, [StartNext, Complete(Interrupt, outcomes[0])];
    var after := Run(m, round);
    RunTwo(m, StartNext, Complete(Interrupt, outcomes[0]));
    RunConcat(m, round, Rounds(Interrupt, outcomes[1..]));
    FinishedInTurn(s.interruptPending, outcomes);
    var done := [CompletedAction(s.interruptPending[0], outcomes[0])];
    assert after.state == s.(interruptPending := s.interruptPending[1..],
                             running := Pause(s.running, |outcomes| > 1), completed := s.completed + done);
    if |outcomes| > 1 {
      InterruptsDrain(after, outcomes[1..]);
      var more := Finished(s.interruptPending[1..], outcomes[1..]);
      assert s.completed + done + more == s.completed + (done + more);
    } else {
      assert Rounds(Interrupt, outcomes[1..]) == [];
    }
  }

  /** With the interrupt lane idle, one round per waiting action completes the normal queue in order. */
  lemma {:induction false} ActionsDrain(m: Moment, outcomes: seq<ActionOutcome>)
    requires !m.state.halted && !InterruptBusy(m.state) && m.state.running.None?
    requires |outcomes| == |m.state.pending|
    ensures Run(m, Rounds(Normal, outcomes)).state
            == m.state.(pending := [], completed := m.state.completed + Finished(m.state.pending, outcomes))
    decreases |outcomes|
  {
    if outcomes != [] {
      var s, round := m.state, [StartNext, Complete(Normal, outcomes[0])];
      var after := Run(m, round);
      RunTwo(m, StartNext, Complete(Normal, outcomes[0]));
      RunConcat(m, round, Rounds(Normal, outcomes[1..]));
      FinishedInTurn(s.pending, outcomes);
      var done := [CompletedAction(s.pending[0], outcomes[0])];
      assert after.state == s.(pending := s.pending[1..], completed := s.completed + done);
      ActionsDrain(after, outcomes[1..]);
      var more := Finished(s.pending[1..], outcomes[1..]);
      assert s.completed + done + more == s.completed + (done + more);
    }
  }

  /**
   * Preemption changes nothing for the action it preempts. An action running with a continuation is still running with
   * it, unpaused, once a batch of interrupts was appended and worked off, and the batch is completed in its order.
   */
  lemma PreemptionIsUndone(m: Moment, k: Continuation, batch: seq<Envelope>, outcomes: seq<ActionOutcome>)
    requires !m.state.halted && !InterruptBusy(m.state) && m.state.running.Some? && |batch| == |outcomes| > 0
    ensures Run(m, [SetContinuation(Normal, k), AppendInterrupts(batch)] + Rounds(Interrupt, outcomes)).state
            == m.state.(running := Some(RunningAction(m.state.running.value.envelope, Some(k), false)),
                        completed := m.state.completed + Finished(batch, outcomes))
  {
    var begin := [SetContinuation(Normal, k), AppendInterrupts(batch)];
    RunTwo(m, SetContinuation(Normal, k), AppendInterrupts(batch));
    RunConcat(m, begin, Rounds(Interrupt, outcomes));
    assert [] + batch == batch;
    InterruptsDrain(Run(m, begin), outcomes);
  }

  /** A continuation is what was last set for the lane's action, until it is cleared; the other lane keeps its own. */
  lemma ContinuationIsTheLastSet(s: Checkpoint, lane: Lane, k: Continuation)
    requires InLane(s, lane).Some?
    ensures var (t, reply) := WithContinuation(s, lane, Some(k));
            var u := WithContinuation(t, lane, None).0;
            && reply == Done
            && InLane(t, lane) == Some(InLane(s, lane).value.(continuation := Some(k)))
            && InLane(u, lane) == Some(InLane(s, lane).value.(continuation := None))
            && (forall other: Lane | other != lane :: InLane(t, other) == InLane(s, other) == InLane(u, other))
  {}

  lemma IdleLaneHasNoContinuation(s: Checkpoint, lane: Lane, k: Option<Continuation>, outcome: ActionOutcome)
    requires InLane(s, lane).None?
    ensures WithContinuation(s, lane, k) == (s, Refused(NothingRunning)) == CompleteOp(s, lane, outcome)
  {}

  /** A batch is turned away exactly while the lane is busy; otherwise it waits in its order behind nothing. */
  lemma BatchIsAdmittedExactlyWhenIdle(s: Checkpoint, batch: seq<Envelope>)
    requires !s.halted
    ensures var (t, reply) := AppendInterruptsOp(s, batch);
            && (reply == Refused(AlreadyClaimed) <==> InterruptBusy(s))
            && (InterruptBusy(s) ==> t == s)
            && (!InterruptBusy(s) ==> reply == Done && t.interruptPending == batch)
            && t.pending == s.pending && t.completed == s.completed && t.claim == s.claim
  {}

  /** Rewriting touches the deferred interrupts of the named policy and no other, and keeps their place and identity. */
  lemma RewritesExactlyThePolicy(s: Checkpoint, policy: string, replacement: string, action: Action, i: nat)
    requires i < |s.interruptPending|
    ensures var t, e := ReplaceOp(s, policy, replacement, action).0, s.interruptPending[i];
            && |t.interruptPending| == |s.interruptPending|
            && t == s.(interruptPending := t.interruptPending)
            && var now := t.interruptPending[i];
               && now.id == e.id && now.schemaVersion == e.schemaVersion && now.idempotencyKey == e.idempotencyKey
               && (e.origin == FromInterrupt(policy)
                   ==> now.action == action && now.origin == FromInterrupt(replacement))
               && (e.origin != FromInterrupt(policy) ==> now == e)
  {}

  // ---- claiming the queue ----

  /**
   * From claim to completion: whoever claims a free queue of a scheduler at rest, appends a script and works it off has
   * the script's actions completed in order, after whatever was waiting already.
   */
  lemma ClaimedWorkIsDone(m: Moment, owner: QueueOwner, script: seq<Envelope>, outcomes: seq<ActionOutcome>)
    requires ClaimIsCurrent(m.state) && m.state.claim.None? && !InterruptBusy(m.state) && m.state.running.None?
    requires |outcomes| == |m.state.pending| + |script|
    ensures var claim := QueueClaim(owner, SaturatingIncrement(m.state.generation));
            && Perform(m.state, Claim(owner)).1 == ClaimGranted(claim)
            && Run(m, [Claim(owner), Append(claim, script)] + Rounds(Normal, outcomes)).state
               == m.state.(generation := claim.generation, claim := Some(claim), pending := [],
                           completed := m.state.completed + Finished(m.state.pending + script, outcomes))
  {
    var claim := QueueClaim(owner, SaturatingIncrement(m.state.generation));
    var begin := [Claim(owner), Append(claim, script)];
    RunTwo(m, Claim(owner), Append(claim, script));
    RunConcat(m, begin, Rounds(Normal, outcomes));
    ActionsDrain(Run(m, begin), outcomes);
  }

  /** Reclaiming is compare-and-claim: it succeeds exactly on a free queue still at the expected generation. */
  lemma ReclaimComparesFirst(s: Checkpoint, expected: u64, owner: QueueOwner)
    requires !s.halted
    ensures ReclaimOp(s, expected, owner).1.ClaimGranted? <==> s.generation == expected && s.claim.None?
    ensures ReclaimOp(s, expected, owner).1.ClaimGranted? ==>
              ReclaimOp(s, expected, owner).1.claim == QueueClaim(owner, SaturatingIncrement(expected))
              && Authorize(ReclaimOp(s, expected, owner).0, ReclaimOp(s, expected, owner).1.claim).None?
    ensures !ReclaimOp(s, expected, owner).1.ClaimGranted? ==> ReclaimOp(s, expected, owner).0 == s
  {}

  /** Of two reclaims that expect one generation at most one succeeds, short of saturation, whatever lies between. */
  lemma OneReclaimWins(m: Moment, expected: u64, owner: QueueOwner, between: seq<Op>, rival: QueueOwner)
    requires ClaimIsCurrent(m.state) && expected < U64_MAX
    requires Perform(m.state, Reclaim(expected, owner)).1.ClaimGranted?
    ensures !Perform(Run(m, [Reclaim(expected, owner)] + between).state, Reclaim(expected, rival)).1.ClaimGranted?
  {
    RunConcat(m, [Reclaim(expected, owner)], between);
    RunOne(m, Reclaim(expected, owner));
    LiveClaimIsCurrent(Next(m, Reclaim(expected, owner)), between);
  }

  /** Cancelling and halting complete exactly what was running, each action once and with the reason given. */
  lemma CutShortCompletesWhatRan(s: Checkpoint, c: QueueClaim, reason: string)
    requires !s.halted && s.claim == Some(c)
    ensures var t := CancelOp(s, c, reason).0;
            && t.running.None? && t.pending == [] && t.interrupt == s.interrupt
            && t.interruptPending == s.interruptPending
            && t.completed == s.completed + (if s.running.None? then []
                                             else [CompletedAction(s.running.value.envelope, Cancelled(reason))])
    ensures var t := HaltOp(s, reason).0;
            && t.running.None? && t.interrupt.None? && t.pending == [] == t.interruptPending
            && s.completed <= t.completed
            && |t.completed| == |s.completed| + (if s.running.Some? then 1 else 0) + (if s.interrupt.Some? then 1 else 0)
            && (forall d | d in t.completed[|s.completed|..] ::
                  && d.outcome == Cancelled(reason)
                  && (Some(d.envelope) == EnvelopeOf(s.running) || Some(d.envelope) == EnvelopeOf(s.interrupt)))
  {}

  function EnvelopeOf(r: Option<RunningAction>): Option<Envelope> {
    if r.Some? then Some(r.value.envelope) else None
  }

  // ---- what a refused restore says ----

  lemma {:induction false} FirstOfBothLists(a: seq<Envelope>, b: seq<Envelope>)
    ensures FirstBadSchema(a + b) == OrElse(FirstBadSchema(a), FirstBadSchema(b))
    decreases |a|
  {
    if a == [] {
      assert a + b == b;
    } else {
      assert (a + b)[1..] == a[1..] + b;
      FirstOfBothLists(a[1..], b);
    }
  }

  /** A refused restore names the first foreign action: of the queue, the deferred interrupts, then the running one. */
  lemma RefusalNamesTheFirst(c: Checkpoint)
    requires c.schemaVersion == SCHEDULER_SCHEMA_VERSION
    ensures FirstBadSchema(c.pending).Some? ==>
              Restore(c) == Err(InvalidActionSchema(FirstBadSchema(c.pending).value))
    ensures FirstBadSchema(c.pending).None? && FirstBadSchema(c.interruptPending).Some? ==>
              Restore(c) == Err(InvalidActionSchema(FirstBadSchema(c.interruptPending).value))
    ensures FirstBadSchema(c.pending + c.interruptPending).None? && c.running.Some?
            && c.running.value.envelope.schemaVersion != ACTION_SCHEMA_VERSION ==>
              Restore(c) == Err(InvalidActionSchema(c.running.value.envelope.schemaVersion))
  {
    var running := if c.running.Some? then [c.running.value.envelope] else [];
    var interrupt := if c.interrupt.Some? then [c.interrupt.value.envelope] else [];
    var done := seq(|c.completed|, k requires 0 <= k < |c.completed| => c.completed[k].envelope);
    FirstOfBothLists(c.pending, c.interruptPending);
    FirstOfBothLists(c.pending + c.interruptPending, running);
    FirstOfBothLists(c.pending + c.interruptPending + running, interrupt);
    FirstOfBothLists(c.pending + c.interruptPending + running + interrupt, done);
  }
}
