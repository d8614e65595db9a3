/**
 * The claimable two-lane scheduler: a normal lane guarded by generation-stamped claims, and an interrupt lane that
 * preempts it. Every operation is given as a function of the checkpoint and, in the class, as the in-place update.
 */
module Scheduler {
  import opened Prelude

  const SCHEDULER_SCHEMA_VERSION: nat := 1
  const ACTION_SCHEMA_VERSION: nat := 6

  type ActionId = string
  type RunId = string

  /** The payload of an action is opaque to the scheduler. */
  datatype Action = Action(payload: string)

  datatype Origin =
    | FromPrayerLang(run: RunId)
    | FromController(run: RunId, controller: string)
    | FromManual(run: RunId)
    | FromInterrupt(policy: string)

  datatype Envelope = Envelope(schemaVersion: nat, id: ActionId, action: Action, origin: Origin,
                               idempotencyKey: Option<string>)

  datatype Continuation = Continuation(schemaVersion: nat, executor: string, state: string)

  datatype ActionOutcome =
    | Succeeded
    | Failed(class_: string, message: string, retryable: bool)
    | Cancelled(reason: string)

  datatype QueueOwner =
    | PrayerLangOwner(run: RunId)
    | ControllerOwner(run: RunId, kind: string)
    | ManualOwner(run: RunId)

  datatype QueueClaim = QueueClaim(owner: QueueOwner, generation: u64)

  datatype Lane = Normal | Interrupt

  datatype RunningAction = RunningAction(envelope: Envelope, continuation: Option<Continuation>, paused: bool)

  datatype CompletedAction = CompletedAction(envelope: Envelope, outcome: ActionOutcome)

  datatype SchedulerError =
    | InvalidCheckpointSchema(version: nat)
    | InvalidActionSchema(version: nat)
    | AlreadyClaimed
    | StaleClaim
    | Halted
    | NothingRunning
    | AlreadyRunning
    | GenerationMismatch

  datatype Event =
    | Claimed(claim: QueueClaim)
    | Appended(generation: u64, count: nat)
    | Started(lane: Lane, action: Envelope)
    | Continued(lane: Lane)
    | Completed(lane: Lane, completed: CompletedAction)
    | HaltedEvent(reason: string)
    | CancelledEvent(generation: u64, reason: string)
    | Released(generation: u64)
    | Drained

  /** The durable representation: everything but the transient events. */
  datatype Checkpoint = Checkpoint(
    schemaVersion: nat,
    generation: u64,
    claim: Option<QueueClaim>,
    pending: seq<Envelope>,
    running: Option<RunningAction>,
    interruptPending: seq<Envelope>,
    interrupt: Option<RunningAction>,
    completed: seq<CompletedAction>,
    halted: bool,
    haltReason: Option<string>)

  /** What an operation answers. */
  datatype Reply =
    | Done
    | ClaimGranted(claim: QueueClaim)
    | ActionStarted(lane: Lane, action: Envelope)
    | NothingPending
    | ActionCompleted(completed: CompletedAction)
    | Refused(error: SchedulerError)

  const Fresh := Checkpoint(SCHEDULER_SCHEMA_VERSION, 0, None, [], None, [], None, [], false, None)

  // ---- the operations as functions ----

  function Authorize(s: Checkpoint, claim: QueueClaim): Option<SchedulerError> {
    if s.halted then Some(Halted)
    else if s.claim == Some(claim) then None
    else Some(StaleClaim)
  }

  function Invalidate(s: Checkpoint): Checkpoint {
    s.(generation := SaturatingIncrement(s.generation), claim := None)
  }

  function ClaimOp(s: Checkpoint, owner: QueueOwner): (Checkpoint, Reply) {
    if s.halted then (s, Refused(Halted))
    else if s.claim.Some? then (s, Refused(AlreadyClaimed))
    else
      var claim := QueueClaim(owner, SaturatingIncrement(s.generation));
      (s.(generation := claim.generation, claim := Some(claim)), ClaimGranted(claim))
  }

  function ReclaimOp(s: Checkpoint, expected: u64, owner: QueueOwner): (Checkpoint, Reply) {
    if s.generation != expected then (s, Refused(GenerationMismatch)) else ClaimOp(s, owner)
  }

  function AppendOp(s: Checkpoint, claim: QueueClaim, actions: seq<Envelope>): (Checkpoint, Reply) {
    if Authorize(s, claim).Some? then (s, Refused(Authorize(s, claim).value))
    else (s.(pending := s.pending + actions), Done)
  }

  function Pause(running: Option<RunningAction>, paused: bool): Option<RunningAction> {
    if running.Some? then Some(running.value.(paused := paused)) else None
  }

  function AppendInterruptsOp(s: Checkpoint, actions: seq<Envelope>): (Checkpoint, Reply) {
    if s.halted then (s, Refused(Halted))
    else if s.interrupt.Some? || s.interruptPending != [] then (s, Refused(AlreadyClaimed))
    else (s.(interruptPending := s.interruptPending + actions, running := Pause(s.running, true)), Done)
  }

  function Rewritten(e: Envelope, policy: string, replacement: string, action: Action): Envelope {
    if e.origin == FromInterrupt(policy) then e.(action := action, origin := FromInterrupt(replacement)) else e
  }

  function ReplaceOp(s: Checkpoint, policy: string, replacement: string, action: Action): (Checkpoint, Reply) {
    (s.(interruptPending :=
          seq(|s.interruptPending|, k requires 0 <= k < |s.interruptPending| =>
            Rewritten(s.interruptPending[k], policy, replacement, action))),
     Done)
  }

  function StartNextOp(s: Checkpoint): (Checkpoint, Reply) {
    if s.halted then (s, Refused(Halted))
    else if s.interrupt.Some? then (s, Refused(AlreadyRunning))
    else if s.interruptPending != [] then
      var e := s.interruptPending[0];
      (s.(interruptPending := s.interruptPending[1..], running := Pause(s.running, true),
          interrupt := Some(RunningAction(e, None, false))),
       ActionStarted(Interrupt, e))
    else if s.running.Some? then (s, Refused(AlreadyRunning))
    else if s.pending == [] then (s, NothingPending)
    else
      var e := s.pending[0];
      (s.(pending := s.pending[1..], running := Some(RunningAction(e, None, false))), ActionStarted(Normal, e))
  }

  function InLane(s: Checkpoint, lane: Lane): Option<RunningAction> {
    if lane == Normal then s.running else s.interrupt
  }

  function WithContinuation(s: Checkpoint, lane: Lane, continuation: Option<Continuation>): (Checkpoint, Reply) {
    var at := InLane(s, lane);
    if at.None? then (s, Refused(NothingRunning))
    else
      var next := Some(at.value.(continuation := continuation));
      (if lane == Normal then s.(running := next) else s.(interrupt := next), Done)
  }

  function CompleteOp(s: Checkpoint, lane: Lane, outcome: ActionOutcome): (Checkpoint, Reply) {
    var at := InLane(s, lane);
    if at.None? then (s, Refused(NothingRunning))
    else
      var done := CompletedAction(at.value.envelope, outcome);
      var t := s.(completed := s.completed + [done]);
      (if lane == Normal then t.(running := None)
       else if s.interruptPending == [] then t.(interrupt := None, running := Pause(s.running, false))
       else t.(interrupt := None),
       ActionCompleted(done))
  }

  function ReleaseOp(s: Checkpoint, claim: QueueClaim): (Checkpoint, Reply) {
    if Authorize(s, claim).Some? then (s, Refused(Authorize(s, claim).value)) else (Invalidate(s), Done)
  }

  function CutShort(running: Option<RunningAction>, reason: string): seq<CompletedAction> {
    if running.Some? then [CompletedAction(running.value.envelope, Cancelled(reason))] else []
  }

  function CancelOp(s: Checkpoint, claim: QueueClaim, reason: string): (Checkpoint, Reply) {
    if Authorize(s, claim).Some? then (s, Refused(Authorize(s, claim).value))
    else
      (Invalidate(s.(pending := [], running := None, completed := s.completed + CutShort(s.running, reason))), Done)
  }

  function HaltOp(s: Checkpoint, reason: string): (Checkpoint, Reply) {
    (Invalidate(s.(halted := false, haltReason := None, pending := [], interruptPending := [], running := None,
                   interrupt := None,
                   completed := s.completed + CutShort(s.running, reason) + CutShort(s.interrupt, reason))),
     Done)
  }

  /** The envelopes of a checkpoint in the order they are examined on restore. */
  function Envelopes(c: Checkpoint): seq<Envelope> {
    c.pending + c.interruptPending
    + (if c.running.Some? then [c.running.value.envelope] else [])
    + (if c.interrupt.Some? then [c.interrupt.value.envelope] else [])
    + seq(|c.completed|, k requires 0 <= k < |c.completed| => c.completed[k].envelope)
  }

  function FirstBadSchema(es: seq<Envelope>): Option<nat> {
    if es == [] then None
    else if es[0].schemaVersion != ACTION_SCHEMA_VERSION then Some(es[0].schemaVersion)
    else FirstBadSchema(es[1..])
  }

  /** Restoring validates both schema versions and never restores a halted mode. */
  function Restore(c: Checkpoint): Result<Checkpoint, SchedulerError> {
    if c.schemaVersion != SCHEDULER_SCHEMA_VERSION then Err(InvalidCheckpointSchema(c.schemaVersion))
    else
      var bad := FirstBadSchema(Envelopes(c));
      if bad.Some? then Err(InvalidActionSchema(bad.value)) else Ok(c.(halted := false, haltReason := None))
  }

  // ---- the scheduler itself ----

  class Scheduler {
    var schemaVersion: nat
    var generation: u64
    var claim: Option<QueueClaim>
    var pending: seq<Envelope>
    var running: Option<RunningAction>
    var interruptPending: seq<Envelope>
    var interrupt: Option<RunningAction>
    var completed: seq<CompletedAction>
    var halted: bool
    var haltReason: Option<string>
    var events: seq<Event>

    function ToCheckpoint(): Checkpoint
      reads this
    {
      Checkpoint(schemaVersion, generation, claim, pending, running, interruptPending, interrupt, completed, halted,
                 haltReason)
    }

    constructor ()
      ensures ToCheckpoint() == Fresh && events == []
    {
      schemaVersion, generation, claim := SCHEDULER_SCHEMA_VERSION, 0, None;
      pending, running, interruptPending, interrupt, completed := [], None, [], None, [];
      halted, haltReason, events := false, None, [];
    }

    constructor FromValid(c: Checkpoint)
      requires Restore(c).Ok?
      ensures Restore(c) == Ok(ToCheckpoint()) && events == []
    {
      schemaVersion, generation, claim := c.schemaVersion, c.generation, c.claim;
      pending, running, interruptPending := c.pending, c.running, c.interruptPending;
      interrupt, completed := c.interrupt, c.completed;
      halted, haltReason, events := false, None, [];
    }

    /** Restore from a checkpoint, or say why it cannot be restored. */
    static method FromCheckpoint(c: Checkpoint) returns (r: Result<Scheduler, SchedulerError>)
      ensures match Restore(c)
              case Err(e) => r == Err(e)
              case Ok(state) => r.Ok? && fresh(r.value) && r.value.ToCheckpoint() == state && r.value.events == []
    {
      var restored := Restore(c);
      if restored.Err? {
        return Err(restored.error);
      }
      var scheduler := new Scheduler.FromValid(c);
      return Ok(scheduler);
    }

    method Claim(owner: QueueOwner) returns (reply: Reply)
      modifies this
      ensures (ToCheckpoint(), reply) == ClaimOp(old(ToCheckpoint()), owner)
      ensures events == old(events) + if reply.ClaimGranted? then [Claimed(reply.claim)] else []
    {
      if halted { return Refused(Halted); }
      if claim.Some? { return Refused(AlreadyClaimed); }
      generation := SaturatingIncrement(generation);
      var granted := QueueClaim(owner, generation);
      claim := Some(granted);
      events := events + [Claimed(granted)];
      return ClaimGranted(granted);
    }

    method Reclaim(expectedGeneration: u64, owner: QueueOwner) returns (reply: Reply)
      modifies this
      ensures (ToCheckpoint(), reply) == ReclaimOp(old(ToCheckpoint()), expectedGeneration, owner)
      ensures events == old(events) + if reply.ClaimGranted? then [Claimed(reply.claim)] else []
    {
      if generation != expectedGeneration { return Refused(GenerationMismatch); }
      reply := Claim(owner);
    }

    method Append(c: QueueClaim, actions: seq<Envelope>) returns (reply: Reply)
      modifies this`pending, this`events
      ensures (ToCheckpoint(), reply) == AppendOp(old(ToCheckpoint()), c, actions)
      ensures events == old(events) + if reply == Done then [Appended(c.generation, |actions|)] else []
    {
      var refusal := Authorized(c);
      if refusal.Some? { return Refused(refusal.value); }
      var before := |pending|;
      pending := pending + actions;
      events := events + [Appended(c.generation, |pending| - before)];
      return Done;
    }

    method AppendInterrupts(actions: seq<Envelope>) returns (reply: Reply)
      modifies this`interruptPending, this`running
      ensures (ToCheckpoint(), reply) == AppendInterruptsOp(old(ToCheckpoint()), actions)
    {
      if halted { return Refused(Halted); }
      if interrupt.Some? || interruptPending != [] { return Refused(AlreadyClaimed); }
      interruptPending := interruptPending + actions;
      if running.Some? { running := Some(running.value.(paused := true)); }
      return Done;
    }

    method ReplaceInterruptActionsByPolicy(policy: string, replacementPolicy: string, action: Action)
      modifies this`interruptPending
      ensures (ToCheckpoint(), Done) == ReplaceOp(old(ToCheckpoint()), policy, replacementPolicy, action)
    {
      var k := 0;
      while k < |interruptPending|
        invariant 0 <= k <= |interruptPending| == |old(interruptPending)|
        invariant forall i | 0 <= i < k ::
                    interruptPending[i] == Rewritten(old(interruptPending)[i], policy, replacementPolicy, action)
        invariant forall i | k <= i < |interruptPending| :: interruptPending[i] == old(interruptPending)[i]
      {
        var e := interruptPending[k];
        if e.origin.FromInterrupt? && e.origin.policy == policy {
          interruptPending := interruptPending[k := e.(action := action, origin := FromInterrupt(replacementPolicy))];
        }
        k := k + 1;
      }
      assert interruptPending == ReplaceOp(old(ToCheckpoint()), policy, replacementPolicy, action).0.interruptPending;
    }

    method StartNext() returns (reply: Reply)
      modifies this
      ensures (ToCheckpoint(), reply) == StartNextOp(old(ToCheckpoint()))
      ensures !old(halted) && old(interrupt).None? && old(interruptPending) != [] ==>
                && reply == ActionStarted(Interrupt, old(interruptPending)[0])
                && interruptPending == old(interruptPending)[1..]
                && interrupt == Some(RunningAction(old(interruptPending)[0], None, false))
      ensures !old(halted) && old(interrupt).None? && old(interruptPending) == [] && old(running).None? ==>
                if old(pending) == [] then reply == NothingPending
                else && reply == ActionStarted(Normal, old(pending)[0]) && pending == old(pending)[1..]
                     && running == Some(RunningAction(old(pending)[0], None, false))
      ensures events == old(events) + match reply
                                      case ActionStarted(lane, action) => [Started(lane, action)]
                                      case NothingPending => [Drained]
                                      case _ => []
    {
      if halted { return Refused(Halted); }
      if interrupt.None? {
        if |interruptPending| > 0 {
          var e := interruptPending[0];
          interruptPending := interruptPending[1..];
          if running.Some? { running := Some(running.value.(paused := true)); }
          interrupt := Some(RunningAction(e, None, false));
          events := events + [Started(Interrupt, e)];
          return ActionStarted(Interrupt, e);
        }
      } else {
        return Refused(AlreadyRunning);
      }
      if running.Some? { return Refused(AlreadyRunning); }
      if |pending| == 0 {
        events := events + [Drained];
        return NothingPending;
      }
      var e := pending[0];
      pending := pending[1..];
      running := Some(RunningAction(e, None, false));
      events := events + [Started(Normal, e)];
      return ActionStarted(Normal, e);
    }

    method SetContinuation(lane: Lane, continuation: Continuation) returns (reply: Reply)
      modifies this`running, this`interrupt, this`events
      ensures (ToCheckpoint(), reply) == WithContinuation(old(ToCheckpoint()), lane, Some(continuation))
      ensures events == old(events) + if reply == Done then [Continued(lane)] else []
    {
      if (lane == Normal && running.None?) || (lane == Interrupt && interrupt.None?) { return Refused(NothingRunning); }
      if lane == Normal {
        running := Some(running.value.(continuation := Some(continuation)));
      } else {
        interrupt := Some(interrupt.value.(continuation := Some(continuation)));
      }
      events := events + [Continued(lane)];
      return Done;
    }

    method ClearContinuation(lane: Lane) returns (reply: Reply)
      modifies this`running, this`interrupt
      ensures (ToCheckpoint(), reply) == WithContinuation(old(ToCheckpoint()), lane, None)
    {
      if (lane == Normal && running.None?) || (lane == Interrupt && interrupt.None?) { return Refused(NothingRunning); }
      if lane == Normal {
        running := Some(running.value.(continuation := None));
      } else {
        interrupt := Some(interrupt.value.(continuation := None));
      }
      return Done;
    }

    method Complete(lane: Lane, outcome: ActionOutcome) returns (reply: Reply)
      modifies this`running, this`interrupt, this`completed, this`events
      ensures (ToCheckpoint(), reply) == CompleteOp(old(ToCheckpoint()), lane, outcome)
      ensures events == old(events) + if reply.ActionCompleted? then [Completed(lane, reply.completed)] else []
    {
      var taken;
      if lane == Normal {
        taken, running := running, None;
      } else {
        taken, interrupt := interrupt, None;
      }
      if taken.None? { return Refused(NothingRunning); }
      var done := CompletedAction(taken.value.envelope, outcome);
      completed := completed + [done];
      events := events + [Completed(lane, done)];
      if lane == Interrupt && interruptPending == [] {
        if running.Some? { running := Some(running.value.(paused := false)); }
      }
      return ActionCompleted(done);
    }

    method Release(c: QueueClaim) returns (reply: Reply)
      modifies this`generation, this`claim, this`events
      ensures (ToCheckpoint(), reply) == ReleaseOp(old(ToCheckpoint()), c)
      ensures events == old(events) + if reply == Done then [Released(generation)] else []
    {
      var refusal := Authorized(c);
      if refusal.Some? { return Refused(refusal.value); }
      generation, claim := SaturatingIncrement(generation), None;
      events := events + [Released(generation)];
      return Done;
    }

    method Cancel(c: QueueClaim, reason: string) returns (reply: Reply)
      modifies this`generation, this`claim, this`pending, this`running, this`completed, this`events
      ensures (ToCheckpoint(), reply) == CancelOp(old(ToCheckpoint()), c, reason)
      ensures events == old(events) + if reply == Done then [CancelledEvent(generation, reason)] else []
    {
      var refusal := Authorized(c);
      if refusal.Some? { return Refused(refusal.value); }
      pending := [];
      if running.Some? {
        completed := completed + [CompletedAction(running.value.envelope, Cancelled(reason))];
        running := None;
      }
      assert completed == old(completed) + CutShort(old(running), reason);
      generation, claim := SaturatingIncrement(generation), None;
      events := events + [CancelledEvent(generation, reason)];
      return Done;
    }

    method Halt(reason: string)
      modifies this
      ensures (ToCheckpoint(), Done) == HaltOp(old(ToCheckpoint()), reason)
      ensures events == old(events) + [HaltedEvent(reason)]
    {
      halted, haltReason := false, None;
      pending, interruptPending := [], [];
      if running.Some? {
        completed := completed + [CompletedAction(running.value.envelope, Cancelled(reason))];
        running := None;
      }
      if interrupt.Some? {
        completed := completed + [CompletedAction(interrupt.value.envelope, Cancelled(reason))];
        interrupt := None;
      }
      assert completed == old(completed) + CutShort(old(running), reason) + CutShort(old(interrupt), reason);
      generation, claim := SaturatingIncrement(generation), None;
      events := events + [HaltedEvent(reason)];
    }

    method TakeEvents() returns (taken: seq<Event>)
      modifies this`events
      ensures taken == old(events) && events == []
    {
      taken, events := events, [];
    }

    method Authorized(c: QueueClaim) returns (refusal: Option<SchedulerError>)
      ensures refusal == Authorize(ToCheckpoint(), c)
    {
      if halted { return Some(Halted); }
      return if claim == Some(c) then None else Some(StaleClaim);
    }
  }
}
