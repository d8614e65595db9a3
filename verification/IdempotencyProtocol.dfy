/**
 * Idempotent run creation under any interleaving of requests, of starts that fail, of writes that fail, and of restarts
 * of the whole process.
 */
module IdempotencyProtocol {
  import opened Prelude
  import opened IdempotencyStore

  datatype Reply = Success(run: RunId) | Conflict | Failed

  /** Where a request stands, with the lock it references. */
  datatype Stage =
    | Arriving
    | Waiting(lock: LockId)                                       // references the lock, waits for the mutex
    | Guarded(lock: LockId)                                       // holds the mutex, about to look its key up
    | Starting(lock: LockId)                                      // found no record, about to start the run
    | Inserting(lock: LockId, run: RunId)                         // the run has started
    | Queued(lock: LockId, run: RunId)                            // recorded, waits for the persistence lock
    | Persisting(lock: LockId, run: RunId)                        // holds the persistence lock
    | Writing(lock: LockId, run: RunId, snapshot: map<Key, Record>)
    | Answering(lock: LockId, reply: Reply)                       // the reply is decided, the mutex still held
    | Leaving(lock: LockId, reply: Reply)                         // unlocked, the reference not yet dropped
    | Finished(reply: Reply)

  datatype Request = Request(key: Key, fingerprint: string, stage: Stage)

  datatype Start = Start(key: Key, run: RunId)

  /**
   * `started` lists the runs started since the process came up and `promised` the keys whose insert-and-persist call
   * returned successfully, ever. Both are history that no step reads.
   */
  datatype System = System(
    shared: Shared,
    requests: map<Holder, Request>,
    started: seq<Start>,
    promised: map<Key, Record>)

  datatype Label =
    | Arrive(id: Holder, key: Key, fingerprint: string)
    | EnterFlight(id: Holder)
    | Acquire(id: Holder)
    | Lookup(id: Holder, reachable: bool)          // reachable: the recorded run could be loaded
    | StartRun(id: Holder, run: Option<RunId>)     // None: the start failed
    | Insert(id: Holder)
    | AcquirePersistence(id: Holder)
    | CloneRecords(id: Holder)
    | Write(id: Holder, written: bool, answered: bool)   // answered: the response could be built afterwards
    | Unlock(id: Holder)
    | Drop(id: Holder)
    | Restart

  ghost predicate Init(s: System) {
    && s.shared == Shared(s.shared.file, map[], map[], map[], 0, None, s.shared.file)
    && s.requests == map[] && s.started == [] && s.promised == map[]
  }

  predicate At(s: System, id: Holder) {
    id in s.requests
  }

  predicate Enabled(s: System, l: Label) {
    match l
    case Arrive(id, _, _) => !At(s, id)
    case EnterFlight(id) => At(s, id) && s.requests[id].stage.Arriving?
    case Acquire(id) => At(s, id) && s.requests[id].stage.Waiting? && s.requests[id].stage.lock !in s.shared.locked
    case Lookup(id, _) => At(s, id) && s.requests[id].stage.Guarded?
    case StartRun(id, _) => At(s, id) && s.requests[id].stage.Starting?
    case Insert(id) => At(s, id) && s.requests[id].stage.Inserting?
    case AcquirePersistence(id) => At(s, id) && s.requests[id].stage.Queued? && s.shared.persisting.None?
    case CloneRecords(id) => At(s, id) && s.requests[id].stage.Persisting?
    case Write(id, _, _) => At(s, id) && s.requests[id].stage.Writing?
    case Unlock(id) => At(s, id) && s.requests[id].stage.Answering?
    case Drop(id) => At(s, id) && s.requests[id].stage.Leaving?
    case Restart => true
  }

  function Goto(s: System, shared: Shared, id: Holder, stage: Stage): System
    requires At(s, id)
  {
    s.(shared := shared, requests := s.requests[id := s.requests[id].(stage := stage)])
  }

  function Step(s: System, l: Label): System
    requires Enabled(s, l)
  {
    match l
    case Arrive(id, key, fingerprint) => s.(requests := s.requests[id := Request(key, fingerprint, Arriving)])
    case EnterFlight(id) =>
      var (shared, lock) := Enter(s.shared, s.requests[id].key, id);
      Goto(s, shared, id, Waiting(lock))
    case Acquire(id) =>
      var lock := s.requests[id].stage.lock;
      Goto(s, LockFor(s.shared, lock, id), id, Guarded(lock))
    case Lookup(id, reachable) =>
      var r := s.requests[id];
      if r.key !in s.shared.records then Goto(s, s.shared, id, Starting(r.stage.lock))
      else
        var record := s.shared.records[r.key];
        Goto(s, s.shared, id,
             Answering(r.stage.lock, if record.fingerprint != r.fingerprint then Conflict
                                     else if reachable then Success(record.run) else Failed))
    case StartRun(id, run) =>
      var r := s.requests[id];
      if run.None? then Goto(s, s.shared, id, Answering(r.stage.lock, Failed))
      else Goto(s, s.shared, id, Inserting(r.stage.lock, run.value)).(started := s.started + [Start(r.key, run.value)])
    case Insert(id) =>
      var r := s.requests[id];
      var records := s.shared.records[r.key := Record(r.fingerprint, r.stage.run)];
      Goto(s, s.shared.(records := records), id, Queued(r.stage.lock, r.stage.run))
    case AcquirePersistence(id) =>
      var stage := s.requests[id].stage;
      Goto(s, s.shared.(persisting := Some(id)), id, Persisting(stage.lock, stage.run))
    case CloneRecords(id) =>
      var stage := s.requests[id].stage;
      Goto(s, s.shared, id, Writing(stage.lock, stage.run, s.shared.records))
    case Write(id, written, answered) =>
      var r := s.requests[id];
      var shared := s.shared.(persisting := None, file := if written then r.stage.snapshot else s.shared.file);
      if written then
        Goto(s, shared, id, Answering(r.stage.lock, if answered then Success(r.stage.run) else Failed))
          .(promised := s.promised[r.key := Record(r.fingerprint, r.stage.run)])
      else
        Goto(s, shared, id, Answering(r.stage.lock, Failed))
    case Unlock(id) =>
      var stage := s.requests[id].stage;
      Goto(s, IdempotencyStore.Unlock(s.shared, stage.lock), id, Leaving(stage.lock, stage.reply))
    case Drop(id) =>
      var stage := s.requests[id].stage;
      Goto(s, Forget(s.shared, stage.lock, id), id, Finished(stage.reply))
    case Restart => System(Restarted(s.shared), map[], [], s.promised)
  }

  ghost predicate IsRun(states: seq<System>, labels: seq<Label>) {
    && |states| == |labels| + 1 && Init(states[0])
    && forall i | 0 <= i < |labels| :: Enabled(states[i], labels[i]) && states[i + 1] == Step(states[i], labels[i])
  }

  // ---- the invariant ----

  /** The request holds a strong reference to a lock. */
  predicate Referencing(r: Request) {
    !r.stage.Arriving? && !r.stage.Finished?
  }

  /** The request is in the section its lock protects. */
  predicate InSection(r: Request) {
    Referencing(r) && !r.stage.Waiting? && !r.stage.Leaving?
  }

  function LockOf(r: Request): LockId
    requires Referencing(r)
  {
    r.stage.lock
  }

  /** One live lock object per key: whoever references a lock for a key references the one in the table. */
  ghost predicate LocksAreShared(s: System) {
    && (forall k | k in s.shared.flights :: s.shared.flights[k] < s.shared.nextLock)
    && (forall k1, k2 | k1 in s.shared.flights && k2 in s.shared.flights ::
          s.shared.flights[k1] == s.shared.flights[k2] ==> k1 == k2)
    && (forall id | id in s.requests && Referencing(s.requests[id]) ::
          && s.requests[id].key in s.shared.flights
          && s.shared.flights[s.requests[id].key] == LockOf(s.requests[id])
          && id in References(s.shared.strong, LockOf(s.requests[id])))
  }

  /** The mutex of a lock is held by exactly the request in its section. */
  ghost predicate MutexesAreHonest(s: System) {
    forall id | id in s.requests && InSection(s.requests[id]) ::
      LockOf(s.requests[id]) in s.shared.locked && s.shared.locked[LockOf(s.requests[id])] == id
  }

  predicate Submap(a: map<Key, Record>, b: map<Key, Record>) {
    forall k | k in a :: k in b && a[k] == b[k]
  }

  /** What a request may rely on at each stage about the records. */
  predicate StageIsSound(s: System, id: Holder)
    requires At(s, id)
  {
    var r, records := s.requests[id], s.shared.records;
    match r.stage
    case Starting(_) => r.key !in records
    case Inserting(_, run) => r.key !in records && Start(r.key, run) in s.started
    case Queued(_, run) => r.key in records && records[r.key] == Record(r.fingerprint, run)
    case Persisting(_, run) =>
      r.key in records && records[r.key] == Record(r.fingerprint, run) && s.shared.persisting == Some(id)
    case Writing(_, run, snapshot) =>
      && r.key in snapshot && snapshot[r.key] == Record(r.fingerprint, run) && s.shared.persisting == Some(id)
      && Submap(snapshot, records) && Submap(s.shared.file, snapshot)
    case Answering(_, Success(run)) => r.key in records && records[r.key] == Record(r.fingerprint, run)
    case Leaving(_, Success(run)) => r.key in records && records[r.key] == Record(r.fingerprint, run)
    case Finished(Success(run)) => r.key in records && records[r.key] == Record(r.fingerprint, run)
    case _ => true
  }

  /** A started run is recorded, or its request is about to record it. */
  predicate IsAccounted(s: System, start: Start) {
    || (start.key in s.shared.records && s.shared.records[start.key].run == start.run)
    || (start.key !in s.shared.records
        && exists id | id in s.requests :: s.requests[id].stage.Inserting? && s.requests[id].key == start.key
                                           && s.requests[id].stage.run == start.run)
  }

  ghost predicate StartsAreAccounted(s: System) {
    && (forall i | 0 <= i < |s.started| :: IsAccounted(s, s.started[i]))
    && (forall i, j | 0 <= i < j < |s.started| :: s.started[i].key != s.started[j].key)
  }

  ghost predicate FileIsBehind(s: System) {
    Submap(s.shared.file, s.shared.records) && Submap(s.promised, s.shared.file)
  }

  ghost predicate Invariant(s: System) {
    && LocksAreShared(s) && MutexesAreHonest(s) && StartsAreAccounted(s) && FileIsBehind(s)
    && forall id | id in s.requests :: StageIsSound(s, id)
  }

  /** Sweeping dead entries never removes the lock of a live request, so two requests for one key share it. */
  lemma SameKeySameLock(s: System, a: Holder, b: Holder)
    requires LocksAreShared(s) && a in s.requests && b in s.requests
    requires Referencing(s.requests[a]) && Referencing(s.requests[b])
    ensures s.requests[a].key == s.requests[b].key <==> LockOf(s.requests[a]) == LockOf(s.requests[b])
  {
  }

  lemma SectionsExclude(s: System, a: Holder, b: Holder)
    requires LocksAreShared(s) && MutexesAreHonest(s) && a in s.requests && b in s.requests
    requires InSection(s.requests[a]) && InSection(s.requests[b]) && s.requests[a].key == s.requests[b].key
    ensures a == b
  {
  }

  /** Entering the table: the sweep spares every referenced entry, and a new lock is unlike any live one. */
  lemma EnterKeepsLocks(s: System, id: Holder)
    requires LocksAreShared(s) && Enabled(s, EnterFlight(id))
    ensures LocksAreShared(Step(s, EnterFlight(id)))
  {
    var t := Step(s, EnterFlight(id));
    var key, swept := s.requests[id].key, Swept(s.shared.flights, s.shared.strong);
    var lock := t.requests[id].stage.lock;
    forall x | x in t.requests && Referencing(t.requests[x])
      ensures t.requests[x].key in t.shared.flights && t.shared.flights[t.requests[x].key] == LockOf(t.requests[x])
      ensures x in References(t.shared.strong, LockOf(t.requests[x]))
    {
      if x != id {
        assert s.requests[x].key in swept;
      }
    }
  }

  lemma LocksKept(s: System, l: Label)
    requires LocksAreShared(s) && Enabled(s, l)
    ensures LocksAreShared(Step(s, l))
  {
    if l.EnterFlight? {
      EnterKeepsLocks(s, l.id);
    } else if l.Drop? || l.Unlock? {
      ReleaseKeepsLocks(s, l);
    } else {
      OtherStepsKeepLocks(s, l);
    }
  }

  lemma ReleaseKeepsLocks(s: System, l: Label)
    requires LocksAreShared(s) && Enabled(s, l) && (l.Drop? || l.Unlock?)
    ensures LocksAreShared(Step(s, l))
  {}

  /** The requests that reference a lock are ones that referenced the same lock before. */
  ghost predicate ReferencesOnlyFell(s: System, t: System) {
    forall x | x in t.requests && Referencing(t.requests[x]) ::
      && x in s.requests && Referencing(s.requests[x])
      && s.requests[x].key == t.requests[x].key && LockOf(s.requests[x]) == LockOf(t.requests[x])
  }

  lemma SameTableKeepsLocks(s: System, t: System)
    requires LocksAreShared(s) && ReferencesOnlyFell(s, t)
    requires t.shared.flights == s.shared.flights && t.shared.nextLock == s.shared.nextLock
             && t.shared.strong == s.shared.strong
    ensures LocksAreShared(t)
  {}

  lemma OtherStepsKeepLocks(s: System, l: Label)
    requires LocksAreShared(s) && Enabled(s, l) && !l.EnterFlight? && !l.Drop? && !l.Unlock?
    ensures LocksAreShared(Step(s, l))
  {
    if !l.Restart? {
      var t := Step(s, l);
      assert forall x | x in t.requests && x != l.id :: x in s.requests && t.requests[x] == s.requests[x];
      assert ReferencesOnlyFell(s, t);
      SameTableKeepsLocks(s, t);
    }
  }

  lemma UnlockKeepsMutexes(s: System, id: Holder)
    requires LocksAreShared(s) && MutexesAreHonest(s) && Enabled(s, Unlock(id))
    ensures MutexesAreHonest(Step(s, Unlock(id)))
  {
    var t := Step(s, Unlock(id));
    forall x | x in t.requests && InSection(t.requests[x])
      ensures LockOf(t.requests[x]) in t.shared.locked && t.shared.locked[LockOf(t.requests[x])] == x
    {
      assert x != id && s.requests[x] == t.requests[x];
      assert LockOf(s.requests[x]) != LockOf(s.requests[id]);
    }
  }

  lemma MutexesKept(s: System, l: Label)
    requires LocksAreShared(s) && MutexesAreHonest(s) && Enabled(s, l)
    ensures MutexesAreHonest(Step(s, l))
  {
    if l.Unlock? {
      UnlockKeepsMutexes(s, l.id);
    } else {
      OtherStepsKeepMutexes(s, l);
    }
  }

  lemma OtherStepsKeepMutexes(s: System, l: Label)
    requires LocksAreShared(s) && MutexesAreHonest(s) && Enabled(s, l) && !l.Unlock?
    ensures MutexesAreHonest(Step(s, l))
  {
    if l.Acquire? {
      AcquireKeepsMutexes(s, l.id);
    }
  }

  lemma AcquireKeepsMutexes(s: System, id: Holder)
    requires MutexesAreHonest(s) && Enabled(s, Acquire(id))
    ensures MutexesAreHonest(Step(s, Acquire(id)))
  {}

  lemma FileKept(s: System, l: Label)
    requires FileIsBehind(s) && Enabled(s, l)
    requires forall id | id in s.requests :: StageIsSound(s, id)
    ensures FileIsBehind(Step(s, l))
  {
    if !l.Restart? && l.id in s.requests { assert StageIsSound(s, l.id); }
  }

  lemma OwnStageKept(s: System, l: Label)
    requires FileIsBehind(s) && Enabled(s, l) && !l.Restart?
    requires l.id in s.requests ==> StageIsSound(s, l.id)
    ensures StageIsSound(Step(s, l), l.id)
  {
  }

  lemma OtherStageKeptByInsert(s: System, id: Holder, x: Holder)
    requires LocksAreShared(s) && MutexesAreHonest(s) && Enabled(s, Insert(id))
    requires x in s.requests && x != id && StageIsSound(s, x) && StageIsSound(s, id)
    ensures StageIsSound(Step(s, Insert(id)), x)
  {
    if s.requests[x].key == s.requests[id].key && InSection(s.requests[x]) {
      SectionsExclude(s, id, x);
    }
  }

  lemma OtherStageKept(s: System, l: Label, x: Holder)
    requires Enabled(s, l) && !l.Restart? && !l.Insert?
    requires x in s.requests && x != l.id && StageIsSound(s, x)
    requires l.id in s.requests ==> StageIsSound(s, l.id)
    ensures StageIsSound(Step(s, l), x)
  {
  }

  lemma StagesKept(s: System, l: Label)
    requires Invariant(s) && Enabled(s, l)
    ensures forall id | id in Step(s, l).requests :: StageIsSound(Step(s, l), id)
  {
    if !l.Restart? {
      forall x | x in Step(s, l).requests ensures StageIsSound(Step(s, l), x) {
        if x == l.id { OwnStageKept(s, l); }
        else if l.Insert? { OtherStageKeptByInsert(s, l.id, x); }
        else { OtherStageKept(s, l, x); }
      }
    }
  }

  /** Steps that leave records, started runs and inserting requests alone keep the accounting. */
  lemma AccountingKept(s: System, t: System)
    requires StartsAreAccounted(s) && t.started == s.started && t.shared.records == s.shared.records
    requires forall id | id in s.requests && s.requests[id].stage.Inserting? ::
               id in t.requests && t.requests[id] == s.requests[id]
    ensures StartsAreAccounted(t)
  {
    forall i | 0 <= i < |t.started| ensures IsAccounted(t, t.started[i]) {
      assert IsAccounted(s, s.started[i]);
    }
  }

  /** A run is started only where no run was started or recorded before for the key. */
  lemma StartAccounts(s: System, id: Holder, run: RunId)
    requires Invariant(s) && Enabled(s, StartRun(id, Some(run)))
    ensures StartsAreAccounted(Step(s, StartRun(id, Some(run))))
  {
    var t := Step(s, StartRun(id, Some(run)));
    var r := s.requests[id];
    assert StageIsSound(s, id);
    forall i | 0 <= i < |s.started| ensures s.started[i].key != r.key && IsAccounted(t, s.started[i]) {
      assert IsAccounted(s, s.started[i]);
      if s.started[i].key == r.key {
        var other :| other in s.requests && s.requests[other].stage.Inserting? && s.requests[other].key == r.key;
        SectionsExclude(s, id, other);
      } else if s.started[i].key !in s.shared.records {
        var other :| other in s.requests && s.requests[other].stage.Inserting?
                     && s.requests[other].key == s.started[i].key && s.requests[other].stage.run == s.started[i].run;
        assert t.requests[other] == s.requests[other];
      }
    }
    assert t.requests[id].stage == Inserting(r.stage.lock, run);
    assert IsAccounted(t, Start(r.key, run));
  }

  lemma InsertAccounts(s: System, id: Holder, i: nat)
    requires Invariant(s) && Enabled(s, Insert(id)) && i < |s.started|
    ensures IsAccounted(Step(s, Insert(id)), s.started[i])
  {
    var t, start := Step(s, Insert(id)), s.started[i];
    assert IsAccounted(s, start);
    if start.key !in s.shared.records {
      var x :| x in s.requests && s.requests[x].stage.Inserting? && s.requests[x].key == start.key
               && s.requests[x].stage.run == start.run;
      if s.requests[x].key == s.requests[id].key {
        SectionsExclude(s, id, x);
      } else {
        assert t.requests[x] == s.requests[x];
      }
    }
  }

  lemma StartsKept(s: System, l: Label)
    requires Invariant(s) && Enabled(s, l)
    ensures StartsAreAccounted(Step(s, l))
  {
    if l.StartRun? && l.run.Some? {
      StartAccounts(s, l.id, l.run.value);
    } else if l.Insert? {
      forall i | 0 <= i < |s.started| ensures IsAccounted(Step(s, l), s.started[i]) {
        InsertAccounts(s, l.id, i);
      }
    } else if !l.Restart? {
      AccountingKept(s, Step(s, l));
    }
  }

  lemma StepKeepsInvariant(s: System, l: Label)
    requires Invariant(s) && Enabled(s, l)
    ensures Invariant(Step(s, l))
  {
    LocksKept(s, l);
    MutexesKept(s, l);
    FileKept(s, l);
    StagesKept(s, l);
    StartsKept(s, l);
  }

  lemma {:induction false} RunKeepsInvariant(states: seq<System>, labels: seq<Label>, i: nat)
    requires IsRun(states, labels) && i < |states|
    ensures Invariant(states[i])
  {
    if i > 0 {
      RunKeepsInvariant(states, labels, i - 1);
      StepKeepsInvariant(states[i - 1], labels[i - 1]);
    }
  }

  // ---- the main results ----

  /** Single flight: live requests for one key share one lock object, and their sections exclude each other. */
  lemma SingleFlight(states: seq<System>, labels: seq<Label>, i: nat, a: Holder, b: Holder)
    requires IsRun(states, labels) && i < |states| && a in states[i].requests && b in states[i].requests
    requires Referencing(states[i].requests[a]) && Referencing(states[i].requests[b])
    requires states[i].requests[a].key == states[i].requests[b].key
    ensures LockOf(states[i].requests[a]) == LockOf(states[i].requests[b])
    ensures InSection(states[i].requests[a]) && InSection(states[i].requests[b]) ==> a == b
  {
    RunKeepsInvariant(states, labels, i);
  }

  function ReplyOf(r: Request): Option<Reply> {
    match r.stage
    case Answering(_, reply) => Some(reply)
    case Leaving(_, reply) => Some(reply)
    case Finished(reply) => Some(reply)
    case _ => None
  }

  predicate Succeeded(r: Request, run: RunId) {
    ReplyOf(r) == Some(Success(run))
  }

  /**
   * At most one run per key. In every reachable state no key appears twice among the runs started since the process
   * came up; a successful reply carries the run started for its key; and two successful replies for one key carry the
   * same run and were asked with the same fingerprint.
   */
  lemma AtMostOneRunPerKey(states: seq<System>, labels: seq<Label>, i: nat)
    requires IsRun(states, labels) && i < |states|
    ensures forall m, n | 0 <= m < n < |states[i].started| :: states[i].started[m].key != states[i].started[n].key
    ensures forall a, run, start | a in states[i].requests && Succeeded(states[i].requests[a], run)
                                   && start in states[i].started && start.key == states[i].requests[a].key ::
              start.run == run
    ensures forall a, b, run, other | a in states[i].requests && b in states[i].requests
                                      && Succeeded(states[i].requests[a], run)
                                      && Succeeded(states[i].requests[b], other)
                                      && states[i].requests[a].key == states[i].requests[b].key ::
              run == other && states[i].requests[a].fingerprint == states[i].requests[b].fingerprint
  {
    RunKeepsInvariant(states, labels, i);
    var s := states[i];
    forall a, run | a in s.requests && Succeeded(s.requests[a], run)
      ensures s.requests[a].key in s.shared.records
      ensures s.shared.records[s.requests[a].key] == Record(s.requests[a].fingerprint, run)
    {
      assert StageIsSound(s, a);
    }
    forall start | start in s.started ensures IsAccounted(s, start) {
      var m :| 0 <= m < |s.started| && s.started[m] == start;
      assert IsAccounted(s, s.started[m]);
    }
  }

  /** One step never rewrites a record, shrinks the file, or takes a promise back; only a restart forgets records. */
  lemma StepOnlyAdds(s: System, l: Label)
    requires Invariant(s) && Enabled(s, l)
    ensures !l.Restart? ==> Submap(s.shared.records, Step(s, l).shared.records)
    ensures Submap(s.shared.file, Step(s, l).shared.file)
    ensures Submap(s.promised, Step(s, l).promised)
  {
    if l.Write? {
      WriteOnlyAdds(s, l);
    } else if l.Insert? {
      assert StageIsSound(s, l.id);
    }
  }

  lemma WriteOnlyAdds(s: System, l: Label)
    requires Invariant(s) && Enabled(s, l) && l.Write?
    ensures Submap(s.shared.file, Step(s, l).shared.file) && Submap(s.promised, Step(s, l).promised)
    ensures Step(s, l).shared.records == s.shared.records
  {
    assert StageIsSound(s, l.id);
  }

  /**
   * Durable monotone persistence. Between any two moments of a run, whatever writes fail and however often the process
   * restarts, the file only gains records and promises are kept; at each moment the file holds every record whose
   * insert-and-persist call has returned, and nothing that is not in the record map.
   */
  lemma {:induction false} FileOnlyGrows(states: seq<System>, labels: seq<Label>, i: nat, j: nat)
    requires IsRun(states, labels) && i <= j < |states|
    ensures Submap(states[i].shared.file, states[j].shared.file)
    ensures Submap(states[i].promised, states[j].promised)
    ensures Submap(states[j].promised, states[j].shared.file)
    ensures Submap(states[j].shared.file, states[j].shared.records)
    decreases j
  {
    RunKeepsInvariant(states, labels, j);
    if i < j {
      FileOnlyGrows(states, labels, i, j - 1);
      RunKeepsInvariant(states, labels, j - 1);
      StepOnlyAdds(states[j - 1], labels[j - 1]);
    }
  }

  /** A key once promised never starts another run and always answers with the promised one, across restarts too. */
  lemma PromiseIsKept(states: seq<System>, labels: seq<Label>, i: nat, j: nat, key: Key)
    requires IsRun(states, labels) && i <= j < |states| && key in states[i].promised
    ensures j < |labels| && labels[j].StartRun? ==> states[j].requests[labels[j].id].key != key
    ensures forall a, run | a in states[j].requests && states[j].requests[a].key == key
                            && Succeeded(states[j].requests[a], run) :: run == states[i].promised[key].run
  {
    FileOnlyGrows(states, labels, i, j);
    RunKeepsInvariant(states, labels, j);
    var s := states[j];
    if j < |labels| && labels[j].StartRun? {
      assert StageIsSound(s, labels[j].id);
    }
    forall a, run | a in s.requests && s.requests[a].key == key && Succeeded(s.requests[a], run)
      ensures run == states[i].promised[key].run
    {
      assert StageIsSound(s, a);
    }
  }

  /** Short of a restart, once a run was started for a key no later step starts another. */
  lemma {:induction false} StartedStaysStarted(states: seq<System>, labels: seq<Label>, i: nat, j: nat)
    requires IsRun(states, labels) && i <= j < |states|
    requires forall k | i <= k < j :: !labels[k].Restart?
    ensures states[i].started <= states[j].started
    decreases j
  {
    if i < j {
      StartedStaysStarted(states, labels, i, j - 1);
    }
  }

  /** At most one run is successfully started per key between two restarts. */
  lemma NoSecondStart(states: seq<System>, labels: seq<Label>, i: nat, j: nat)
    requires IsRun(states, labels) && i < j < |labels| && labels[i].StartRun? && labels[i].run.Some?
    requires forall k | i < k < j :: !labels[k].Restart?
    ensures labels[j].StartRun? && labels[j].run.Some? ==>
              states[i].requests[labels[i].id].key != states[j].requests[labels[j].id].key
  {
    StartedStaysStarted(states, labels, i + 1, j);
    if labels[j].StartRun? && labels[j].run.Some? {
      AtMostOneRunPerKey(states, labels, j + 1);
      var n, later := |states[i].started|, states[j + 1].started;
      assert states[i + 1].started[n].key == states[i].requests[labels[i].id].key;
      assert later[n] == states[i + 1].started[n];
      assert later[|later| - 1].key == states[j].requests[labels[j].id].key;
    }
  }

  // ---- replies ----

  /** What a request is told about a recorded run: the very run for the same request, a conflict for another one. */
  predicate IsReplayOf(reply: Reply, record: Record, fingerprint: string, reachable: bool) {
    && (reply == Conflict <==> fingerprint != record.fingerprint)
    && (fingerprint == record.fingerprint ==> reply == if reachable then Success(record.run) else Failed)
  }

  lemma LookupReplays(s: System, id: Holder, reachable: bool)
    requires Enabled(s, Lookup(id, reachable))
    ensures var r, now := s.requests[id], Step(s, Lookup(id, reachable)).requests[id].stage;
            if r.key in s.shared.records
            then now.Answering? && IsReplayOf(now.reply, s.shared.records[r.key], r.fingerprint, reachable)
            else now.Starting?
  {}

  /** Once an insertion for a key has returned, every later lookup replays the recorded run, across restarts too. */
  lemma PromisedRunIsReplayed(states: seq<System>, labels: seq<Label>, i: nat, j: nat, id: Holder, reachable: bool)
    requires IsRun(states, labels) && i <= j < |labels| && labels[j] == Lookup(id, reachable)
    requires states[j].requests[id].key in states[i].promised
    ensures var r, now := states[j].requests[id], states[j + 1].requests[id].stage;
            now.Answering? && IsReplayOf(now.reply, states[i].promised[r.key], r.fingerprint, reachable)
  {
    FileOnlyGrows(states, labels, i, j);
    LookupReplays(states[j], id, reachable);
  }

  lemma {:induction false} RecordsStay(states: seq<System>, labels: seq<Label>, i: nat, j: nat)
    requires IsRun(states, labels) && i <= j < |states|
    requires forall k | i <= k < j :: !labels[k].Restart?
    ensures Submap(states[i].shared.records, states[j].shared.records)
    decreases j
  {
    if i < j {
      RecordsStay(states, labels, i, j - 1);
      RunKeepsInvariant(states, labels, j - 1);
      StepOnlyAdds(states[j - 1], labels[j - 1]);
    }
  }

  /** Short of a restart a run that was only recorded is replayed just the same, whatever became of its write. */
  lemma RecordedRunIsReplayed(states: seq<System>, labels: seq<Label>, i: nat, j: nat, id: Holder, reachable: bool)
    requires IsRun(states, labels) && i <= j < |labels| && labels[j] == Lookup(id, reachable)
    requires forall k | i <= k < j :: !labels[k].Restart?
    requires states[j].requests[id].key in states[i].shared.records
    ensures var r, now := states[j].requests[id], states[j + 1].requests[id].stage;
            now.Answering? && IsReplayOf(now.reply, states[i].shared.records[r.key], r.fingerprint, reachable)
  {
    RecordsStay(states, labels, i, j);
    LookupReplays(states[j], id, reachable);
  }

  // ---- nothing gets stuck ----

  /** A held mutex is held by a request in its section, and the persistence lock by one that is persisting. */
  ghost predicate HoldersAreThere(s: System) {
    && (forall l | l in s.shared.locked ::
          var h := s.shared.locked[l];
          h in s.requests && InSection(s.requests[h]) && LockOf(s.requests[h]) == l)
    && (s.shared.persisting.Some? ==>
          && s.shared.persisting.value in s.requests
          && var stage := s.requests[s.shared.persisting.value].stage; stage.Persisting? || stage.Writing?)
  }

  lemma StepKeepsHolders(s: System, l: Label)
    requires Invariant(s) && HoldersAreThere(s) && Enabled(s, l)
    ensures HoldersAreThere(Step(s, l))
  {
    if l.Acquire? || l.Unlock? {
      MutexKeepsHolders(s, l);
    } else if l.EnterFlight? || l.Drop? {
      ReferenceKeepsHolders(s, l);
    } else {
      if !l.Restart? && !l.Arrive? { assert StageIsSound(s, l.id); }
      SameMutexesKeepHolders(s, l);
    }
  }

  lemma MutexKeepsHolders(s: System, l: Label)
    requires HoldersAreThere(s) && Enabled(s, l) && (l.Acquire? || l.Unlock?)
    ensures HoldersAreThere(Step(s, l))
  {}

  lemma ReferenceKeepsHolders(s: System, l: Label)
    requires HoldersAreThere(s) && Enabled(s, l) && (l.EnterFlight? || l.Drop?)
    ensures HoldersAreThere(Step(s, l))
  {}

  /** Steps inside the section keep the mutex, and the persistence lock goes with those who persist. */
  lemma SameMutexesKeepHolders(s: System, l: Label)
    requires HoldersAreThere(s) && Enabled(s, l) && !l.Acquire? && !l.Unlock? && !l.EnterFlight? && !l.Drop?
    requires !l.Restart? && !l.Arrive? ==> StageIsSound(s, l.id)
    ensures HoldersAreThere(Step(s, l))
  {
    var t := Step(s, l);
    if !l.Restart? && !l.Arrive? {
      InsideStepStaysInside(s, l);
      PersistingIsHonest(s, l);
    }
  }

  lemma InsideStepStaysInside(s: System, l: Label)
    requires Enabled(s, l) && !l.Restart? && !l.Arrive?
    requires !l.Acquire? && !l.Unlock? && !l.EnterFlight? && !l.Drop?
    ensures var t := Step(s, l);
            && t.shared.locked == s.shared.locked
            && InSection(t.requests[l.id]) && LockOf(t.requests[l.id]) == LockOf(s.requests[l.id])
            && (forall x | x in s.requests && x != l.id :: x in t.requests && t.requests[x] == s.requests[x])
  {}

  lemma PersistingIsHonest(s: System, l: Label)
    requires HoldersAreThere(s) && Enabled(s, l) && !l.Restart? && !l.Arrive? && StageIsSound(s, l.id)
    requires !l.Acquire? && !l.Unlock? && !l.EnterFlight? && !l.Drop?
    ensures var t := Step(s, l);
            t.shared.persisting.Some? ==>
              && t.shared.persisting.value in t.requests
              && var stage := t.requests[t.shared.persisting.value].stage; stage.Persisting? || stage.Writing?
  {}

  lemma {:induction false} RunKeepsHolders(states: seq<System>, labels: seq<Label>, i: nat)
    requires IsRun(states, labels) && i < |states|
    ensures HoldersAreThere(states[i])
  {
    if i > 0 {
      RunKeepsHolders(states, labels, i - 1);
      RunKeepsInvariant(states, labels, i - 1);
      StepKeepsHolders(states[i - 1], labels[i - 1]);
    }
  }

  /** The step a request takes next, when nothing keeps it waiting and nothing fails. */
  function NextStep(id: Holder, stage: Stage): Label
    requires !stage.Finished?
  {
    match stage
    case Arriving => EnterFlight(id)
    case Waiting(_) => Acquire(id)
    case Guarded(_) => Lookup(id, true)
    case Starting(_) => StartRun(id, None)
    case Inserting(_, _) => Insert(id)
    case Queued(_, _) => AcquirePersistence(id)
    case Persisting(_, _) => CloneRecords(id)
    case Writing(_, _, _) => Write(id, true, true)
    case Answering(_, _) => Unlock(id)
    case Leaving(_, _) => Drop(id)
  }

  /** Whoever may step when request `id` is to get on: itself, or the end of the chain of holders it waits for. */
  function Blocker(s: System, id: Holder): Holder
    requires HoldersAreThere(s) && At(s, id)
  {
    var stage := s.requests[id].stage;
    var first := if stage.Waiting? && stage.lock in s.shared.locked then s.shared.locked[stage.lock] else id;
    if s.requests[first].stage.Queued? && s.shared.persisting.Some? then s.shared.persisting.value else first
  }

  /** No deadlock: while a request is unfinished, it or the one it waits for can take its next step. */
  lemma SomeoneCanStep(states: seq<System>, labels: seq<Label>, i: nat, id: Holder)
    requires IsRun(states, labels) && i < |states| && At(states[i], id) && !states[i].requests[id].stage.Finished?
    ensures HoldersAreThere(states[i])
    ensures var b := Blocker(states[i], id);
            && At(states[i], b) && !states[i].requests[b].stage.Finished?
            && Enabled(states[i], NextStep(b, states[i].requests[b].stage))
  {
    RunKeepsHolders(states, labels, i);
  }

  function Progress(stage: Stage): nat {
    match stage
    case Arriving => 0
    case Waiting(_) => 1
    case Guarded(_) => 2
    case Starting(_) => 3
    case Inserting(_, _) => 4
    case Queued(_, _) => 5
    case Persisting(_, _) => 6
    case Writing(_, _, _) => 7
    case Answering(_, _) => 8
    case Leaving(_, _) => 9
    case Finished(_) => 10
  }

  /** A step brings its own request forward and leaves the others where they are: ten steps finish a request. */
  lemma StepBringsForward(s: System, l: Label)
    requires Enabled(s, l) && !l.Restart? && !l.Arrive?
    ensures var t := Step(s, l);
            && t.requests.Keys == s.requests.Keys
            && Progress(s.requests[l.id].stage) < Progress(t.requests[l.id].stage) <= 10
            && (forall x | x in s.requests && x != l.id :: t.requests[x] == s.requests[x])
  {}

  // ---- one request from end to end ----

  /** Where the steps lead, if each of them is enabled in its turn. */
  function After(s: System, steps: seq<Label>): Option<System>
    decreases |steps|
  {
    if steps == [] then Some(s)
    else if Enabled(s, steps[0]) then After(Step(s, steps[0]), steps[1..])
    else None
  }

  lemma {:induction false} AfterConcat(s: System, a: seq<Label>, b: seq<Label>)
    requires After(s, a).Some?
    ensures After(s, a + b) == After(After(s, a).value, b)
    decreases |a|
  {
    if a == [] {
      assert a + b == b;
    } else {
      assert (a + b)[1..] == a[1..] + b;
      AfterConcat(Step(s, a[0]), a[1..], b);
    }
  }

  lemma AfterTwo(s: System, first: Label, second: Label)
    requires Enabled(s, first) && Enabled(Step(s, first), second)
    ensures After(s, [first, second]) == Some(Step(Step(s, first), second))
  {
    var t := Step(s, first);
    assert [first, second][1..] == [second] && [second][1..] == [];
    assert After(t, [second]) == After(Step(t, second), []);
  }

  /** Every other request is finished. */
  predicate IsAlone(s: System, id: Holder) {
    At(s, id) && forall x | x in s.requests && x != id :: s.requests[x].stage.Finished?
  }

  lemma EntersAlone(s: System, id: Holder)
    requires HoldersAreThere(s) && IsAlone(s, id) && s.requests[id].stage.Arriving?
    ensures After(s, [EnterFlight(id), Acquire(id)]).Some?
    ensures var t := After(s, [EnterFlight(id), Acquire(id)]).value;
            && IsAlone(t, id) && t.requests[id] == s.requests[id].(stage := t.requests[id].stage)
            && t.requests[id].stage.Guarded?
            && t.shared.records == s.shared.records && t.shared.persisting.None? && t.started == s.started
  {
    AfterTwo(s, EnterFlight(id), Acquire(id));
  }

  lemma LeavesAlone(s: System, id: Holder)
    requires At(s, id) && s.requests[id].stage.Answering?
    ensures After(s, [Unlock(id), Drop(id)]).Some?
    ensures var t := After(s, [Unlock(id), Drop(id)]).value;
            && t == s.(shared := t.shared, requests := t.requests)
            && t.shared.records == s.shared.records && t.shared.file == s.shared.file
            && t.requests == s.requests[id := s.requests[id].(stage := Finished(s.requests[id].stage.reply))]
  {
    AfterTwo(s, Unlock(id), Drop(id));
  }

  function SaveSteps(id: Holder): seq<Label> {
    [AcquirePersistence(id), CloneRecords(id)] + [Write(id, true, true)]
  }

  lemma SavesAlone(s: System, id: Holder)
    requires At(s, id) && s.requests[id].stage.Queued? && s.shared.persisting.None?
    ensures After(s, SaveSteps(id)).Some?
    ensures var t := After(s, SaveSteps(id)).value;
            && At(t, id) && t.requests[id].key == s.requests[id].key
            && t.requests[id].stage.Answering? && t.requests[id].stage.reply == Success(s.requests[id].stage.run)
            && t.shared.records == s.shared.records == t.shared.file
            && s.requests[id].key in t.promised
  {
    var begin := [AcquirePersistence(id), CloneRecords(id)];
    AfterTwo(s, AcquirePersistence(id), CloneRecords(id));
    AfterConcat(s, begin, [Write(id, true, true)]);
    var t := After(s, begin).value;
    assert Enabled(t, Write(id, true, true));
    assert [Write(id, true, true)][1..] == [];
  }

  /** The steps of a request that starts a run. */
  function FirstRequest(id: Holder, run: RunId): seq<Label> {
    [EnterFlight(id), Acquire(id)] + ([Lookup(id, true), StartRun(id, Some(run))]
                                      + ([Insert(id)] + (SaveSteps(id) + [Unlock(id), Drop(id)])))
  }

  /** The steps of a request that finds its run recorded. */
  function RepeatedRequest(id: Holder): seq<Label> {
    [EnterFlight(id), Acquire(id)] + ([Lookup(id, true)] + [Unlock(id), Drop(id)])
  }

  /** An undisturbed request for a new key starts its run, has it on file and answers with it. */
  lemma NewKeyIsServed(s: System, id: Holder, run: RunId)
    requires HoldersAreThere(s) && IsAlone(s, id) && s.requests[id].stage.Arriving?
    requires s.requests[id].key !in s.shared.records
    ensures After(s, FirstRequest(id, run)).Some?
    ensures var r, t := s.requests[id], After(s, FirstRequest(id, run)).value;
            && At(t, id) && t.requests[id].stage == Finished(Success(run))
            && r.key in t.promised && t.shared.file == s.shared.records[r.key := Record(r.fingerprint, run)]
  {
    var rest := [Insert(id)] + (SaveSteps(id) + [Unlock(id), Drop(id)]);
    EntersAlone(s, id);
    var t := After(s, [EnterFlight(id), Acquire(id)]).value;
    AfterConcat(s, [EnterFlight(id), Acquire(id)], [Lookup(id, true), StartRun(id, Some(run))] + rest);
    AfterTwo(t, Lookup(id, true), StartRun(id, Some(run)));
    AfterConcat(t, [Lookup(id, true), StartRun(id, Some(run))], rest);
    var u := After(t, [Lookup(id, true), StartRun(id, Some(run))]).value;
    InsertsAndSaves(u, id);
  }

  lemma InsertsAndSaves(s: System, id: Holder)
    requires At(s, id) && s.requests[id].stage.Inserting? && s.shared.persisting.None?
    ensures var r, t := s.requests[id], After(s, [Insert(id)] + (SaveSteps(id) + [Unlock(id), Drop(id)]));
            && t.Some? && id in t.value.requests
            && t.value.requests[id].stage == Finished(Success(r.stage.run))
            && r.key in t.value.promised
            && t.value.shared.file == s.shared.records[r.key := Record(r.fingerprint, r.stage.run)]
  {
    var t := Step(s, Insert(id));
    assert ([Insert(id)] + (SaveSteps(id) + [Unlock(id), Drop(id)]))[1..] == SaveSteps(id) + [Unlock(id), Drop(id)];
    SavesAlone(t, id);
    AfterConcat(t, SaveSteps(id), [Unlock(id), Drop(id)]);
    LeavesAlone(After(t, SaveSteps(id)).value, id);
  }

  /** An undisturbed request for a recorded key is answered without a start, by the recorded run or by a conflict. */
  lemma RecordedKeyIsServed(s: System, id: Holder)
    requires HoldersAreThere(s) && IsAlone(s, id) && s.requests[id].stage.Arriving?
    requires s.requests[id].key in s.shared.records
    ensures After(s, RepeatedRequest(id)).Some?
    ensures var r, t := s.requests[id], After(s, RepeatedRequest(id)).value;
            && At(t, id) && t.requests[id].stage.Finished? && t.started == s.started
            && IsReplayOf(t.requests[id].stage.reply, s.shared.records[r.key], r.fingerprint, true)
  {
    EntersAlone(s, id);
    var t := After(s, [EnterFlight(id), Acquire(id)]).value;
    AfterConcat(s, [EnterFlight(id), Acquire(id)], [Lookup(id, true)] + [Unlock(id), Drop(id)]);
    var u := Step(t, Lookup(id, true));
    assert ([Lookup(id, true)] + [Unlock(id), Drop(id)])[1..] == [Unlock(id), Drop(id)];
    assert t.shared.records == s.shared.records;
    LeavesAlone(u, id);
  }

  /** The reply of the request that started the run: success only once its record is on file, failure otherwise. */
  lemma SuccessMeansOnFile(s: System, id: Holder, written: bool, answered: bool)
    requires Invariant(s) && Enabled(s, Write(id, written, answered))
    ensures var r, t := s.requests[id], Step(s, Write(id, written, answered));
            && t.requests[id].stage.Answering?
            && t.requests[id].stage.reply == (if written && answered then Success(r.stage.run) else Failed)
            && (written ==> r.key in t.shared.file && t.shared.file[r.key] == Record(r.fingerprint, r.stage.run))
            && (!written ==> t.shared.file == s.shared.file)
  {
    assert StageIsSound(s, id);
  }

  /** A failed start leaves no trace: nothing is recorded and the request is told so. */
  lemma FailedStartLeavesNoTrace(s: System, id: Holder)
    requires Enabled(s, StartRun(id, None))
    ensures var t := Step(s, StartRun(id, None));
            && t.shared == s.shared && t.started == s.started && t.promised == s.promised
            && t.requests[id].stage == Answering(s.requests[id].stage.lock, Failed)
  {}

  /** After a restart the records are those of the file, so exactly the keys on file are known. */
  lemma RestartReloadsTheFile(s: System, key: Key)
    ensures var t := Step(s, Restart);
            && (key in t.shared.records <==> key in s.shared.file)
            && (key in t.shared.records ==> t.shared.records[key] == s.shared.file[key])
            && t.shared.file == s.shared.file && t.requests == map[] && t.promised == s.promised
  {}

  // ---- the table of locks does not grow ----

  /** Whoever is counted as referencing a lock is a request that references it. */
  ghost predicate CountsAreHonest(s: System) {
    forall l, h | l in s.shared.strong && h in s.shared.strong[l] ::
      h in s.requests && Referencing(s.requests[h]) && LockOf(s.requests[h]) == l
  }

  lemma StepKeepsCounts(s: System, l: Label)
    requires LocksAreShared(s) && CountsAreHonest(s) && Enabled(s, l)
    ensures CountsAreHonest(Step(s, l))
  {
    if l.EnterFlight? {
      EnterKeepsCounts(s, l.id);
    } else if !l.Restart? {
      OtherStepsKeepCounts(s, l);
    }
  }

  lemma EnterKeepsCounts(s: System, id: Holder)
    requires LocksAreShared(s) && CountsAreHonest(s) && Enabled(s, EnterFlight(id))
    ensures CountsAreHonest(Step(s, EnterFlight(id)))
  {}

  lemma OtherStepsKeepCounts(s: System, l: Label)
    requires CountsAreHonest(s) && Enabled(s, l) && !l.EnterFlight? && !l.Restart?
    ensures CountsAreHonest(Step(s, l))
  {}

  lemma {:induction false} RunKeepsCounts(states: seq<System>, labels: seq<Label>, i: nat)
    requires IsRun(states, labels) && i < |states|
    ensures CountsAreHonest(states[i])
  {
    if i > 0 {
      RunKeepsCounts(states, labels, i - 1);
      RunKeepsInvariant(states, labels, i - 1);
      StepKeepsCounts(states[i - 1], labels[i - 1]);
    }
  }

  ghost predicate IsInFlight(s: System, key: Key) {
    exists x :: x in s.requests && Referencing(s.requests[x]) && s.requests[x].key == key
  }

  ghost predicate TableIsTidy(s: System) {
    forall key: Key :: IsInFlight(s, key) <==> key in s.shared.flights
  }

  /** The table holds the keys of the requests in flight and no other as soon as one more request has entered it. */
  lemma TableHoldsWhatIsInFlight(states: seq<System>, labels: seq<Label>, i: nat, id: Holder)
    requires IsRun(states, labels) && i < |labels| && labels[i] == EnterFlight(id)
    ensures TableIsTidy(states[i + 1])
  {
    var s, t := states[i], states[i + 1];
    RunKeepsInvariant(states, labels, i);
    RunKeepsInvariant(states, labels, i + 1);
    RunKeepsCounts(states, labels, i);
    forall key | key in t.shared.flights ensures IsInFlight(t, key) {
      if key == s.requests[id].key {
        assert Referencing(t.requests[id]);
      } else {
        assert key in Swept(s.shared.flights, s.shared.strong);
        var x :| x in References(s.shared.strong, s.shared.flights[key]);
        assert s.shared.flights[s.requests[x].key] == s.shared.flights[key];
        assert t.requests[x] == s.requests[x];
      }
    }
  }
}
