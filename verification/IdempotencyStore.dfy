/**
 * The shared state behind idempotent run creation: the record map, the table of per-key single-flight locks that only
 * holds weak references, the mutexes themselves, and the file the records are written to.
 */
module IdempotencyStore {
  import opened Prelude

  datatype Kind = ActionRun | ScriptRun

  datatype Key = Key(bot: string, text: string, kind: Kind)

  type RunId = string

  datatype Record = Record(fingerprint: string, run: RunId)

  /** The identity of a lock object, and of the request that holds a strong reference or the mutex. */
  type LockId = nat
  type Holder = nat

  /**
   * `strong[l]` are the holders of a strong reference to lock `l`, so its strong count is their number; `locked[l]` is
   * the holder of the mutex itself.
   */
  datatype Shared = Shared(
    records: map<Key, Record>,
    flights: map<Key, LockId>,
    strong: map<LockId, set<Holder>>,
    locked: map<LockId, Holder>,
    nextLock: LockId,
    persisting: Option<Holder>,
    file: map<Key, Record>)

  function References(strong: map<LockId, set<Holder>>, l: LockId): set<Holder> {
    if l in strong then strong[l] else {}
  }

  /** The table after sweeping: entries whose lock nobody references any more are gone. */
  function Swept(flights: map<Key, LockId>, strong: map<LockId, set<Holder>>): map<Key, LockId> {
    map k | k in flights && References(strong, flights[k]) != {} :: flights[k]
  }

  /** Under the table's lock: sweep, then share the key's lock or create one. */
  function Enter(s: Shared, key: Key, holder: Holder): (Shared, LockId) {
    var swept := Swept(s.flights, s.strong);
    if key in swept then
      var l := swept[key];
      (s.(flights := swept, strong := s.strong[l := References(s.strong, l) + {holder}]), l)
    else
      var l := s.nextLock;
      (s.(flights := swept[key := l], strong := s.strong[l := {holder}], nextLock := l + 1), l)
  }

  function LockFor(s: Shared, l: LockId, holder: Holder): Shared {
    s.(locked := s.locked[l := holder])
  }

  function Unlock(s: Shared, l: LockId): Shared {
    s.(locked := s.locked - {l})
  }

  function Forget(s: Shared, l: LockId, holder: Holder): Shared {
    s.(strong := s.strong[l := References(s.strong, l) - {holder}])
  }

  /** Restarting the process: only the file survives, and the records are loaded from it. */
  function Restarted(s: Shared): Shared {
    Shared(s.file, map[], map[], map[], 0, None, s.file)
  }

  /** The store, each method one critical section. */
  class Store {
    var records: map<Key, Record>
    var flights: map<Key, LockId>
    var strong: map<LockId, set<Holder>>
    var locked: map<LockId, Holder>
    var nextLock: LockId
    var persisting: Option<Holder>
    var file: map<Key, Record>

    ghost function State(): Shared
      reads this
    {
      Shared(records, flights, strong, locked, nextLock, persisting, file)
    }

    constructor (persisted: map<Key, Record>)
      ensures State() == Shared(persisted, map[], map[], map[], 0, None, persisted)
    {
      records, file := persisted, persisted;
      flights, strong, locked, nextLock, persisting := map[], map[], map[], 0, None;
    }

    /** The first half of the key guard: everything done while the table is locked. */
    method EnterFlight(key: Key, holder: Holder) returns (lock: LockId)
      modifies this`flights, this`strong, this`nextLock
      ensures (State(), lock) == Enter(old(State()), key, holder)
    {
      var todo := flights.Keys;
      ghost var all := flights;
      while todo != {}
        invariant todo <= flights.Keys <= all.Keys
        invariant strong == old(strong) && nextLock == old(nextLock)
        invariant forall k | k in flights :: flights[k] == all[k]
        invariant forall k | k in all && k !in todo :: k in flights <==> References(strong, all[k]) != {}
        decreases |todo|
      {
        var k :| k in todo;
        if References(strong, flights[k]) == {} {
          flights := flights - {k};
        }
        todo := todo - {k};
      }
      assert forall k | k in flights :: References(strong, flights[k]) != {};
      assert flights == Swept(all, strong);
      if key in flights {
        lock := flights[key];
        strong := strong[lock := References(strong, lock) + {holder}];
      } else {
        lock := nextLock;
        flights := flights[key := lock];
        strong := strong[lock := {holder}];
        nextLock := lock + 1;
      }
    }

    /** The second half of the key guard, once the mutex is free. */
    method AcquireMutex(lock: LockId, holder: Holder)
      requires lock !in locked
      modifies this`locked
      ensures State() == LockFor(old(State()), lock, holder)
    {
      locked := locked[lock := holder];
    }

    method Get(key: Key) returns (record: Option<Record>)
      ensures record == if key in records then Some(records[key]) else None
    {
      record := if key in records then Some(records[key]) else None;
    }

    method Insert(key: Key, record: Record)
      modifies this`records
      ensures State() == old(State()).(records := old(records)[key := record])
    {
      records := records[key := record];
    }

    method AcquirePersistence(holder: Holder)
      requires persisting.None?
      modifies this`persisting
      ensures State() == old(State()).(persisting := Some(holder))
    {
      persisting := Some(holder);
    }

    method CloneRecords() returns (snapshot: map<Key, Record>)
      ensures snapshot == records
    {
      snapshot := records;
    }

    /** Write a temporary file and rename it over the old one; a failed write leaves the old file. */
    method Persist(snapshot: map<Key, Record>, written: bool)
      modifies this`file, this`persisting
      ensures State() == old(State()).(persisting := None, file := if written then snapshot else old(file))
    {
      if written { file := snapshot; }
      persisting := None;
    }

    /** Dropping the guard unlocks the mutex and then gives the reference up. */
    method ReleaseMutex(lock: LockId)
      modifies this`locked
      ensures State() == Unlock(old(State()), lock)
    {
      locked := locked - {lock};
    }

    method DropReference(lock: LockId, holder: Holder)
      modifies this`strong
      ensures State() == Forget(old(State()), lock, holder)
    {
      strong := strong[lock := References(strong, lock) - {holder}];
    }
  }
}
