/**
 * Conditional state reads as a protocol: one server, any number of callers, and a world that keeps being published.
 * A request takes its snapshot before it reaches the domain lock and the history lock, so requests interleave freely
 * and may reach the cache with snapshots out of order; a request may also be abandoned at any of its awaits.
 */
module SyncProtocol {
  import opened Prelude
  import opened WorldViews
  import opened StateServer
  import opened StateClient

  /**
   * Where a call stands. `since` counts the worlds published when the call began; it is used by no step and only
   * lets freshness be stated.
   */
  datatype Call =
    | Idle
    | Asked(since: nat, query: StateQuery)
    | Snapped(since: nat, query: StateQuery, snap: Snapshot)
    | Observed(since: nat, query: StateQuery, snap: Snapshot, obs: Observation)
    | Recorded(since: nat, query: StateQuery, snap: Snapshot, versions: Versions)
    | Answered(since: nat, query: StateQuery, snap: Snapshot, response: StateResponse)

  /** A caller: the stateful client, or anything else that sends queries with tags of its own choosing. */
  datatype Caller =
    | Sdk(cache: Option<Cache>, rereading: bool, call: Call)
    | Foreign(call: Call)

  datatype System = System(worlds: seq<World>, server: ServerState, callers: map<nat, Caller>)

  datatype Label =
    | Publish(world: World)
    | Begin(id: nat, query: StateQuery)
    | Snap(id: nat)
    | Observe(id: nat)
    | Record(id: nat)
    | Respond(id: nat)
    | Deliver(id: nat)
    | Abandon(id: nat)

  ghost predicate Init(s: System) {
    && s.worlds != [] && s.server == InitialServer
    && forall id | id in s.callers ::
         s.callers[id].call == Idle && (s.callers[id].Sdk? ==> s.callers[id].cache == None && !s.callers[id].rereading)
  }

  predicate Enabled(s: System, l: Label) {
    match l
    case Publish(_) => true
    case Begin(id, query) =>
      && id in s.callers && s.callers[id].call.Idle?
      && (s.callers[id].Sdk? ==> query == QueryFor(s.callers[id].cache))
    case Snap(id) => id in s.callers && s.callers[id].call.Asked? && s.worlds != []
    case Observe(id) => id in s.callers && s.callers[id].call.Snapped?
    case Record(id) => id in s.callers && s.callers[id].call.Observed?
    case Respond(id) => id in s.callers && s.callers[id].call.Recorded?
    case Deliver(id) => id in s.callers && s.callers[id].call.Answered?
    case Abandon(id) => id in s.callers && !s.callers[id].call.Idle?
  }

  function WithCall(s: System, id: nat, call: Call): System
    requires id in s.callers
  {
    s.(callers := s.callers[id := s.callers[id].(call := call)])
  }

  /** A client takes a response in: merge it, or throw it away and ask again for everything. */
  function Receive(c: Caller, published: nat, response: StateResponse): Caller
    requires c.Sdk?
  {
    if c.rereading then
      Sdk(FinishReread(c.cache, response).0, false, Idle)
    else
      match Finish(c.cache, response)
      case (cache, Reread) => Sdk(cache, true, Asked(published, EmptyQuery))
      case (cache, _) => Sdk(cache, false, Idle)
  }

  function Step(s: System, l: Label): System
    requires Enabled(s, l)
  {
    match l
    case Publish(world) => s.(worlds := s.worlds + [world])
    case Begin(id, query) => WithCall(s, id, Asked(|s.worlds|, query))
    case Snap(id) =>
      var c := s.callers[id].call;
      var latest := |s.worlds| - 1;
      WithCall(s, id, Snapped(c.since, c.query, Snapshot(latest, s.worlds[latest])))
    case Observe(id) =>
      var c := s.callers[id].call;
      (match StateServer.Observe(s.server, c.snap)
       case (server, None) => WithCall(s.(server := server), id, Idle)
       case (server, Some(obs)) => WithCall(s.(server := server), id, Observed(c.since, c.query, c.snap, obs)))
    case Record(id) =>
      var c := s.callers[id].call;
      var server := s.server.(history := StateServer.Record(s.server.history, c.obs, c.snap));
      WithCall(s.(server := server), id, Recorded(c.since, c.query, c.snap, c.obs.versions))
    case Respond(id) =>
      var c := s.callers[id].call;
      (match Answer(s.server.history, c.query, c.snap, c.versions)
       case None => WithCall(s, id, Idle)
       case Some(response) => WithCall(s, id, Answered(c.since, c.query, c.snap, response)))
    case Deliver(id) =>
      var caller := s.callers[id];
      if caller.Foreign? then WithCall(s, id, Idle)
      else s.(callers := s.callers[id := Receive(caller, |s.worlds|, caller.call.response)])
    case Abandon(id) =>
      if s.callers[id].Sdk? then s.(callers := s.callers[id := Sdk(s.callers[id].cache, false, Idle)])
      else WithCall(s, id, Idle)
  }

  /** A run: states[i + 1] results from states[i] by labels[i]. */
  ghost predicate IsRun(states: seq<System>, labels: seq<Label>) {
    && |states| == |labels| + 1 && Init(states[0])
    && forall i | 0 <= i < |labels| :: Enabled(states[i], labels[i]) && states[i + 1] == Step(states[i], labels[i])
  }

  // ---- exactness of one response ----

  /** Every tag the query claims names, in its domain, what the caller holds. */
  ghost predicate Truthful(worlds: seq<World>, query: StateQuery, held: Option<WorldView>) {
    forall d: Domain :: query.Requested(d).Some? ==>
      held.Some? && Names(worlds, d, query.Requested(d).value, held.value)
  }

  /** A domain the server leaves out is one the caller already holds. */
  lemma OmittedIsHeld(worlds: seq<World>, query: StateQuery, held: Option<WorldView>, snap: Snapshot,
                      versions: Versions, d: Domain)
    requires Truthful(worlds, query, held) && snap.world.projected.Some?
    requires NamesAll(worlds, versions, ViewOf(snap.world))
    requires !Includes(query, versions, d)
    ensures held.Some? && SameIn(d, held.value, ViewOf(snap.world))
  {
    assert Names(worlds, d, versions.Tag(d), ViewOf(snap.world));
    assert Names(worlds, d, query.Requested(d).value, held.value);
  }

  /** The merged market map is that of the snapshot, whichever of the three forms was sent. */
  lemma MarketsMergeExactly(worlds: seq<World>, h: seq<Revision>, query: StateQuery, held: Option<WorldView>,
                            marketTag: Option<nat>, snap: Snapshot, versions: Versions)
    requires Truthful(worlds, query, held) && snap.world.projected.Some?
    requires NamesAll(worlds, versions, ViewOf(snap.world)) && HistoryIsGenuine(worlds, h)
    requires query.Requested(MarketPrices).Some? ==> marketTag == query.Requested(MarketPrices)
    ensures MergeMarkets(held, marketTag, Sections(h, query, snap, versions)) == Ok(Some(snap.world.markets))
  {
    if Includes(query, versions, MarketPrices) {
      var base := BaseFor(h, query);
      if base.Some? {
        var tag := query.Requested(MarketPrices).value;
        assert Revision(tag, base.value) in h;
        assert Names(worlds, MarketPrices, tag, held.value);
        DeltaIsExact(tag, base.value.markets, snap.world.markets);
      }
    } else {
      OmittedIsHeld(worlds, query, held, snap, versions, MarketPrices);
    }
  }

  /** Applying the response to what the caller holds yields exactly the snapshot the response was built from. */
  lemma AnswerIsExact(worlds: seq<World>, h: seq<Revision>, query: StateQuery, held: Option<WorldView>,
                      marketTag: Option<nat>, snap: Snapshot, versions: Versions)
    requires Truthful(worlds, query, held) && snap.world.projected.Some?
    requires NamesAll(worlds, versions, ViewOf(snap.world)) && HistoryIsGenuine(worlds, h)
    requires query.Requested(MarketPrices).Some? ==> marketTag == query.Requested(MarketPrices)
    ensures var answer := Answer(h, query, snap, versions);
            && answer.Some? && answer.value.versions == versions && answer.value.worldVersion == snap.version
            && (answer.value.world.None? ==> held == Some(ViewOf(snap.world)))
            && (answer.value.world.Some? ==>
                  ApplyWorldUpdate(held, marketTag, answer.value.world.value) == Ok(ViewOf(snap.world)))
  {
    if IncludesAny(query, versions) {
      MarketsMergeExactly(worlds, h, query, held, marketTag, snap, versions);
      OverlayIsExact(worlds, h, query, held, snap, versions);
    } else {
      forall d: Domain ensures held.Some? && SameIn(d, held.value, ViewOf(snap.world)) {
        OmittedIsHeld(worlds, query, held, snap, versions, d);
      }
      DomainsCoverView(held.value, ViewOf(snap.world));
    }
  }

  lemma OverlayIsExact(worlds: seq<World>, h: seq<Revision>, query: StateQuery, held: Option<WorldView>,
                       snap: Snapshot, versions: Versions)
    requires Truthful(worlds, query, held) && snap.world.projected.Some?
    requires NamesAll(worlds, versions, ViewOf(snap.world))
    ensures var u := Sections(h, query, snap, versions);
            && (held.Some? ==> Overlay(held.value, u, snap.world.markets) == ViewOf(snap.world))
            && (held.None? ==> AllSent(u) && Standalone(u, snap.world.markets) == ViewOf(snap.world))
  {
    var u := Sections(h, query, snap, versions);
    forall d: Domain ensures !Includes(query, versions, d) ==> held.Some? && SameIn(d, held.value, ViewOf(snap.world)) {
      if !Includes(query, versions, d) {
        OmittedIsHeld(worlds, query, held, snap, versions, d);
      }
    }
    if held.Some? {
      var merged := Overlay(held.value, u, snap.world.markets);
      forall d: Domain ensures SameIn(d, merged, ViewOf(snap.world)) {
        assert Includes(query, versions, d) || SameIn(d, held.value, ViewOf(snap.world));
      }
      DomainsCoverView(merged, ViewOf(snap.world));
    } else {
      assert forall d: Domain :: Includes(query, versions, d);
    }
  }

  // ---- the invariant of every run ----

  /** A cached snapshot is a published world whose tags name its content. */
  ghost predicate CacheIsGenuine(worlds: seq<World>, c: Cache) {
    && c.worldVersion < |worlds| && worlds[c.worldVersion].projected.Some?
    && c.world == ViewOf(worlds[c.worldVersion]) && NamesAll(worlds, c.versions, c.world)
  }

  function HeldBy(cache: Option<Cache>): Option<WorldView> {
    if cache.Some? then Some(cache.value.world) else None
  }

  lemma ClientQueryIsTruthful(worlds: seq<World>, cache: Option<Cache>)
    requires cache.Some? ==> CacheIsGenuine(worlds, cache.value)
    ensures Truthful(worlds, QueryFor(cache), HeldBy(cache))
    ensures QueryFor(cache).Requested(MarketPrices) ==
            if cache.Some? then Some(cache.value.versions.markets) else None
  {
    if cache.Some? {
      forall d: Domain ensures QueryFor(cache).Requested(d) == Some(cache.value.versions.Tag(d)) {
      }
      assert forall d: Domain :: Names(worlds, d, cache.value.versions.Tag(d), cache.value.world);
    }
  }

  /** What a call in flight may rely on, whoever made it. */
  ghost predicate CallIsSound(worlds: seq<World>, c: Call) {
    match c
    case Idle => true
    case Asked(since, _) => since <= |worlds|
    case Snapped(since, _, snap) => Genuine(worlds, snap) && since <= snap.version + 1
    case Observed(since, _, snap, obs) =>
      && Genuine(worlds, snap) && since <= snap.version + 1 && snap.world.projected.Some?
      && NamesAll(worlds, obs.versions, ViewOf(snap.world))
      && (obs.marketChanged ==> obs.versions.markets == snap.version)
    case Recorded(since, _, snap, versions) =>
      && Genuine(worlds, snap) && since <= snap.version + 1 && snap.world.projected.Some?
      && NamesAll(worlds, versions, ViewOf(snap.world))
    case Answered(since, _, snap, response) =>
      && Genuine(worlds, snap) && since <= snap.version + 1 && snap.world.projected.Some?
      && response.worldVersion == snap.version && NamesAll(worlds, response.versions, ViewOf(snap.world))
  }

  /** The cache a finished call leaves: the snapshot its response was built from, section for section. */
  function ExactCache(call: Call): Cache
    requires call.Answered? && call.snap.world.projected.Some?
  {
    Cache(call.snap.version, call.response.versions, ViewOf(call.snap.world))
  }

  ghost predicate CallerIsSound(worlds: seq<World>, c: Caller) {
    && CallIsSound(worlds, c.call)
    && (c.Sdk? ==>
          && !c.rereading
          && (c.cache.Some? ==> CacheIsGenuine(worlds, c.cache.value))
          && (!c.call.Idle? ==>
                && c.call.query == QueryFor(c.cache)
                && (c.cache.Some? ==> c.cache.value.worldVersion < c.call.since))
          && (c.call.Answered? ==> Finish(c.cache, c.call.response) == (Some(ExactCache(c.call)), Merged)))
  }

  ghost predicate Invariant(s: System) {
    && s.worlds != [] && ServerInvariant(s.worlds, s.server)
    && forall id | id in s.callers :: CallerIsSound(s.worlds, s.callers[id])
  }

  lemma PublishKeepsCaller(worlds: seq<World>, w: World, c: Caller)
    requires CallerIsSound(worlds, c)
    ensures CallerIsSound(worlds + [w], c)
  {
    if c.Sdk? && c.cache.Some? { NamesAllKept(worlds, w, c.cache.value.versions, c.cache.value.world); }
    match c.call
    case Observed(_, _, snap, obs) => NamesAllKept(worlds, w, obs.versions, ViewOf(snap.world));
    case Recorded(_, _, snap, versions) => NamesAllKept(worlds, w, versions, ViewOf(snap.world));
    case Answered(_, _, snap, response) => NamesAllKept(worlds, w, response.versions, ViewOf(snap.world));
    case _ =>
  }

  lemma PublishKeepsServer(worlds: seq<World>, w: World, s: ServerState)
    requires ServerInvariant(worlds, s)
    ensures ServerInvariant(worlds + [w], s)
  {
    if s.state.Some? { NamesAllKept(worlds, w, s.versions, ViewOf(s.state.value)); }
  }

  /** Building a response for a sound call leaves a sound caller. */
  lemma RespondIsSound(s: System, id: nat)
    requires Invariant(s) && Enabled(s, Respond(id))
    ensures CallerIsSound(s.worlds, Step(s, Respond(id)).callers[id])
  {
    var caller := s.callers[id];
    var call := caller.call;
    assert CallerIsSound(s.worlds, caller);
    if caller.Sdk? {
      ClientQueryIsTruthful(s.worlds, caller.cache);
      AnswerIsExact(s.worlds, s.server.history, call.query, HeldBy(caller.cache),
                    if caller.cache.Some? then Some(caller.cache.value.versions.markets) else None,
                    call.snap, call.versions);
    }
  }

  /** Every step, of any caller or of the publisher, keeps the invariant. */
  lemma StepKeepsInvariant(s: System, l: Label)
    requires Invariant(s) && Enabled(s, l)
    ensures Invariant(Step(s, l))
  {
    var t := Step(s, l);
    match l
    case Publish(w) =>
      PublishKeepsServer(s.worlds, w, s.server);
      forall id | id in t.callers ensures CallerIsSound(t.worlds, t.callers[id]) {
        PublishKeepsCaller(s.worlds, w, s.callers[id]);
      }
    case Observe(id) =>
      assert CallerIsSound(s.worlds, s.callers[id]);
      ObserveKeepsInvariant(s.worlds, s.server, s.callers[id].call.snap);
    case Record(id) =>
      assert CallerIsSound(s.worlds, s.callers[id]);
      RecordKeepsHistory(s.worlds, s.server.history, s.callers[id].call.obs, s.callers[id].call.snap);
    case Respond(id) => RespondIsSound(s, id);
    case _ =>
      forall id | id in t.callers ensures CallerIsSound(t.worlds, t.callers[id]) {
        assert CallerIsSound(s.worlds, s.callers[id]);
      }
  }

  lemma {:induction false} RunKeepsInvariant(states: seq<System>, labels: seq<Label>, i: nat)
    requires IsRun(states, labels) && i < |states|
    ensures Invariant(states[i])
  {
    if i > 0 {
      RunKeepsInvariant(states, labels, i - 1);
      StepKeepsInvariant(states[i - 1], labels[i - 1]);
    }
  }

  // ---- the main results ----

  /** In every reachable state the tags name content and the history is genuine, however late snapshots arrived. */
  lemma TagsAlwaysNameContent(states: seq<System>, labels: seq<Label>, i: nat)
    requires IsRun(states, labels) && i < |states|
    ensures TagsNameContent(states[i].worlds, states[i].server)
    ensures HistoryIsGenuine(states[i].worlds, states[i].server.history)
  {
    RunKeepsInvariant(states, labels, i);
  }

  /**
   * End-to-end coherence. Whatever else happens, when a client's call is delivered the response is merged, never
   * rejected and never reread, and the client then holds exactly the snapshot that response was built from. That
   * snapshot is a published world no older than the latest one when the call began, nor than the one held before.
   */
  lemma Coherence(states: seq<System>, labels: seq<Label>, k: nat, id: nat)
    requires IsRun(states, labels) && k < |labels| && labels[k] == Deliver(id)
    requires id in states[k].callers && states[k].callers[id].Sdk?
    ensures var before, call := states[k].callers[id], states[k].callers[id].call;
            && call.Answered? && Genuine(states[k].worlds, call.snap) && call.snap.world.projected.Some?
            && Finish(before.cache, call.response).1 == Merged
            && states[k + 1].callers[id] == Sdk(Some(ExactCache(call)), false, Idle)
            && call.since <= call.snap.version + 1
            && (before.cache.Some? ==> before.cache.value.worldVersion <= call.snap.version)
  {
    RunKeepsInvariant(states, labels, k);
    assert CallerIsSound(states[k].worlds, states[k].callers[id]);
  }

  /**
   * A client that could not use a delta asks for everything, and whatever snapshot the server then answers from is what
   * it holds next.
   */
  lemma UnusableDeltaIsRecovered(worlds: seq<World>, h: seq<Revision>, c: Caller, published: nat,
                                 response: StateResponse, snap: Snapshot, versions: Versions)
    requires c.Sdk? && !c.rereading && Finish(c.cache, response).1 == Reread
    requires snap.world.projected.Some? && NamesAll(worlds, versions, ViewOf(snap.world)) && HistoryIsGenuine(worlds, h)
    ensures var asking := Receive(c, published, response);
            && asking.call == Asked(published, EmptyQuery) && asking.cache == c.cache
            && var answer := Answer(h, asking.call.query, snap, versions);
               && answer.Some?
               && Receive(asking, published, answer.value)
                  == Sdk(Some(Cache(snap.version, versions, ViewOf(snap.world))), false, Idle)
  {
    MergesExactlyWhen(c.cache, response);
    RereadRestores(worlds, h, c.cache, snap, versions);
  }

  // ---- nothing is sent twice ----

  /** The caller holds every domain at the tag the server has for it. */
  ghost predicate IsUpToDate(s: ServerState, query: StateQuery) {
    IsCurrent(query, s.versions)
  }

  /** Where contents differ, the tag that names the old content is not the version of the new world. */
  lemma ChangedTagIsNew(worlds: seq<World>, s: ServerState, snap: Snapshot, d: Domain)
    requires ServerInvariant(worlds, s) && Genuine(worlds, snap) && s.state.Some? && snap.world.projected.Some?
    ensures var obs := StateServer.Observe(s, snap).1;
            && obs.Some?
            && (obs.value.versions.Tag(d) == s.versions.Tag(d)
                <==> SameIn(d, ViewOf(s.state.value), ViewOf(snap.world)))
  {
    assert Names(worlds, d, s.versions.Tag(d), ViewOf(s.state.value));
    if s.observed == Some(snap.version) {
      NothingNewChangesNothing(s, snap);
    } else {
      TagMovesExactlyOnChange(s, snap, d);
    }
  }

  /** Nothing at all is sent when the views agree; otherwise exactly the domains in which they differ. */
  ghost predicate SentIsDifference(response: StateResponse, was: WorldView, now: WorldView) {
    if response.world.None? then was == now
    else forall d: Domain :: Omits(response.world.value, d) <==> SameIn(d, was, now)
  }

  /** An answer under tags that are the requested ones exactly where the contents agree. */
  lemma AnswerIsDifference(h: seq<Revision>, query: StateQuery, snap: Snapshot, versions: Versions, was: WorldView)
    requires snap.world.projected.Some?
    requires forall d: Domain ::
               query.Requested(d) == Some(versions.Tag(d)) <==> SameIn(d, was, ViewOf(snap.world))
    ensures var answer := Answer(h, query, snap, versions);
            answer.Some? && SentIsDifference(answer.value, was, ViewOf(snap.world))
  {
    IncludesSomething(query, versions);
    if IncludesAny(query, versions) {
      forall d: Domain
        ensures Omits(Sections(h, query, snap, versions), d) <==> SameIn(d, was, ViewOf(snap.world))
      {
        OmitsExactlyTheCurrent(h, query, snap, versions, d);
      }
    } else {
      DomainsCoverView(was, ViewOf(snap.world));
    }
  }

  /** A caller up to date with the cached world is sent, from the next one, exactly what differs between them. */
  lemma SendsExactlyTheDifference(worlds: seq<World>, s: ServerState, h: seq<Revision>, query: StateQuery,
                                  snap: Snapshot)
    requires ServerInvariant(worlds, s) && Genuine(worlds, snap) && s.state.Some? && snap.world.projected.Some?
    requires IsUpToDate(s, query)
    ensures var obs := StateServer.Observe(s, snap).1;
            && obs.Some?
            && var answer := Answer(h, query, snap, obs.value.versions);
               answer.Some? && SentIsDifference(answer.value, ViewOf(s.state.value), ViewOf(snap.world))
  {
    ChangedTagIsNew(worlds, s, snap, GalaxyMap);
    var versions := StateServer.Observe(s, snap).1.value.versions;
    forall d: Domain
      ensures query.Requested(d) == Some(versions.Tag(d)) <==> SameIn(d, ViewOf(s.state.value), ViewOf(snap.world))
    {
      ChangedTagIsNew(worlds, s, snap, d);
    }
    AnswerIsDifference(h, query, snap, versions, ViewOf(s.state.value));
  }

  /** The label is a step of the caller. */
  predicate IsBy(l: Label, id: nat) {
    match l
    case Publish(_) => false
    case Begin(x, _) => x == id
    case Snap(x) => x == id
    case Observe(x) => x == id
    case Record(x) => x == id
    case Respond(x) => x == id
    case Deliver(x) => x == id
    case Abandon(x) => x == id
  }

  lemma {:induction false} CallerWaits(states: seq<System>, labels: seq<Label>, i: nat, j: nat, id: nat)
    requires IsRun(states, labels) && i <= j < |states| && id in states[i].callers
    requires forall k | i <= k < j :: !IsBy(labels[k], id)
    ensures id in states[j].callers && states[j].callers[id] == states[i].callers[id]
    decreases j
  {
    if i < j { CallerWaits(states, labels, i, j - 1, id); }
  }

  /**
   * Economy of every run. A caller that holds the cached world's tags in all domains reaches the domain lock, then the
   * history lock, then has its answer built, everything else happening in between as it likes: it is sent exactly the
   * domains in which its own snapshot differs from the world that was cached when it reached the domain lock.
   */
  lemma OnlyTheDifferenceIsSent(states: seq<System>, labels: seq<Label>, i: nat, j: nat, k: nat, id: nat)
    requires IsRun(states, labels) && i < j < k < |labels|
    requires labels[i] == Observe(id) && labels[j] == Record(id) && labels[k] == Respond(id)
    requires forall m | i < m < j || j < m < k :: !IsBy(labels[m], id)
    requires states[i].server.state.Some? && IsUpToDate(states[i].server, states[i].callers[id].call.query)
    ensures var call := states[k + 1].callers[id].call;
            && call.Answered? && call.snap == states[i].callers[id].call.snap
            && states[i].server.state.value.projected.Some? && call.snap.world.projected.Some?
            && SentIsDifference(call.response, ViewOf(states[i].server.state.value), ViewOf(call.snap.world))
  {
    var s, call := states[i], states[i].callers[id].call;
    RunKeepsInvariant(states, labels, i);
    assert CallerIsSound(s.worlds, s.callers[id]);
    CallerWaits(states, labels, i + 1, j, id);
    CallerWaits(states, labels, j + 1, k, id);
    assert StateServer.Observe(s.server, call.snap).1.Some?;
    RunKeepsInvariant(states, labels, i + 1);
    assert CallerIsSound(states[i + 1].worlds, states[i + 1].callers[id]);
    SendsExactlyTheDifference(s.worlds, s.server, states[k].server.history, call.query, call.snap);
  }

  /** The cached worlds between two moments all have the content of the first in the domain. */
  ghost predicate IsQuiet(states: seq<System>, i: nat, j: nat, d: Domain)
    requires i <= j < |states|
  {
    forall k | i <= k <= j ::
      && states[k].server.state.Some? && states[k].server.state.value.projected.Some?
      && states[i].server.state.Some? && states[i].server.state.value.projected.Some?
      && SameIn(d, ViewOf(states[i].server.state.value), ViewOf(states[k].server.state.value))
  }

  /** While the cached content of a domain stays the same its tag stays too, whatever else the worlds between bring. */
  lemma {:induction false} QuietDomainKeepsTag(states: seq<System>, labels: seq<Label>, i: nat, j: nat, d: Domain)
    requires IsRun(states, labels) && i <= j < |states| && IsQuiet(states, i, j, d)
    ensures states[j].server.versions.Tag(d) == states[i].server.versions.Tag(d)
    decreases j
  {
    if i < j {
      QuietDomainKeepsTag(states, labels, i, j - 1, d);
      RunKeepsInvariant(states, labels, j - 1);
      var s, l := states[j - 1], labels[j - 1];
      if l.Observe? {
        var snap := s.callers[l.id].call.snap;
        assert SameIn(d, ViewOf(s.server.state.value), ViewOf(states[j].server.state.value));
        if s.server.observed == Some(snap.version) || snap.world.projected.None? {
          NothingNewChangesNothing(s.server, snap);
        } else {
          TagMovesExactlyOnChange(s.server, snap, d);
          ObserveCaches(s.server, snap);
        }
      }
    }
  }

  /** A full reread rebuilds the snapshot it was answered from, whatever the client held before. */
  lemma RereadRestores(worlds: seq<World>, h: seq<Revision>, cache: Option<Cache>, snap: Snapshot, versions: Versions)
    requires snap.world.projected.Some? && NamesAll(worlds, versions, ViewOf(snap.world)) && HistoryIsGenuine(worlds, h)
    ensures Answer(h, EmptyQuery, snap, versions).Some?
    ensures FinishReread(cache, Answer(h, EmptyQuery, snap, versions).value)
            == (Some(Cache(snap.version, versions, ViewOf(snap.world))), Merged)
  {
    assert forall d: Domain :: EmptyQuery.Requested(d) == None;
    AnswerIsExact(worlds, h, EmptyQuery, None, None, snap, versions);
    assert Includes(EmptyQuery, versions, GalaxyMap);
  }
}
