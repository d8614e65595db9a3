/**
 * The server half of conditional state reads: the cache of the last observed world with one tag per domain, the
 * two-entry market history behind its own lock, and the sections a caller is sent.
 */
module StateServer {
  import opened Prelude
  import opened TextOrder
  import opened WorldViews

  /** One remembered market state. */
  datatype Revision = Revision(version: nat, world: World)

  /** Everything the two locks guard. */
  datatype ServerState = ServerState(
    observed: Option<nat>,
    state: Option<World>,
    mapJson: Section,
    resourcesJson: Section,
    wildlifeJson: Section,
    versions: Versions,
    history: seq<Revision>)

  const ZeroVersions := Versions(0, 0, 0, 0, 0, 0, 0, 0, 0)

  const InitialServer := ServerState(None, None, Json(""), Json(""), Json(""), ZeroVersions, [])

  /** What a request learns while it holds the domain lock. */
  datatype Observation = Observation(versions: Versions, marketChanged: bool)

  // ---- the steps as functions of the guarded state ----

  function Retag(changed: bool, previous: nat, version: nat): nat {
    if changed then version else previous
  }

  // Each domain is compared with the previously observed world; without one, everything has changed.

  predicate MarketsChanged(was: Option<World>, w: World) {
    was.None? || was.value.markets != w.markets
  }

  predicate StorageChanged(was: Option<World>, w: World) {
    was.None? || was.value.storageByPlayer != w.storageByPlayer || was.value.factionStorage != w.factionStorage
  }

  predicate FacilitiesChanged(was: Option<World>, w: World) {
    was.None? || was.value.facilitiesByPoi != w.facilitiesByPoi || was.value.ownedByPlayer != w.ownedByPlayer
    || was.value.ownedByFaction != w.ownedByFaction
  }

  predicate ObservationsChanged(was: Option<World>, w: World) {
    was.None? || was.value.passengers != w.passengers || was.value.salvage != w.salvage
    || was.value.sightings != w.sightings
  }

  /** The tags after `snap` is observed over `s`: a domain is retagged exactly when its content changed. */
  function NextVersions(s: ServerState, snap: Snapshot): Versions
    requires snap.world.projected.Some?
  {
    var p, w, v := snap.world.projected.value, snap.world, snap.version;
    var was := s.state;
    Versions(
      Retag(was.None? || s.mapJson != p.galaxyMap, s.versions.galaxyMap, v),
      Retag(was.None? || s.resourcesJson != p.resources, s.versions.resources, v),
      Retag(was.None? || s.wildlifeJson != p.wildlife, s.versions.wildlife, v),
      Retag(MarketsChanged(was, w), s.versions.markets, v),
      Retag(StorageChanged(was, w), s.versions.storage, v),
      Retag(FacilitiesChanged(was, w), s.versions.facilities, v),
      Retag(ObservationsChanged(was, w), s.versions.observations, v),
      Retag(was.None? || was.value.chat != w.chat, s.versions.communications, v),
      Retag(was.None? || was.value.factions != w.factions, s.versions.factions, v))
  }

  /** The critical section of the domain lock. None: the world could not be mapped and nothing was changed. */
  function Observe(s: ServerState, snap: Snapshot): (ServerState, Option<Observation>) {
    if s.observed == Some(snap.version) then
      (s, Some(Observation(s.versions, false)))
    else if snap.world.projected.None? then
      (s, None)
    else
      var p := snap.world.projected.value;
      var marketChanged := MarketsChanged(s.state, snap.world);
      var versions := NextVersions(s, snap);
      (s.(observed := Some(snap.version), state := Some(snap.world), mapJson := p.galaxyMap,
          resourcesJson := p.resources, wildlifeJson := p.wildlife, versions := versions),
       Some(Observation(versions, marketChanged)))
  }

  /** Drop from the front until at most two revisions remain. */
  function LastTwo(h: seq<Revision>): seq<Revision> {
    if |h| <= 2 then h else h[|h| - 2..]
  }

  /** The critical section of the history lock after a market change. */
  function Record(h: seq<Revision>, obs: Observation, snap: Snapshot): seq<Revision> {
    if obs.marketChanged && (h == [] || h[|h| - 1].version != obs.versions.markets) then
      LastTwo(h + [Revision(obs.versions.markets, snap.world)])
    else
      h
  }

  /** The first remembered revision with the given version. */
  function FindRevision(h: seq<Revision>, version: nat): (r: Option<World>)
    ensures r.Some? ==> Revision(version, r.value) in h
  {
    if h == [] then None
    else if h[0].version == version then Some(h[0].world)
    else FindRevision(h[1..], version)
  }

  function MarketUpserts(previous: Markets, current: Markets): Markets {
    map id | id in current && !(id in previous && previous[id] == current[id]) :: current[id]
  }

  function StationMarketDelta(baseVersion: nat, previous: Markets, current: Markets): MarketDelta {
    MarketDelta(baseVersion, MarketUpserts(previous, current), Ascending(previous.Keys - current.Keys))
  }

  function When<T>(wanted: bool, value: T): Option<T> {
    if wanted then Some(value) else None
  }

  predicate Includes(query: StateQuery, versions: Versions, d: Domain) {
    query.Requested(d) != Some(versions.Tag(d))
  }

  predicate IncludesAny(query: StateQuery, versions: Versions) {
    || Includes(query, versions, GalaxyMap) || Includes(query, versions, Resources)
    || Includes(query, versions, Wildlife) || Includes(query, versions, MarketPrices)
    || Includes(query, versions, Storage) || Includes(query, versions, Facilities)
    || Includes(query, versions, Observations) || Includes(query, versions, Communications)
    || Includes(query, versions, Factions)
  }

  function BaseFor(h: seq<Revision>, query: StateQuery): Option<World> {
    var requested := query.Requested(MarketPrices);
    if requested.Some? then FindRevision(h, requested.value) else None
  }

  function Sections(h: seq<Revision>, query: StateQuery, snap: Snapshot, versions: Versions): WorldUpdate
    requires snap.world.projected.Some?
  {
    var p, w := snap.world.projected.value, snap.world;
    var markets, storage := Includes(query, versions, MarketPrices), Includes(query, versions, Storage);
    var facilities := Includes(query, versions, Facilities);
    var observations := Includes(query, versions, Observations);
    var base := BaseFor(h, query);
    WorldUpdate(
      When(Includes(query, versions, GalaxyMap), p.galaxyMap),
      When(Includes(query, versions, Resources), p.resources),
      When(Includes(query, versions, Wildlife), p.wildlife),
      When(markets && base.None?, w.markets),
      if markets && base.Some?
      then Some(StationMarketDelta(query.Requested(MarketPrices).value, base.value.markets, w.markets)) else None,
      When(storage, w.storageByPlayer),
      When(storage, w.factionStorage),
      When(facilities, w.facilitiesByPoi),
      When(facilities, w.ownedByPlayer),
      When(facilities, w.ownedByFaction),
      When(observations, w.passengers),
      When(observations, w.salvage),
      When(observations, w.sightings),
      When(Includes(query, versions, Communications), w.chat),
      When(Includes(query, versions, Factions), w.factions))
  }

  /** Building the response; None when a section is wanted and the world cannot be mapped. */
  function Answer(h: seq<Revision>, query: StateQuery, snap: Snapshot, versions: Versions): Option<StateResponse> {
    if !IncludesAny(query, versions) then
      Some(StateResponse(snap.version, versions, None))
    else if snap.world.projected.None? then
      None
    else
      Some(StateResponse(snap.version, versions, Some(Sections(h, query, snap, versions))))
  }

  // ---- what an answer promises ----

  /** The caller holds every domain at the tag it has now. */
  ghost predicate IsCurrent(query: StateQuery, versions: Versions) {
    forall d: Domain :: query.Requested(d) == Some(versions.Tag(d))
  }

  ghost predicate Remembers(h: seq<Revision>, version: Option<nat>) {
    exists r :: r in h && Some(r.version) == version
  }

  /** The delta is against a remembered revision of the requested version and patches it to the current markets. */
  ghost predicate IsDeltaFrom(h: seq<Revision>, version: Option<nat>, delta: MarketDelta, current: Markets) {
    exists r :: r in h && Some(r.version) == version && delta.baseVersion == r.version
                && Patched(r.world.markets, delta) == current
  }

  /**
   * Exactly the domains whose tag differs from the requested one are sent, as the snapshot has them. Markets are sent
   * as a delta when the requested revision is remembered and in full when it is not.
   */
  ghost predicate IsSelective(h: seq<Revision>, query: StateQuery, snap: Snapshot, versions: Versions, u: WorldUpdate) {
    && snap.world.projected.Some?
    && (forall d: Domain | query.Requested(d) == Some(versions.Tag(d)) :: Omits(u, d))
    && (forall d: Domain | query.Requested(d) != Some(versions.Tag(d)) && d != MarketPrices ::
          Sends(u, d, ViewOf(snap.world)))
    && (query.Requested(MarketPrices) != Some(versions.markets) ==>
          if Remembers(h, query.Requested(MarketPrices))
          then u.stationMarkets.None? && u.marketDelta.Some?
               && IsDeltaFrom(h, query.Requested(MarketPrices), u.marketDelta.value, snap.world.markets)
          else u.marketDelta.None? && Sends(u, MarketPrices, ViewOf(snap.world)))
  }

  lemma IncludesSomething(query: StateQuery, versions: Versions)
    ensures IncludesAny(query, versions) <==> !IsCurrent(query, versions)
  {
    if !IncludesAny(query, versions) {
      forall d: Domain ensures query.Requested(d) == Some(versions.Tag(d)) {
        assert !Includes(query, versions, d);
      }
    }
  }

  lemma {:induction false} FindsWhatIsRemembered(h: seq<Revision>, version: nat)
    ensures FindRevision(h, version).Some? <==> Remembers(h, Some(version))
  {
    if h != [] {
      FindsWhatIsRemembered(h[1..], version);
      assert h == [h[0]] + h[1..];
      if Remembers(h[1..], Some(version)) {
        var r :| r in h[1..] && r.version == version;
        assert r in h;
      }
      if h[0].version == version { assert h[0] in h; }
    }
  }

  lemma SectionsAreSelective(h: seq<Revision>, query: StateQuery, snap: Snapshot, versions: Versions)
    requires snap.world.projected.Some?
    ensures IsSelective(h, query, snap, versions, Sections(h, query, snap, versions))
  {
    var u := Sections(h, query, snap, versions);
    forall d: Domain | query.Requested(d) == Some(versions.Tag(d)) ensures Omits(u, d) {
      assert !Includes(query, versions, d);
    }
    forall d: Domain | query.Requested(d) != Some(versions.Tag(d)) && d != MarketPrices
      ensures Sends(u, d, ViewOf(snap.world))
    {
      assert Includes(query, versions, d);
    }
    var requested := query.Requested(MarketPrices);
    if requested != Some(versions.markets) {
      assert Includes(query, versions, MarketPrices);
      if requested.Some? {
        FindsWhatIsRemembered(h, requested.value);
        if Remembers(h, requested) {
          var base := FindRevision(h, requested.value).value;
          DeltaIsExact(requested.value, base.markets, snap.world.markets);
          assert Revision(requested.value, base) in h;
        }
      }
    }
  }

  /** A domain is left out exactly when its tag is the requested one. */
  lemma OmitsExactlyTheCurrent(h: seq<Revision>, query: StateQuery, snap: Snapshot, versions: Versions, d: Domain)
    requires snap.world.projected.Some?
    ensures Omits(Sections(h, query, snap, versions), d) <==> query.Requested(d) == Some(versions.Tag(d))
  {
    assert Includes(query, versions, d) <==> query.Requested(d) != Some(versions.Tag(d));
  }

  /** The shared server state, updated in place under its two locks. */
  class Server {
    var observedWorldVersion: Option<nat>
    var state: Option<World>
    var mapJson: Section
    var resourcesJson: Section
    var wildlifeJson: Section
    var versions: Versions
    var history: seq<Revision>

    ghost function Guarded(): ServerState
      reads this
    {
      ServerState(observedWorldVersion, state, mapJson, resourcesJson, wildlifeJson, versions, history)
    }

    constructor ()
      ensures Guarded() == InitialServer
    {
      observedWorldVersion, state := None, None;
      mapJson, resourcesJson, wildlifeJson := Json(""), Json(""), Json("");
      versions, history := ZeroVersions, [];
    }

    /** The block under the domain lock. */
    method ObserveSnapshot(snap: Snapshot) returns (observation: Option<Observation>)
      modifies this`observedWorldVersion, this`state, this`mapJson, this`resourcesJson, this`wildlifeJson, this`versions
      ensures (Guarded(), observation) == Observe(old(Guarded()), snap)
      ensures IsRetagged(old(Guarded()), snap, versions)
    {
      ObserveRetags(Guarded(), snap);
      var changed := observedWorldVersion != Some(snap.version);
      var marketChanged := false;
      if changed {
        if snap.world.projected.None? {
          return None;
        }
        var p, w, v := snap.world.projected.value, snap.world, snap.version;
        var initial := state.None?;
        marketChanged := MarketsChanged(state, w);
        versions := versions.(galaxyMap := Retag(initial || mapJson != p.galaxyMap, versions.galaxyMap, v));
        versions := versions.(resources := Retag(initial || resourcesJson != p.resources, versions.resources, v));
        versions := versions.(wildlife := Retag(initial || wildlifeJson != p.wildlife, versions.wildlife, v));
        versions := versions.(markets := Retag(marketChanged, versions.markets, v));
        versions := versions.(storage := Retag(StorageChanged(state, w), versions.storage, v));
        versions := versions.(facilities := Retag(FacilitiesChanged(state, w), versions.facilities, v));
        versions := versions.(observations := Retag(ObservationsChanged(state, w), versions.observations, v));
        versions :=
          versions.(communications := Retag(initial || state.value.chat != w.chat, versions.communications, v));
        versions := versions.(factions := Retag(initial || state.value.factions != w.factions, versions.factions, v));
        observedWorldVersion, state := Some(v), Some(w);
        mapJson, resourcesJson, wildlifeJson := p.galaxyMap, p.resources, p.wildlife;
      }
      observation := Some(Observation(versions, marketChanged));
    }

    /** The block under the history lock that follows a market change. */
    method RecordMarkets(obs: Observation, snap: Snapshot)
      modifies this`history
      ensures history == Record(old(history), obs, snap)
      ensures |old(history)| <= 2 ==> |history| <= 2
    {
      if obs.marketChanged && (|history| == 0 || history[|history| - 1].version != obs.versions.markets) {
        history := history + [Revision(obs.versions.markets, snap.world)];
        ghost var pushed := history;
        while |history| > 2
          invariant |history| <= |pushed| && history == pushed[|pushed| - |history|..]
          invariant |history| == |pushed| || |history| >= 2
        {
          history := history[1..];
        }
      }
    }

    /** The remainder of the request: it only reads the history. */
    method Respond(query: StateQuery, snap: Snapshot, domainVersions: Versions)
      returns (response: Option<StateResponse>)
      ensures response == Answer(history, query, snap, domainVersions)
      ensures response.None? <==> !IsCurrent(query, domainVersions) && snap.world.projected.None?
      ensures response.Some? ==>
                && response.value.worldVersion == snap.version && response.value.versions == domainVersions
                && (response.value.world.None? <==> IsCurrent(query, domainVersions))
      ensures response.Some? && response.value.world.Some? ==>
                IsSelective(history, query, snap, domainVersions, response.value.world.value)
    {
      IncludesSomething(query, domainVersions);
      if !IncludesAny(query, domainVersions) {
        return Some(StateResponse(snap.version, domainVersions, None));
      }
      if snap.world.projected.None? {
        return None;
      }
      SectionsAreSelective(history, query, snap, domainVersions);
      return Some(StateResponse(snap.version, domainVersions, Some(Sections(history, query, snap, domainVersions))));
    }
  }

  // ---- what the cache promises ----

  /** The cache holds one published world, and each of its tags names that world's content in its domain. */
  ghost predicate TagsNameContent(worlds: seq<World>, s: ServerState) {
    s.state.Some? ==>
      && s.observed.Some? && s.observed.value < |worlds| && worlds[s.observed.value] == s.state.value
      && s.state.value.projected == Some(Projection(s.mapJson, s.resourcesJson, s.wildlifeJson))
      && NamesAll(worlds, s.versions, ViewOf(s.state.value))
  }

  /** At most two revisions are remembered and each holds the world of its own version. */
  ghost predicate HistoryIsGenuine(worlds: seq<World>, h: seq<Revision>) {
    |h| <= 2 && forall r | r in h :: r.version < |worlds| && worlds[r.version] == r.world
  }

  ghost predicate ServerInvariant(worlds: seq<World>, s: ServerState) {
    (s.state.None? ==> s.observed.None?) && TagsNameContent(worlds, s) && HistoryIsGenuine(worlds, s.history)
  }

  ghost predicate Genuine(worlds: seq<World>, snap: Snapshot) {
    snap.version < |worlds| && worlds[snap.version] == snap.world
  }

  /**
   * Observing any genuine snapshot, older or newer than the cached one, keeps the invariant, and the tags handed to
   * the request name the content of the request's own snapshot.
   */
  lemma ObserveKeepsInvariant(worlds: seq<World>, s: ServerState, snap: Snapshot)
    requires ServerInvariant(worlds, s) && Genuine(worlds, snap)
    ensures ServerInvariant(worlds, Observe(s, snap).0)
    ensures Observe(s, snap).1.Some? ==>
              && snap.world.projected.Some?
              && NamesAll(worlds, Observe(s, snap).1.value.versions, ViewOf(snap.world))
              && (Observe(s, snap).1.value.marketChanged ==> Observe(s, snap).1.value.versions.markets == snap.version)
  {
    if s.observed != Some(snap.version) && snap.world.projected.Some? {
      var versions := NextVersions(s, snap);
      forall d: Domain ensures Names(worlds, d, versions.Tag(d), ViewOf(snap.world)) {
        if s.state.Some? {
          assert Names(worlds, d, s.versions.Tag(d), ViewOf(s.state.value));
        }
      }
    }
  }

  /** The cached sections are those of the cached world. */
  predicate IsMapped(s: ServerState) {
    s.state.Some? && s.state.value.projected == Some(Projection(s.mapJson, s.resourcesJson, s.wildlifeJson))
  }

  /**
   * A new world moves a domain's tag to its own version exactly where its content differs from the cached world; the
   * first world moves every tag.
   */
  lemma TagMovesExactlyOnChange(s: ServerState, snap: Snapshot, d: Domain)
    requires s.state.None? || IsMapped(s)
    requires s.observed != Some(snap.version) && snap.world.projected.Some?
    ensures var (t, obs) := Observe(s, snap);
            && obs.Some? && obs.value.versions == t.versions
            && t.versions.Tag(d) == (if s.state.Some? && SameIn(d, ViewOf(s.state.value), ViewOf(snap.world))
                                     then s.versions.Tag(d) else snap.version)
            && (obs.value.marketChanged <==> s.state.None? || s.state.value.markets != snap.world.markets)
  {}

  /** A new world has moved the tags of the domains it differs in, and of no others. */
  ghost predicate IsRetagged(s: ServerState, snap: Snapshot, versions: Versions) {
    s.observed != Some(snap.version) && snap.world.projected.Some? && (s.state.None? || IsMapped(s)) ==>
      forall d: Domain ::
        versions.Tag(d) == (if s.state.Some? && SameIn(d, ViewOf(s.state.value), ViewOf(snap.world))
                            then s.versions.Tag(d) else snap.version)
  }

  lemma ObserveRetags(s: ServerState, snap: Snapshot)
    ensures IsRetagged(s, snap, Observe(s, snap).0.versions)
  {
    if s.observed != Some(snap.version) && snap.world.projected.Some? && (s.state.None? || IsMapped(s)) {
      forall d: Domain { TagMovesExactlyOnChange(s, snap, d); }
    }
  }

  /** What an observed world leaves behind: itself as the cached world, with the tags handed to the request. */
  lemma ObserveCaches(s: ServerState, snap: Snapshot)
    requires s.observed != Some(snap.version) && snap.world.projected.Some?
    ensures var t := Observe(s, snap).0;
            t.observed == Some(snap.version) && t.state == Some(snap.world) && IsMapped(t) && t.history == s.history
  {}

  /** A version already observed, or a world that cannot be mapped, changes nothing. */
  lemma NothingNewChangesNothing(s: ServerState, snap: Snapshot)
    requires s.observed == Some(snap.version) || snap.world.projected.None?
    ensures Observe(s, snap).0 == s
    ensures Observe(s, snap).1
            == if s.observed == Some(snap.version) then Some(Observation(s.versions, false)) else None
  {}

  lemma RecordKeepsHistory(worlds: seq<World>, h: seq<Revision>, obs: Observation, snap: Snapshot)
    requires HistoryIsGenuine(worlds, h) && Genuine(worlds, snap)
    requires obs.marketChanged ==> obs.versions.markets == snap.version
    ensures HistoryIsGenuine(worlds, Record(h, obs, snap))
  {
  }

  /**
   * A changed market is remembered together with the newest revision before it, and nothing older is; otherwise the
   * history stays as it is. So a caller at the previous market version is sent a delta.
   */
  lemma RemembersTheNewestTwo(h: seq<Revision>, obs: Observation, snap: Snapshot, version: nat)
    requires obs.marketChanged && (h == [] || h[|h| - 1].version != obs.versions.markets)
    ensures Remembers(Record(h, obs, snap), Some(version))
            <==> version == obs.versions.markets || (h != [] && version == h[|h| - 1].version)
    ensures Revision(obs.versions.markets, snap.world) in Record(h, obs, snap)
    ensures h != [] ==> h[|h| - 1] in Record(h, obs, snap)
  {
    var kept, pushed := Record(h, obs, snap), Revision(obs.versions.markets, snap.world);
    assert kept == if h == [] then [pushed] else [h[|h| - 1], pushed];
  }

  function Patched(base: Markets, delta: MarketDelta): Markets {
    (base + delta.upsert) - (set id | id in delta.remove)
  }

  /** A delta patches its base to exactly the current markets. */
  lemma DeltaIsExact(baseVersion: nat, previous: Markets, current: Markets)
    ensures Patched(previous, StationMarketDelta(baseVersion, previous, current)) == current
  {
    UpsertsPatch(previous, current);
    AscendingListsAll(previous.Keys - current.Keys);
  }

  lemma UpsertsPatch(previous: Markets, current: Markets)
    ensures (previous + MarketUpserts(previous, current)) - (previous.Keys - current.Keys) == current
  {
  }

  /** A delta carries no entry that was already right and lists each vanished station once, in order. */
  lemma DeltaIsMinimal(baseVersion: nat, previous: Markets, current: Markets)
    ensures var delta := StationMarketDelta(baseVersion, previous, current);
            && (forall id | id in delta.upsert :: id in current && (id in previous ==> previous[id] != current[id]))
            && (forall id :: id in delta.remove <==> id in previous && id !in current)
            && StrictlyAscending(delta.remove)
  {
    AscendingIsOrdered(previous.Keys - current.Keys);
  }
}
