/** The client half of conditional state reads: the snapshot it keeps, the tags it sends, how a response is merged. */
module StateClient {
  import opened Prelude
  import opened WorldViews
  import StateServer

  /** The client's cached snapshot: the world and the tags that came with it. */
  datatype Cache = Cache(worldVersion: nat, versions: Versions, world: WorldView)

  datatype ClientError = DeltaWithoutBase | DeltaBaseMismatch | IncompleteWorld | IncompleteSnapshot

  /** How a response ended: merged, discarded in favour of a full reread, or rejected. */
  datatype Outcome = Merged | Reread | Rejected(error: ClientError)

  /** The tags of the cached snapshot, or none at all. */
  function QueryFor(cache: Option<Cache>): StateQuery {
    match cache
    case None => EmptyQuery
    case Some(c) =>
      var t := c.versions;
      StateQuery(Some(c.worldVersion), Some(t.galaxyMap), Some(t.resources), Some(t.wildlife), Some(t.markets),
                 Some(t.storage), Some(t.facilities), Some(t.observations), Some(t.communications), Some(t.factions))
  }

  /** The market map after an update: sent in full, patched from the cached base, or carried over. */
  function MergeMarkets(previous: Option<WorldView>, marketTag: Option<nat>, update: WorldUpdate)
    : Result<Option<Markets>, ClientError>
  {
    if update.stationMarkets.Some? then Ok(update.stationMarkets)
    else if update.marketDelta.Some? then
      if previous.None? then Err(DeltaWithoutBase)
      else if Some(update.marketDelta.value.baseVersion) != marketTag then Err(DeltaBaseMismatch)
      else Ok(Some(StateServer.Patched(previous.value.markets, update.marketDelta.value)))
    else Ok(if previous.Some? then Some(previous.value.markets) else None)
  }

  predicate AllSent(u: WorldUpdate) {
    && u.galaxyMap.Some? && u.resources.Some? && u.wildlife.Some? && u.storageByPlayer.Some?
    && u.factionStorage.Some? && u.facilitiesByPoi.Some? && u.ownedByPlayer.Some? && u.ownedByFaction.Some?
    && u.passengers.Some? && u.salvage.Some? && u.sightings.Some? && u.chat.Some? && u.factions.Some?
  }

  /** Sections of the update over those of a previous view. */
  function Overlay(p: WorldView, u: WorldUpdate, markets: Markets): WorldView {
    WorldView(
      u.galaxyMap.GetOr(p.galaxyMap), u.resources.GetOr(p.resources), u.wildlife.GetOr(p.wildlife), markets,
      u.storageByPlayer.GetOr(p.storageByPlayer), u.factionStorage.GetOr(p.factionStorage),
      u.facilitiesByPoi.GetOr(p.facilitiesByPoi), u.ownedByPlayer.GetOr(p.ownedByPlayer),
      u.ownedByFaction.GetOr(p.ownedByFaction), u.passengers.GetOr(p.passengers), u.salvage.GetOr(p.salvage),
      u.sightings.GetOr(p.sightings), u.chat.GetOr(p.chat), u.factions.GetOr(p.factions))
  }

  /** Without a previous view every section has to be in the update. */
  function Standalone(u: WorldUpdate, markets: Markets): WorldView
    requires AllSent(u)
  {
    WorldView(
      u.galaxyMap.value, u.resources.value, u.wildlife.value, markets, u.storageByPlayer.value, u.factionStorage.value,
      u.facilitiesByPoi.value, u.ownedByPlayer.value, u.ownedByFaction.value, u.passengers.value, u.salvage.value,
      u.sightings.value, u.chat.value, u.factions.value)
  }

  function ApplyWorldUpdate(previous: Option<WorldView>, marketTag: Option<nat>, update: WorldUpdate)
    : Result<WorldView, ClientError>
  {
    match MergeMarkets(previous, marketTag, update)
    case Err(e) => Err(e)
    case Ok(None) => Err(IncompleteWorld)
    case Ok(Some(markets)) =>
      if previous.Some? then Ok(Overlay(previous.value, update, markets))
      else if AllSent(update) then Ok(Standalone(update, markets))
      else Err(IncompleteWorld)
  }

  /** The world a response leads to from a cached snapshot. */
  function MergedWorld(cache: Option<Cache>, response: StateResponse): Result<WorldView, ClientError> {
    var previous := if cache.Some? then Some(cache.value.world) else None;
    var marketTag := if cache.Some? then Some(cache.value.versions.markets) else None;
    if response.world.Some? then ApplyWorldUpdate(previous, marketTag, response.world.value)
    else if previous.Some? then Ok(previous.value)
    else Err(IncompleteSnapshot)
  }

  /** The cache and outcome after a response. Any rejected update that carried a market delta asks for a full reread. */
  function Finish(cache: Option<Cache>, response: StateResponse): (Option<Cache>, Outcome) {
    match MergedWorld(cache, response)
    case Ok(world) => (Some(Cache(response.worldVersion, response.versions, world)), Merged)
    case Err(e) =>
      if response.world.Some? && response.world.value.marketDelta.Some? then (cache, Reread)
      else (cache, Rejected(e))
  }

  /**
   * A client with a cache can take in any answer but a delta against markets it does not hold; one without needs every
   * section, markets in full among them. A refused answer leaves the cache alone, and asks for a reread when it carried
   * a delta.
   */
  lemma MergesExactlyWhen(cache: Option<Cache>, response: StateResponse)
    ensures var (after, outcome) := Finish(cache, response);
            && (outcome == Merged
                <==> if response.world.None? then cache.Some?
                     else if cache.None? then SendsAll(response.world.value)
                     else (|| response.world.value.stationMarkets.Some?
                           || response.world.value.marketDelta.None?
                           || response.world.value.marketDelta.value.baseVersion == cache.value.versions.markets))
            && (outcome == Reread
                <==> outcome != Merged && response.world.Some? && response.world.value.marketDelta.Some?)
            && (outcome != Merged ==> after == cache)
  {}

  /** The cache and outcome after the full reread, which ignores the cached snapshot. */
  function FinishReread(cache: Option<Cache>, response: StateResponse): (Option<Cache>, Outcome) {
    if response.world.None? then (cache, Rejected(IncompleteSnapshot))
    else
      match ApplyWorldUpdate(None, None, response.world.value)
      case Ok(world) => (Some(Cache(response.worldVersion, response.versions, world)), Merged)
      case Err(e) => (cache, Rejected(e))
  }

  /** The stateful client. A call is split where the source awaits the network. */
  class Client {
    var stateCache: Option<Cache>

    constructor ()
      ensures stateCache == None
    {
      stateCache := None;
    }

    /** The query a call sends. */
    method BeginState() returns (query: StateQuery)
      ensures query == QueryFor(stateCache)
      ensures stateCache.None? ==> forall d: Domain :: query.Requested(d) == None
      ensures stateCache.Some? ==> forall d: Domain :: query.Requested(d) == Some(stateCache.value.versions.Tag(d))
    {
      if stateCache.None? {
        return EmptyQuery;
      }
      var c := stateCache.value;
      var t := c.versions;
      query := StateQuery(Some(c.worldVersion), Some(t.galaxyMap), Some(t.resources), Some(t.wildlife), Some(t.markets),
                          Some(t.storage), Some(t.facilities), Some(t.observations), Some(t.communications),
                          Some(t.factions));
    }

    /** Spread the upserts over the cached markets, then delete the removed stations one by one. */
    static method PatchMarkets(base: Markets, delta: MarketDelta) returns (markets: Markets)
      ensures markets == StateServer.Patched(base, delta)
    {
      markets := base + delta.upsert;
      var k := 0;
      while k < |delta.remove|
        invariant 0 <= k <= |delta.remove|
        invariant markets == (base + delta.upsert) - (set id | id in delta.remove[..k])
      {
        assert delta.remove[..k + 1] == delta.remove[..k] + [delta.remove[k]];
        markets := markets - {delta.remove[k]};
        k := k + 1;
      }
      assert delta.remove[..k] == delta.remove;
    }

    /** The rest of the call once the response has arrived. */
    method FinishState(response: StateResponse) returns (outcome: Outcome)
      modifies this
      ensures (stateCache, outcome) == Finish(old(stateCache), response)
    {
      var previous := if stateCache.Some? then Some(stateCache.value.world) else None;
      var marketTag := if stateCache.Some? then Some(stateCache.value.versions.markets) else None;
      if response.world.None? {
        if previous.None? {
          return Rejected(IncompleteSnapshot);
        }
        stateCache := Some(Cache(response.worldVersion, response.versions, previous.value));
        return Merged;
      }
      var update := response.world.value;
      var result;
      if update.stationMarkets.None? && update.marketDelta.Some? && previous.Some?
         && Some(update.marketDelta.value.baseVersion) == marketTag {
        var markets := PatchMarkets(previous.value.markets, update.marketDelta.value);
        result := Ok(Overlay(previous.value, update, markets));
      } else {
        result := ApplyWorldUpdate(previous, marketTag, update);
      }
      if result.Err? {
        return if update.marketDelta.Some? then Reread else Rejected(result.error);
      }
      stateCache := Some(Cache(response.worldVersion, response.versions, result.value));
      return Merged;
    }

    /** Replace the cache from a full reread. */
    method FinishFullReread(response: StateResponse) returns (outcome: Outcome)
      modifies this
      ensures (stateCache, outcome) == FinishReread(old(stateCache), response)
      ensures outcome == Merged <==> response.world.Some? && SendsAll(response.world.value)
      ensures outcome == Merged ==>
                && stateCache.Some? && stateCache.value.worldVersion == response.worldVersion
                && stateCache.value.versions == response.versions
                && forall d: Domain :: Sends(response.world.value, d, stateCache.value.world)
      ensures outcome != Merged ==> outcome.Rejected? && stateCache == old(stateCache)
    {
      if response.world.None? {
        return Rejected(IncompleteSnapshot);
      }
      var result := ApplyWorldUpdate(None, None, response.world.value);
      if result.Err? {
        return Rejected(result.error);
      }
      stateCache := Some(Cache(response.worldVersion, response.versions, result.value));
      return Merged;
    }
  }
}
