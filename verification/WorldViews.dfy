/** The shared world, its nine conditionally synchronised domains, and the wire shapes of `GET /state`. */
module WorldViews {
  import opened Prelude

  /** One section of the world in serialised form; serialisation is taken to be injective. */
  datatype Section = Json(text: string)
  type Markets = map<string, Section>

  /** The part of a world that is computed from the galaxy and wildlife records. */
  datatype Projection = Projection(galaxyMap: Section, resources: Section, wildlife: Section)

  /** One published world. `projected` is None when mapping the galaxy to its wire form fails. */
  datatype World = World(
    projected: Option<Projection>,
    markets: Markets,
    storageByPlayer: Section,
    factionStorage: Section,
    facilitiesByPoi: Section,
    ownedByPlayer: Section,
    ownedByFaction: Section,
    passengers: Section,
    salvage: Section,
    sightings: Section,
    chat: Section,
    factions: Section)

  datatype Domain =
    | GalaxyMap | Resources | Wildlife | MarketPrices | Storage | Facilities | Observations | Communications | Factions

  /** One version tag per domain. */
  datatype Versions = Versions(
    galaxyMap: nat,
    resources: nat,
    wildlife: nat,
    markets: nat,
    storage: nat,
    facilities: nat,
    observations: nat,
    communications: nat,
    factions: nat)
  {
    function Tag(d: Domain): nat {
      match d
      case GalaxyMap => galaxyMap
      case Resources => resources
      case Wildlife => wildlife
      case MarketPrices => markets
      case Storage => storage
      case Facilities => facilities
      case Observations => observations
      case Communications => communications
      case Factions => factions
    }
  }

  /** A consistent read of the host state. */
  datatype Snapshot = Snapshot(version: nat, world: World)

  /** The tags a caller claims to hold; `world` stands in for any tag it leaves out. */
  datatype StateQuery = StateQuery(
    world: Option<nat>,
    galaxyMap: Option<nat>,
    resources: Option<nat>,
    wildlife: Option<nat>,
    markets: Option<nat>,
    storage: Option<nat>,
    facilities: Option<nat>,
    observations: Option<nat>,
    communications: Option<nat>,
    factions: Option<nat>)
  {
    function Requested(d: Domain): Option<nat> {
      match d
      case GalaxyMap => OrElse(galaxyMap, world)
      case Resources => OrElse(resources, world)
      case Wildlife => OrElse(wildlife, world)
      case MarketPrices => OrElse(markets, world)
      case Storage => OrElse(storage, world)
      case Facilities => OrElse(facilities, world)
      case Observations => OrElse(observations, world)
      case Communications => OrElse(communications, world)
      case Factions => OrElse(factions, world)
    }
  }

  const EmptyQuery := StateQuery(None, None, None, None, None, None, None, None, None, None)

  /** Keyed difference of two market maps. */
  datatype MarketDelta = MarketDelta(baseVersion: nat, upsert: Markets, remove: seq<string>)

  /** The sections the server chose to send. */
  datatype WorldUpdate = WorldUpdate(
    galaxyMap: Option<Section>,
    resources: Option<Section>,
    wildlife: Option<Section>,
    stationMarkets: Option<Markets>,
    marketDelta: Option<MarketDelta>,
    storageByPlayer: Option<Section>,
    factionStorage: Option<Section>,
    facilitiesByPoi: Option<Section>,
    ownedByPlayer: Option<Section>,
    ownedByFaction: Option<Section>,
    passengers: Option<Section>,
    salvage: Option<Section>,
    sightings: Option<Section>,
    chat: Option<Section>,
    factions: Option<Section>)

  datatype StateResponse = StateResponse(worldVersion: nat, versions: Versions, world: Option<WorldUpdate>)

  /** What a client can see of a world: every section present. */
  datatype WorldView = WorldView(
    galaxyMap: Section,
    resources: Section,
    wildlife: Section,
    markets: Markets,
    storageByPlayer: Section,
    factionStorage: Section,
    facilitiesByPoi: Section,
    ownedByPlayer: Section,
    ownedByFaction: Section,
    passengers: Section,
    salvage: Section,
    sightings: Section,
    chat: Section,
    factions: Section)

  function ViewOf(w: World): WorldView
    requires w.projected.Some?
  {
    var p := w.projected.value;
    WorldView(p.galaxyMap, p.resources, p.wildlife, w.markets, w.storageByPlayer, w.factionStorage,
              w.facilitiesByPoi, w.ownedByPlayer, w.ownedByFaction, w.passengers, w.salvage, w.sightings,
              w.chat, w.factions)
  }

  /** Two views hold the same content in one domain. */
  predicate SameIn(d: Domain, a: WorldView, b: WorldView) {
    match d
    case GalaxyMap => a.galaxyMap == b.galaxyMap
    case Resources => a.resources == b.resources
    case Wildlife => a.wildlife == b.wildlife
    case MarketPrices => a.markets == b.markets
    case Storage => a.storageByPlayer == b.storageByPlayer && a.factionStorage == b.factionStorage
    case Facilities =>
      a.facilitiesByPoi == b.facilitiesByPoi && a.ownedByPlayer == b.ownedByPlayer
          && a.ownedByFaction == b.ownedByFaction
    case Observations => a.passengers == b.passengers && a.salvage == b.salvage && a.sightings == b.sightings
    case Communications => a.chat == b.chat
    case Factions => a.factions == b.factions
  }

  /** The update carries every section of the domain, as the view has it; markets in full. */
  predicate Sends(u: WorldUpdate, d: Domain, v: WorldView) {
    match d
    case GalaxyMap => u.galaxyMap == Some(v.galaxyMap)
    case Resources => u.resources == Some(v.resources)
    case Wildlife => u.wildlife == Some(v.wildlife)
    case MarketPrices => u.stationMarkets == Some(v.markets)
    case Storage => u.storageByPlayer == Some(v.storageByPlayer) && u.factionStorage == Some(v.factionStorage)
    case Facilities =>
      && u.facilitiesByPoi == Some(v.facilitiesByPoi) && u.ownedByPlayer == Some(v.ownedByPlayer)
      && u.ownedByFaction == Some(v.ownedByFaction)
    case Observations =>
      u.passengers == Some(v.passengers) && u.salvage == Some(v.salvage) && u.sightings == Some(v.sightings)
    case Communications => u.chat == Some(v.chat)
    case Factions => u.factions == Some(v.factions)
  }

  /** The update carries nothing of the domain. */
  predicate Omits(u: WorldUpdate, d: Domain) {
    match d
    case GalaxyMap => u.galaxyMap.None?
    case Resources => u.resources.None?
    case Wildlife => u.wildlife.None?
    case MarketPrices => u.stationMarkets.None? && u.marketDelta.None?
    case Storage => u.storageByPlayer.None? && u.factionStorage.None?
    case Facilities => u.facilitiesByPoi.None? && u.ownedByPlayer.None? && u.ownedByFaction.None?
    case Observations => u.passengers.None? && u.salvage.None? && u.sightings.None?
    case Communications => u.chat.None?
    case Factions => u.factions.None?
  }

  /** Every section of every domain is in the update, markets in full. */
  predicate SendsAll(u: WorldUpdate) {
    && u.galaxyMap.Some? && u.resources.Some? && u.wildlife.Some? && u.stationMarkets.Some?
    && u.storageByPlayer.Some? && u.factionStorage.Some? && u.facilitiesByPoi.Some? && u.ownedByPlayer.Some?
    && u.ownedByFaction.Some? && u.passengers.Some? && u.salvage.Some? && u.sightings.Some? && u.chat.Some?
    && u.factions.Some?
  }

  /** The world version a caller names stands for every tag it leaves out, and for none that it gives. */
  lemma WorldStandsIn(query: StateQuery, d: Domain)
    ensures query.world.Some? ==> query.Requested(d).Some?
    ensures EmptyQuery.(world := query.world).Requested(d) == query.world
    ensures query.Requested(d) != query.world ==> query.(world := None).Requested(d) == query.Requested(d)
    ensures query.(world := None).Requested(d).Some? ==> query.Requested(d) == query.(world := None).Requested(d)
  {}

  /**
   * A tag names content: the world published under version `tag` has, in this domain, the content of `view`.
   * Nothing is said about which of the two is newer.
   */
  predicate Names(worlds: seq<World>, d: Domain, tag: nat, view: WorldView) {
    tag < |worlds| && worlds[tag].projected.Some? && SameIn(d, ViewOf(worlds[tag]), view)
  }

  ghost predicate NamesAll(worlds: seq<World>, tags: Versions, view: WorldView) {
    forall d: Domain :: Names(worlds, d, tags.Tag(d), view)
  }

  /** Publishing further worlds leaves every tag naming what it named. */
  lemma NamesAllKept(worlds: seq<World>, more: World, tags: Versions, view: WorldView)
    requires NamesAll(worlds, tags, view)
    ensures NamesAll(worlds + [more], tags, view)
  {
    forall d: Domain ensures Names(worlds + [more], d, tags.Tag(d), view) {
      assert Names(worlds, d, tags.Tag(d), view);
    }
  }

  /** Views that agree in all nine domains are equal: no section is outside the domains. */
  lemma DomainsCoverView(a: WorldView, b: WorldView)
    requires forall d: Domain :: SameIn(d, a, b)
    ensures a == b
  {
    assert SameIn(GalaxyMap, a, b) && SameIn(Resources, a, b) && SameIn(Wildlife, a, b);
    assert SameIn(MarketPrices, a, b) && SameIn(Storage, a, b) && SameIn(Facilities, a, b);
    assert SameIn(Observations, a, b) && SameIn(Communications, a, b) && SameIn(Factions, a, b);
  }
}
