/**
 * Choice of the nearest refuel station. Stations are ranked by the same weighted cost that picks the next hop, so the
 * choice must not change while the bot follows the route to it.
 */
module Navigation {
  import opened Prelude
  import opened TextOrder
  import opened TextTools
  import opened RouteTable

  datatype Poi = Poi(id: string, systemId: string, poiType: string, name: string, baseName: Option<string>,
                     className: string, description: string)

  datatype SystemRecord = SystemRecord(empire: Option<string>, isStronghold: bool)

  datatype Galaxy = Galaxy(pois: map<string, Poi>, systems: map<string, SystemRecord>, routes: Table)

  /** What the choice reads of the bot's planning state. */
  datatype NavState = NavState(system: Option<string>, currentPoi: Option<string>, galaxy: Galaxy) {
    /** The system of a POI; one with no record is taken to be here when it is the one the bot is at. */
    function EffectiveSystem(poiId: string): Option<string> {
      if poiId in galaxy.pois then Some(galaxy.pois[poiId].systemId)
      else if currentPoi == Some(poiId) then system
      else None
    }

    function EmpireAt(poiId: string): Option<string> {
      match EffectiveSystem(poiId)
      case Some(s) => if s in galaxy.systems then galaxy.systems[s].empire else None
      case None => None
    }

    predicate IsEmpireStation(poiId: string) {
      EmpireAt(poiId).Some? && !IsBlank(EmpireAt(poiId).value)
    }

    predicate IsStrongholdStation(poiId: string) {
      match EffectiveSystem(poiId)
      case Some(s) => s in galaxy.systems && galaxy.systems[s].isStronghold
      case None => false
    }

    predicate IsPirateStation(poiId: string) {
      EffectiveSystem(poiId).Some?
      && ((EmpireAt(poiId).Some? && IsPirateLabel(EmpireAt(poiId).value))
          || (poiId in galaxy.pois
              && var poi := galaxy.pois[poiId];
              IsPirateLabel(poi.name) || IsPirateLabel(poi.baseName.GetOr("")) || IsPirateLabel(poi.className)
              || IsPirateLabel(poi.description)))
    }

    predicate IsSafeEmpireStation(poiId: string) {
      IsEmpireStation(poiId) && !IsStrongholdStation(poiId) && !IsPirateStation(poiId)
    }

    /** A record the loop considers, before asking whether it can be reached. */
    predicate IsEligible(poi: Poi) {
      EqIgnoreAsciiCase(poi.poiType, "station") && IsSafeEmpireStation(poi.id)
    }

    /** The bot is docked at a station it may refuel at. */
    predicate IsAtRefuelStation() {
      && system.Some? && currentPoi.Some? && currentPoi.value in galaxy.pois
      && galaxy.pois[currentPoi.value].systemId == system.value
      && EqIgnoreAsciiCase(galaxy.pois[currentPoi.value].poiType, "station")
      && IsSafeEmpireStation(currentPoi.value)
    }
  }

  /** Some word of the label says pirate. */
  predicate IsPirateLabel(value: string) {
    var words := Words(AsciiLower(Trim(value)));
    "pirate" in words || "pirates" in words
  }

  /** (cost, system, POI), compared in that order. */
  datatype Candidate = Candidate(cost: nat, system: string, poi: string) {
    predicate Before(other: Candidate) {
      || cost < other.cost
      || (cost == other.cost && (Below(system, other.system) || (system == other.system && Below(poi, other.poi))))
    }
  }

  lemma BeforeIsTotalOrder(a: Candidate, b: Candidate, c: Candidate)
    ensures a == b || a.Before(b) || b.Before(a)
    ensures a.Before(b) ==> !b.Before(a) && a != b
    ensures a.Before(b) && b.Before(c) ==> a.Before(c)
  {
    BelowIsTotal(a.system, b.system);
    BelowIsTotal(a.poi, b.poi);
    if Below(a.system, b.system) { BelowIsAsymmetric(a.system, b.system); }
    if Below(b.system, a.system) { BelowIsAsymmetric(b.system, a.system); }
    if Below(a.poi, b.poi) { BelowIsAsymmetric(a.poi, b.poi); }
    if Below(b.poi, a.poi) { BelowIsAsymmetric(b.poi, a.poi); }
    if Below(a.system, b.system) && Below(b.system, c.system) { BelowIsTransitive(a.system, b.system, c.system); }
    if Below(a.poi, b.poi) && Below(b.poi, c.poi) { BelowIsTransitive(a.poi, b.poi, c.poi); }
  }

  /** Where a station is and what it is called. */
  datatype Site = Site(system: string, poi: string)

  /** The records the loop considers, by key. */
  function Stations(st: NavState): map<string, Site> {
    map k | k in st.galaxy.pois && st.IsEligible(st.galaxy.pois[k]) ::
      Site(st.galaxy.pois[k].systemId, st.galaxy.pois[k].id)
  }

  function Offer(t: Table, here: string, site: Site): Option<Candidate> {
    match t.PathCost(here, site.system)
    case Some(cost) => Some(Candidate(cost, site.system, site.poi))
    case None => None
  }

  /** What can be reached competes with its cost, its system and its name. */
  ghost function Offers(t: Table, here: string, sites: map<string, Site>): map<string, Candidate> {
    map k | k in sites && Offer(t, here, sites[k]).Some? :: Offer(t, here, sites[k]).value
  }

  ghost predicate IsLeastOf(offers: map<string, Candidate>, best: Option<Candidate>) {
    && (best.Some? ==> exists k :: k in offers && offers[k] == best.value)
    && forall k | k in offers :: best.Some? && (offers[k] == best.value || best.value.Before(offers[k]))
  }

  function Place(best: Option<Candidate>): Option<Site> {
    match best
    case Some(c) => Some(Site(c.system, c.poi))
    case None => None
  }

  /** The promised answer: the station the bot is docked at when it may refuel there, else the least offer. */
  ghost predicate IsNearest(st: NavState, answer: Option<Site>) {
    if st.system.None? then answer == None
    else if st.IsAtRefuelStation() then answer == Some(Site(st.system.value, st.currentPoi.value))
    else
      var offers := Offers(st.galaxy.routes, st.system.value, Stations(st));
      exists best :: IsLeastOf(offers, best) && answer == Place(best)
  }

  lemma LeastIsUnique(offers: map<string, Candidate>, a: Option<Candidate>, b: Option<Candidate>)
    requires IsLeastOf(offers, a) && IsLeastOf(offers, b)
    ensures a == b
  {
    if a.Some? && b.Some? { BeforeIsTotalOrder(a.value, b.value, a.value); }
  }

  /** The answer depends on the records alone, not on the order the map yields them in. */
  lemma NearestIsUnique(st: NavState, a: Option<Site>, b: Option<Site>)
    requires IsNearest(st, a) && IsNearest(st, b)
    ensures a == b
  {
    if st.system.Some? && !st.IsAtRefuelStation() {
      var offers := Offers(st.galaxy.routes, st.system.value, Stations(st));
      var x :| IsLeastOf(offers, x) && a == Place(x);
      var y :| IsLeastOf(offers, y) && b == Place(y);
      LeastIsUnique(offers, x, y);
    }
  }

  /** The best so far, improved by one more record. */
  function Better(best: Option<Candidate>, offer: Option<Candidate>): Option<Candidate> {
    if offer.None? then best
    else if best.None? || offer.value.Before(best.value) then offer
    else best
  }

  lemma BetterIsLeast(offers: map<string, Candidate>, best: Option<Candidate>, k: string, offer: Candidate)
    requires IsLeastOf(offers, best) && k !in offers
    ensures IsLeastOf(offers[k := offer], Better(best, Some(offer)))
  {
    var better, more := Better(best, Some(offer)).value, offers[k := offer];
    if best.Some? {
      var j :| j in offers && offers[j] == best.value;
      assert more[j] == best.value;
    }
    assert more[k] == offer;
    forall j | j in more ensures more[j] == better || better.Before(more[j]) {
      if best.Some? { BeforeIsTotalOrder(offer, best.value, more[j]); }
    }
  }

  lemma SeeOneMore(t: Table, here: string, sites: map<string, Site>, best: Option<Candidate>, k: string, site: Site)
    requires IsLeastOf(Offers(t, here, sites), best) && k !in sites
    ensures IsLeastOf(Offers(t, here, sites[k := site]), Better(best, Offer(t, here, site)))
  {
    var offer := Offer(t, here, site);
    if offer.Some? {
      BetterIsLeast(Offers(t, here, sites), best, k, offer.value);
      assert Offers(t, here, sites[k := site]) == Offers(t, here, sites)[k := offer.value];
    } else {
      assert Offers(t, here, sites[k := site]) == Offers(t, here, sites);
    }
  }

  /** The least offer over all stations, visited in any order. */
  method LeastOffer(t: Table, here: string, sites: map<string, Site>) returns (best: Option<Candidate>)
    ensures IsLeastOf(Offers(t, here, sites), best)
  {
    best := None;
    var todo := sites.Keys;
    ghost var seen: map<string, Site> := map[];
    while todo != {}
      invariant todo <= sites.Keys && seen == sites - todo
      invariant IsLeastOf(Offers(t, here, seen), best)
      decreases |todo|
    {
      var key :| key in todo;
      todo := todo - {key};
      SeeOneMore(t, here, seen, best, key, sites[key]);
      seen := seen[key := sites[key]];
      var distance := t.PathCost(here, sites[key].system);
      if distance.None? { continue; }
      var candidate := Candidate(distance.value, sites[key].system, sites[key].poi);
      if best.None? {
        best := Some(candidate);
      } else if candidate.Before(best.value) {
        best := Some(candidate);
      }
    }
    assert seen == sites;
  }

  method NearestRefuelStation(st: NavState) returns (answer: Option<Site>)
    ensures IsNearest(st, answer)
  {
    if st.system.None? {
      return None;
    }
    if st.IsAtRefuelStation() {
      return Some(Site(st.system.value, st.currentPoi.value));
    }
    var best := LeastOffer(st.galaxy.routes, st.system.value, Stations(st));
    answer := Place(best);
  }

  // ---- following the route ----

  /** Every record is stored under its own id, as everything that writes the table does. */
  ghost predicate WellKeyed(galaxy: Galaxy) {
    forall k | k in galaxy.pois :: galaxy.pois[k].id == k
  }

  lemma {:induction false} LeastExists(offers: map<string, Candidate>) returns (best: Option<Candidate>)
    ensures IsLeastOf(offers, best)
    decreases |offers|
  {
    if offers == map[] {
      best := None;
    } else {
      var k :| k in offers;
      var rest := offers - {k};
      best := LeastExists(rest);
      BetterIsLeast(rest, best, k, offers[k]);
      assert rest[k := offers[k]] == offers;
      best := Better(best, Some(offers[k]));
    }
  }

  ghost function Nearest(st: NavState): (answer: Option<Site>)
    ensures IsNearest(st, answer)
  {
    if st.system.None? then None
    else if st.IsAtRefuelStation() then Some(Site(st.system.value, st.currentPoi.value))
    else
      var offers := Offers(st.galaxy.routes, st.system.value, Stations(st));
      assert exists best :: IsLeastOf(offers, best) by {
        var best := LeastExists(offers);
      }
      var best :| IsLeastOf(offers, best);
      Place(best)
  }

  /** The bot after one jump toward `target`, docked wherever it likes. */
  function Jump(st: NavState, target: string, docked: Option<string>): NavState
    requires st.system.Some?
  {
    NavState(st.galaxy.routes.NextHopToward(st.system.value, target), docked, st.galaxy)
  }

  /** Which stations are considered does not depend on where the bot is. */
  lemma StationsAreLocal(st: NavState, st': NavState)
    requires WellKeyed(st.galaxy) && st.galaxy == st'.galaxy
    ensures Stations(st) == Stations(st')
  {
    forall k | k in st.galaxy.pois ensures st.IsEligible(st.galaxy.pois[k]) == st'.IsEligible(st.galaxy.pois[k]) {}
  }

  /** A docked station is one of those considered. */
  lemma DockedStationIsConsidered(st: NavState)
    requires WellKeyed(st.galaxy) && st.IsAtRefuelStation()
    ensures st.currentPoi.value in Stations(st)
    ensures Stations(st)[st.currentPoi.value] == Site(st.system.value, st.currentPoi.value)
  {}

  /** An edge of weight `w` on, no offer has become cheaper by more than `w`. */
  lemma OffersFallByAtMost(g: Graph, t: Table, here: string, next: string, sites: map<string, Site>, k: string)
    requires IsLeastCostTable(g, t) && here in t.rows && next in g.Neighbors(here) && k in Offers(t, next, sites)
    ensures var after := Offers(t, next, sites)[k];
            if k in Offers(t, here, sites)
            then Offers(t, here, sites)[k] == after.(cost := Offers(t, here, sites)[k].cost)
                 && Offers(t, here, sites)[k].cost <= g.HopCost(next) + after.cost
            else UNREACHABLE <= g.HopCost(next) + after.cost
  {
    CostsAreTriangular(g, t, here, next, sites[k].system);
  }

  /** One jump along a least-cost route keeps the least offer and takes the jump's weight off its cost. */
  lemma JumpKeepsLeast(g: Graph, t: Table, here: string, sites: map<string, Site>, best: Candidate)
    requires IsLeastCostTable(g, t) && IsLeastOf(Offers(t, here, sites), Some(best)) && best.system != here
    ensures t.PathCost(here, best.system) == Some(best.cost) && t.NextHopToward(here, best.system).Some?
    ensures var next := t.NextHopToward(here, best.system).value;
            && g.HopCost(next) <= best.cost
            && t.PathCost(next, best.system) == Some(best.cost - g.HopCost(next))
            && IsLeastOf(Offers(t, next, sites), Some(best.(cost := best.cost - g.HopCost(next))))
  {
    var before := Offers(t, here, sites);
    var key :| key in before && before[key] == best;
    NextHopContinuesRoute(g, t, here, best.system);
    var next := t.NextHopToward(here, best.system).value;
    var after, moved := Offers(t, next, sites), best.(cost := best.cost - g.HopCost(next));
    assert key in after && after[key] == moved;
    forall k | k in after ensures after[k] == moved || moved.Before(after[k]) {
      OffersFallByAtMost(g, t, here, next, sites, k);
      assert k in before ==> before[k] == best || best.Before(before[k]);
    }
  }

  /** The bot along the way: one jump per stop toward the station chosen anew at each system, until it is there. */
  ghost function Walk(st: NavState, stops: seq<Option<string>>): (trail: seq<NavState>)
    ensures trail != [] && trail[0] == st
    decreases |stops|
  {
    if stops == [] || st.system.None? || Nearest(st).None? || Nearest(st).value.system == st.system.value then [st]
    else [st] + Walk(Jump(st, Nearest(st).value.system, stops[0]), stops[1..])
  }

  /** The cost still ahead of the bot, toward a fixed system. */
  function CostTo(st: NavState, target: string): nat {
    if st.system.Some? then st.galaxy.routes.PathCost(st.system.value, target).GetOr(0) else 0
  }

  /** At this stop the system chosen is still the goal's, and the station too while the bot is not there yet. */
  ghost predicate StillChosen(st: NavState, goal: Site) {
    && st.system.Some? && Nearest(st).Some? && Nearest(st).value.system == goal.system
    && (st.system.value != goal.system ==> Nearest(st).value.poi == goal.poi)
  }

  /**
   * Route-stable choice: wherever the bot docks along the way, the system chosen at the start is the one chosen at
   * every stop, the station is the same one until the bot has arrived in that system, the cost to it strictly falls,
   * and with as many stops as the initial cost the bot arrives.
   */
  lemma {:induction false} ChoiceIsRouteStable(g: Graph, st: NavState, stops: seq<Option<string>>)
    requires IsLeastCostTable(g, st.galaxy.routes) && WellKeyed(st.galaxy) && Nearest(st).Some?
    ensures var trail := Walk(st, stops);
            var goal := Nearest(st).value;
            && (forall i | 0 <= i < |trail| :: StillChosen(trail[i], goal))
            && (forall i, j | 0 <= i < j < |trail| :: CostTo(trail[j], goal.system) < CostTo(trail[i], goal.system))
            && (CostTo(st, goal.system) <= |stops| ==> trail[|trail| - 1].system == Some(goal.system))
    decreases |stops|
  {
    var goal := Nearest(st).value;
    NearestIsReachable(st);
    if CostTo(st, goal.system) == 0 { ZeroCostIsHere(g, st.galaxy.routes, st.system.value, goal.system); }
    if stops != [] && goal.system != st.system.value {
      var st' := Jump(st, goal.system, stops[0]);
      JumpKeepsChoice(g, st, stops[0]);
      ChoiceIsRouteStable(g, st', stops[1..]);
      var rest, trail := Walk(st', stops[1..]), Walk(st, stops);
      assert trail == [st] + rest;
      forall i | 0 <= i < |trail| ensures StillChosen(trail[i], goal) {
        if i > 0 {
          assert StillChosen(rest[i - 1], Nearest(st').value);
          assert st'.system.value == goal.system ==> rest == [st'];
        }
      }
      forall i, j | 0 <= i < j < |trail| ensures CostTo(trail[j], goal.system) < CostTo(trail[i], goal.system) {
        assert trail[j] == rest[j - 1];
        if i > 0 {
          assert trail[i] == rest[i - 1];
        } else if j > 1 {
          assert CostTo(rest[j - 1], goal.system) < CostTo(rest[0], goal.system);
        }
      }
    }
  }

  lemma ZeroCostIsHere(g: Graph, t: Table, a: string, b: string)
    requires IsLeastCostTable(g, t) && t.PathCost(a, b) == Some(0)
    ensures a == b
  {
    var p := CostHasRoute(g, t, a, b);
    WeightCountsJumps(g, p);
  }

  /** The chosen station can be reached. */
  lemma NearestIsReachable(st: NavState)
    requires Nearest(st).Some?
    ensures st.system.Some? && st.galaxy.routes.PathCost(st.system.value, Nearest(st).value.system).Some?
  {
    if !st.IsAtRefuelStation() {
      var offers := Offers(st.galaxy.routes, st.system.value, Stations(st));
      var best :| IsLeastOf(offers, best) && Nearest(st) == Place(best);
      var k :| k in offers && offers[k] == best.value;
    }
  }

  /** A bot that has not arrived is choosing the least offer. */
  lemma NearestIsLeast(st: NavState) returns (best: Candidate)
    requires Nearest(st).Some? && st.system.Some? && Nearest(st).value.system != st.system.value
    ensures IsLeastOf(Offers(st.galaxy.routes, st.system.value, Stations(st)), Some(best))
    ensures Nearest(st).value == Site(best.system, best.poi)
  {
    var offers := Offers(st.galaxy.routes, st.system.value, Stations(st));
    var b :| IsLeastOf(offers, b) && Nearest(st) == Place(b);
    best := b.value;
  }

  /** The least offer decides the system, and the station too unless the bot is docked at one in that system. */
  lemma LeastDecides(st: NavState, best: Candidate)
    requires WellKeyed(st.galaxy) && st.system.Some?
    requires IsLeastOf(Offers(st.galaxy.routes, st.system.value, Stations(st)), Some(best))
    requires best.cost == 0 ==> best.system == st.system.value
    ensures Nearest(st).Some? && Nearest(st).value.system == best.system
    ensures best.system != st.system.value ==> Nearest(st).value == Site(best.system, best.poi)
  {
    if st.IsAtRefuelStation() {
      DockedStationIsConsidered(st);
      var offers := Offers(st.galaxy.routes, st.system.value, Stations(st));
      assert offers[st.currentPoi.value].cost == 0;
    } else {
      assert IsNearest(st, Place(Some(best)));
      NearestIsUnique(st, Nearest(st), Place(Some(best)));
    }
  }

  /** The same, with the cost still ahead counted down to zero exactly on arrival. */
  lemma JumpCountsDown(g: Graph, t: Table, here: string, sites: map<string, Site>, best: Candidate)
    returns (moved: Candidate)
    requires IsLeastCostTable(g, t) && IsLeastOf(Offers(t, here, sites), Some(best)) && best.system != here
    ensures t.NextHopToward(here, best.system).Some? && t.PathCost(here, best.system) == Some(best.cost)
    ensures var next := t.NextHopToward(here, best.system).value;
            && IsLeastOf(Offers(t, next, sites), Some(moved)) && moved == best.(cost := moved.cost)
            && t.PathCost(next, best.system) == Some(moved.cost) && moved.cost < best.cost
            && (moved.cost == 0 ==> best.system == next)
  {
    JumpKeepsLeast(g, t, here, sites, best);
    var next := t.NextHopToward(here, best.system).value;
    moved := best.(cost := best.cost - g.HopCost(next));
    if moved.cost == 0 { ZeroCostIsHere(g, t, next, best.system); }
  }

  /** One jump toward the chosen station keeps the choice. */
  lemma JumpKeepsChoice(g: Graph, st: NavState, docked: Option<string>)
    requires IsLeastCostTable(g, st.galaxy.routes) && WellKeyed(st.galaxy)
    requires Nearest(st).Some? && st.system.Some? && Nearest(st).value.system != st.system.value
    ensures var goal := Nearest(st).value;
            var st' := Jump(st, goal.system, docked);
            && StillChosen(st', goal)
            && CostTo(st', goal.system) < CostTo(st, goal.system)
  {
    var best := NearestIsLeast(st);
    var moved := JumpCountsDown(g, st.galaxy.routes, st.system.value, Stations(st), best);
    var st' := Jump(st, best.system, docked);
    StationsAreLocal(st, st');
    LeastDecides(st', moved);
  }

  // ---- what is chosen ----

  /** No word of anything the station is called says pirate. */
  predicate IsHonest(poi: Poi, empire: string) {
    && !IsPirateLabel(empire) && !IsPirateLabel(poi.name) && !IsPirateLabel(poi.baseName.GetOr(""))
    && !IsPirateLabel(poi.className) && !IsPirateLabel(poi.description)
  }

  /** A station of an empire, in no stronghold and of no pirates, as the records alone have it. */
  predicate IsSafeStop(galaxy: Galaxy, poi: Poi) {
    && EqIgnoreAsciiCase(poi.poiType, "station")
    && poi.systemId in galaxy.systems
    && var home := galaxy.systems[poi.systemId];
       !home.isStronghold && home.empire.Some? && !IsBlank(home.empire.value) && IsHonest(poi, home.empire.value)
  }

  lemma EligibleIsSafe(st: NavState, k: string)
    requires WellKeyed(st.galaxy) && k in st.galaxy.pois
    ensures st.IsEligible(st.galaxy.pois[k]) <==> IsSafeStop(st.galaxy, st.galaxy.pois[k])
  {}

  /** Whatever is chosen is a safe station on record, in the system it is said to be in. */
  lemma ChoiceIsSafe(st: NavState)
    requires WellKeyed(st.galaxy) && Nearest(st).Some?
    ensures var site := Nearest(st).value;
            && site.poi in st.galaxy.pois && st.galaxy.pois[site.poi].systemId == site.system
            && IsSafeStop(st.galaxy, st.galaxy.pois[site.poi])
  {
    var site := Nearest(st).value;
    if st.IsAtRefuelStation() {
      DockedStationIsConsidered(st);
    } else {
      var offers := Offers(st.galaxy.routes, st.system.value, Stations(st));
      var best :| IsLeastOf(offers, best) && Nearest(st) == Place(best);
      var k :| k in offers && offers[k] == best.value;
      assert k in Stations(st);
    }
    EligibleIsSafe(st, site.poi);
  }

  lemma NoAnswerMeansNoOffers(st: NavState, k: string)
    requires st.system.Some? && k in Offers(st.galaxy.routes, st.system.value, Stations(st))
    ensures Nearest(st).Some?
  {
    var offers := Offers(st.galaxy.routes, st.system.value, Stations(st));
    assert !IsLeastOf(offers, None);
    assert !IsNearest(st, None) || st.IsAtRefuelStation();
  }

  lemma ReachableIsOffered(t: Table, here: string, sites: map<string, Site>, k: string)
    requires k in sites && t.PathCost(here, sites[k].system).Some?
    ensures k in Offers(t, here, sites)
  {}

  /** There is an answer whenever some safe station can be reached. */
  lemma ReachableStationIsAnswered(st: NavState, k: string)
    requires WellKeyed(st.galaxy) && st.system.Some?
    requires k in st.galaxy.pois && IsSafeStop(st.galaxy, st.galaxy.pois[k])
    requires st.galaxy.routes.PathCost(st.system.value, st.galaxy.pois[k].systemId).Some?
    ensures Nearest(st).Some?
  {
    EligibleIsSafe(st, k);
    ReachableIsOffered(st.galaxy.routes, st.system.value, Stations(st), k);
    NoAnswerMeansNoOffers(st, k);
  }

  /** A bot docked at a safe station of its own system stays where it is, however near another one may be. */
  lemma StaysWhereDocked(st: NavState)
    requires WellKeyed(st.galaxy) && st.system.Some? && st.currentPoi.Some? && st.currentPoi.value in st.galaxy.pois
    requires IsSafeStop(st.galaxy, st.galaxy.pois[st.currentPoi.value])
    requires st.galaxy.pois[st.currentPoi.value].systemId == st.system.value
    ensures Nearest(st) == Some(Site(st.system.value, st.currentPoi.value))
  {
    EligibleIsSafe(st, st.currentPoi.value);
  }

  lemma PirateIsWord()
    ensures forall i | 0 <= i < |"pirates"| :: IsWordChar("pirates"[i])
    ensures "pirate" == "pirates"[..6]
  {}

  /** A label is a pirate's exactly when, in lower case, `pirate` or `pirates` stands in it as a whole word. */
  lemma PirateLabelMeans(value: string)
    ensures var text := AsciiLower(Trim(value));
            IsPirateLabel(value) <==> exists k :: IsWordAt(text, k, "pirate") || IsWordAt(text, k, "pirates")
  {
    var text := AsciiLower(Trim(value));
    PirateIsWord();
    assert forall i | 0 <= i < |"pirate"| :: "pirate"[i] == "pirates"[i];
    WordsAreWhole(text, "pirate");
    WordsAreWhole(text, "pirates");
  }
}
