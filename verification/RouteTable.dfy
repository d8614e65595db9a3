/**
 * Weighted routing over the directed jump graph: one cost row and one first-hop row per source, filled by repeatedly
 * relaxing the edges of a system taken from a work heap with lazy deletion.
 */
module RouteTable {
  import opened Prelude
  import opened TextOrder

  /** Matrix sentinel for "no route"; it also caps every cost. */
  const UNREACHABLE: nat := 0xFFFF_FFFF

  /** `penalized` systems cost two jumps to enter, all others one. */
  datatype Graph = Graph(connections: map<string, seq<string>>, penalized: set<string>) {
    function Neighbors(u: string): set<string> {
      if u in connections then set v | v in connections[u] else {}
    }

    function Nodes(): set<string> {
      connections.Keys + set u, v | u in connections && v in connections[u] :: v
    }

    function HopCost(v: string): nat {
      if v in penalized then 2 else 1
    }
  }

  function Capped(c: nat): nat {
    if c < UNREACHABLE then c else UNREACHABLE
  }

  ghost predicate IsPath(g: Graph, p: seq<string>)
    decreases |p|
  {
    p != [] && (|p| > 1 ==> IsPath(g, p[..|p| - 1]) && p[|p| - 1] in g.Neighbors(p[|p| - 2]))
  }

  ghost predicate Joins(g: Graph, p: seq<string>, a: string, b: string) {
    IsPath(g, p) && p[0] == a && p[|p| - 1] == b
  }

  /** The cost of entering every system of the path after its first. */
  ghost function Weight(g: Graph, p: seq<string>): nat
    decreases |p|
  {
    if |p| <= 1 then 0 else Weight(g, p[..|p| - 1]) + g.HopCost(p[|p| - 1])
  }

  /** Cost and first hop from one source; a cost of UNREACHABLE means no route was found. */
  datatype Row = Row(cost: map<string, nat>, firstHop: map<string, string>)

  /** A route of exactly the recorded cost, leaving by the recorded first hop. */
  ghost predicate Realizes(g: Graph, source: string, target: string, row: Row, p: seq<string>)
    requires target in row.cost
  {
    && Joins(g, p, source, target) && Weight(g, p) == row.cost[target]
    && (target != source ==> |p| >= 2 && target in row.firstHop && p[1] == row.firstHop[target])
  }

  /** The recorded cost of a path's end is at most the path's weight. */
  ghost predicate IsBoundFor(g: Graph, row: Row, p: seq<string>)
    requires p != []
  {
    p[|p| - 1] in row.cost && row.cost[p[|p| - 1]] <= Capped(Weight(g, p))
  }

  ghost predicate HasRoute(g: Graph, source: string, row: Row, v: string)
    requires v in row.cost
  {
    row.cost[v] <= UNREACHABLE && (row.cost[v] < UNREACHABLE ==> exists p :: Realizes(g, source, v, row, p))
  }

  ghost predicate IsLeastCostRow(g: Graph, source: string, row: Row) {
    && source in row.cost && row.cost[source] == 0
    && (forall p {:trigger IsBoundFor(g, row, p)} | IsPath(g, p) && p[0] == source :: IsBoundFor(g, row, p))
    && (forall v {:trigger HasRoute(g, source, row, v)} | v in row.cost :: HasRoute(g, source, row, v))
  }

  // ---- the measure that makes relaxation terminate ----

  ghost function Total(cost: map<string, nat>, order: seq<string>): nat {
    if order == [] then 0 else (if order[0] in cost then cost[order[0]] else 0) + Total(cost, order[1..])
  }

  lemma {:induction false} TotalFalls(cost: map<string, nat>, order: seq<string>, v: string, c: nat)
    requires v in cost && c < cost[v]
    ensures Total(cost[v := c], order) <= Total(cost, order)
    ensures v in order ==> Total(cost[v := c], order) < Total(cost, order)
  {
    if order != [] {
      TotalFalls(cost, order[1..], v, c);
    }
  }

  lemma {:induction false} WeightCountsJumps(g: Graph, p: seq<string>)
    requires p != []
    ensures Weight(g, p) >= |p| - 1
    decreases |p|
  {
    if |p| > 1 {
      WeightCountsJumps(g, p[..|p| - 1]);
    }
  }

  /** The penalised systems a path enters. */
  ghost function Penalties(g: Graph, p: seq<string>): nat {
    if |p| <= 1 then 0
    else Penalties(g, p[..|p| - 1]) + (if p[|p| - 1] in g.penalized then 1 else 0)
  }

  /** A path costs its jumps, and one more for each penalised system it enters. */
  lemma {:induction false} WeightIsJumpsAndPenalties(g: Graph, p: seq<string>)
    requires p != []
    ensures Weight(g, p) == |p| - 1 + Penalties(g, p)
    decreases |p|
  {
    if |p| > 1 { WeightIsJumpsAndPenalties(g, p[..|p| - 1]); }
  }

  lemma ExtendPath(g: Graph, p: seq<string>, a: string, b: string, c: string)
    requires Joins(g, p, a, b) && c in g.Neighbors(b)
    ensures Joins(g, p + [c], a, c) && Weight(g, p + [c]) == Weight(g, p) + g.HopCost(c)
  {
    assert (p + [c])[..|p|] == p;
  }

  ghost predicate EdgeRelaxed(g: Graph, cost: map<string, nat>, u: string, v: string)
    requires u in cost
  {
    v in cost && cost[v] <= Capped(cost[u] + g.HopCost(v))
  }

  /** Every edge out of `u` has been relaxed at u's present cost. */
  ghost predicate Relaxed(g: Graph, cost: map<string, nat>, u: string) {
    u in cost && forall v {:trigger EdgeRelaxed(g, cost, u, v)} | v in g.Neighbors(u) :: EdgeRelaxed(g, cost, u, v)
  }

  ghost predicate Covers(g: Graph, nodes: set<string>) {
    forall u, v | v in g.Neighbors(u) :: u in nodes && v in nodes
  }

  /** Relaxed everywhere and zero at the source, the costs bound every path from below. */
  lemma {:induction false} RelaxedBoundsPaths(g: Graph, nodes: set<string>, source: string, cost: map<string, nat>,
                                              p: seq<string>)
    requires Covers(g, nodes) && cost.Keys == nodes && source in cost && cost[source] == 0
    requires forall v | v in cost :: cost[v] <= UNREACHABLE
    requires forall u | u in cost && cost[u] < UNREACHABLE :: Relaxed(g, cost, u)
    requires IsPath(g, p) && p[0] == source
    ensures p[|p| - 1] in cost && cost[p[|p| - 1]] <= Capped(Weight(g, p))
    decreases |p|
  {
    if |p| > 1 {
      var front := p[..|p| - 1];
      RelaxedBoundsPaths(g, nodes, source, cost, front);
      var u, v := p[|p| - 2], p[|p| - 1];
      assert u == front[|front| - 1] && v in g.Neighbors(u);
      if cost[u] < UNREACHABLE {
        assert Relaxed(g, cost, u);
        assert EdgeRelaxed(g, cost, u, v);
      }
    }
  }

  ghost predicate IsRealized(g: Graph, source: string, row: Row, routes: map<string, seq<string>>, v: string)
    requires v in row.cost
  {
    row.cost[v] < UNREACHABLE ==> v in routes && Realizes(g, source, v, row, routes[v])
  }

  ghost predicate Realized(g: Graph, source: string, row: Row, routes: map<string, seq<string>>) {
    forall v {:trigger IsRealized(g, source, row, routes, v)} | v in row.cost :: IsRealized(g, source, row, routes, v)
  }

  /** Lowering one cost to that of a route through `u` keeps every recorded route genuine. */
  lemma RelaxKeepsRealized(g: Graph, source: string, row: Row, routes: map<string, seq<string>>, u: string, v: string)
    requires Realized(g, source, row, routes) && source in row.cost && row.cost[source] == 0
    requires u in row.cost && v in row.cost && v in g.Neighbors(u)
    requires row.cost[u] + g.HopCost(v) < row.cost[v] <= UNREACHABLE
    ensures v != source && u in routes
    ensures u != source ==> u in row.firstHop
    ensures Realized(g, source,
                     Row(row.cost[v := row.cost[u] + g.HopCost(v)],
                         row.firstHop[v := if u == source then v else row.firstHop[u]]),
                     routes[v := routes[u] + [v]])
  {
    assert IsRealized(g, source, row, routes, u);
    var p := routes[u];
    ExtendPath(g, p, source, u, v);
    WeightCountsJumps(g, p);
    var row' := Row(row.cost[v := row.cost[u] + g.HopCost(v)],
                    row.firstHop[v := if u == source then v else row.firstHop[u]]);
    var routes' := routes[v := p + [v]];
    forall x | x in row'.cost ensures IsRealized(g, source, row', routes', x) {
      assert IsRealized(g, source, row, routes, x);
    }
  }

  predicate EntryBelow(a: (nat, string), b: (nat, string)) {
    a.0 < b.0 || (a.0 == b.0 && Below(a.1, b.1))
  }

  predicate IsLeastEntry(e: (nat, string), heap: set<(nat, string)>) {
    e in heap && forall o | o in heap :: o == e || EntryBelow(e, o)
  }

  lemma {:induction false} LeastEntryExists(heap: set<(nat, string)>)
    requires heap != {}
    ensures exists e :: IsLeastEntry(e, heap)
    decreases |heap|
  {
    var x :| x in heap;
    var rest := heap - {x};
    if rest == {} {
      assert heap == {x};
      assert IsLeastEntry(x, heap);
    } else {
      LeastEntryExists(rest);
      var m :| IsLeastEntry(m, rest);
      BelowIsTotal(x.1, m.1);
      if EntryBelow(x, m) {
        forall o | o in heap ensures o == x || EntryBelow(x, o) {
          if o != x && o != m {
            assert EntryBelow(m, o);
            if x.0 == m.0 == o.0 { BelowIsTransitive(x.1, m.1, o.1); }
          }
        }
        assert IsLeastEntry(x, heap);
      } else {
        assert IsLeastEntry(m, heap);
      }
    }
  }

  /** Row and work heap in the middle of filling. */
  datatype Filling = Filling(row: Row, heap: set<(nat, string)>)

  /** Bookkeeping of the proof: a route for every finite cost, and the systems relaxed at their present cost. */
  datatype Evidence = Evidence(routes: map<string, seq<string>>, scanned: set<string>)

  ghost predicate IsAccounted(f: Filling, ev: Evidence, v: string)
    requires v in f.row.cost
  {
    f.row.cost[v] < UNREACHABLE ==> v in ev.scanned || (f.row.cost[v], v) in f.heap
  }

  /** `busy` is the system whose edges are being relaxed, if any. */
  ghost predicate IsConsistent(g: Graph, nodes: set<string>, source: string, f: Filling, ev: Evidence,
                               busy: Option<string>) {
    && f.row.cost.Keys == nodes && source in nodes && f.row.cost[source] == 0
    && (forall v | v in nodes :: f.row.cost[v] <= UNREACHABLE)
    && (forall e | e in f.heap :: e.1 in nodes && e.0 < UNREACHABLE)
    && Realized(g, source, f.row, ev.routes)
    && (forall v {:trigger IsAccounted(f, ev, v)} | v in nodes && Some(v) != busy :: IsAccounted(f, ev, v))
    && (forall u {:trigger Relaxed(g, f.row.cost, u)} | u in ev.scanned :: Relaxed(g, f.row.cost, u))
  }

  /** One edge of the busy system: lower the neighbour's cost and queue it when that is an improvement. */
  function RelaxEdge(g: Graph, source: string, f: Filling, u: string, v: string): Filling
    requires u in f.row.cost && v in f.row.cost && (u == source || u in f.row.firstHop)
  {
    var next := Capped(f.row.cost[u] + g.HopCost(v));
    if next >= f.row.cost[v] then f else
      Filling(Row(f.row.cost[v := next], f.row.firstHop[v := if u == source then v else f.row.firstHop[u]]),
              f.heap + {(next, v)})
  }

  ghost function RelaxEvidence(g: Graph, f: Filling, ev: Evidence, u: string, v: string): Evidence
    requires u in f.row.cost && v in f.row.cost
  {
    var next := Capped(f.row.cost[u] + g.HopCost(v));
    if next >= f.row.cost[v] || u !in ev.routes then ev else
      Evidence(ev.routes[v := ev.routes[u] + [v]], ev.scanned - {v})
  }

  lemma CostFallKeepsRelaxed(g: Graph, cost: map<string, nat>, u: string, v: string, c: nat)
    requires Relaxed(g, cost, u) && v in cost && c < cost[v] && u != v
    ensures Relaxed(g, cost[v := c], u)
  {
    forall x | x in g.Neighbors(u) ensures EdgeRelaxed(g, cost[v := c], u, x) {
      assert EdgeRelaxed(g, cost, u, x);
    }
  }

  /** Relaxing an edge keeps the bookkeeping sound and, unless it changes nothing, shrinks the termination measure. */
  lemma RelaxEdgeKeepsConsistent(g: Graph, nodes: set<string>, source: string, f: Filling, ev: Evidence,
                                 u: string, v: string, order: seq<string>)
    requires IsConsistent(g, nodes, source, f, ev, Some(u)) && u in nodes && f.row.cost[u] < UNREACHABLE
    requires v in g.Neighbors(u) && v in nodes && v in order
    requires u == source || u in f.row.firstHop
    ensures var f' := RelaxEdge(g, source, f, u, v);
            && IsConsistent(g, nodes, source, f', RelaxEvidence(g, f, ev, u, v), Some(u))
            && f'.row.cost[u] == f.row.cost[u] && EdgeRelaxed(g, f'.row.cost, u, v)
            && (u in f.row.firstHop ==> u in f'.row.firstHop)
            && (f' == f || Total(f'.row.cost, order) < Total(f.row.cost, order))
  {
    var next := Capped(f.row.cost[u] + g.HopCost(v));
    if next < f.row.cost[v] {
      RelaxKeepsRealized(g, source, f.row, ev.routes, u, v);
      TotalFalls(f.row.cost, order, v, next);
      var f', ev' := RelaxEdge(g, source, f, u, v), RelaxEvidence(g, f, ev, u, v);
      forall x | x in nodes && x != u ensures IsAccounted(f', ev', x) {
        assert IsAccounted(f, ev, x);
      }
      forall x | x in ev'.scanned ensures Relaxed(g, f'.row.cost, x) {
        assert Relaxed(g, f.row.cost, x);
        CostFallKeepsRelaxed(g, f.row.cost, x, v, next);
      }
    }
  }

  /** Relaxing one edge does not undo another of the same system. */
  lemma RelaxEdgeKeepsRelaxed(g: Graph, source: string, f: Filling, u: string, v: string, x: string)
    requires u in f.row.cost && v in f.row.cost && (u == source || u in f.row.firstHop)
    requires EdgeRelaxed(g, f.row.cost, u, x) && RelaxEdge(g, source, f, u, v).row.cost[u] == f.row.cost[u]
    ensures EdgeRelaxed(g, RelaxEdge(g, source, f, u, v).row.cost, u, x)
  {}

  /** With all its edges relaxed the busy system joins the scanned ones. */
  lemma BusyIsDone(g: Graph, nodes: set<string>, source: string, f: Filling, ev: Evidence, u: string)
    requires IsConsistent(g, nodes, source, f, ev, Some(u)) && Relaxed(g, f.row.cost, u)
    ensures IsConsistent(g, nodes, source, f, ev.(scanned := ev.scanned + {u}), None)
  {
    forall v | v in nodes ensures IsAccounted(f, ev.(scanned := ev.scanned + {u}), v) {
      if v != u { assert IsAccounted(f, ev, v); }
    }
  }

  /** Relax every edge out of `u` once, in ascending order of the neighbours. */
  method RelaxNeighbors(g: Graph, ghost nodes: set<string>, source: string, start: Filling, ghost ev0: Evidence,
                        u: string, ghost order: seq<string>)
    returns (f: Filling, ghost ev: Evidence)
    requires Covers(g, nodes) && forall v | v in nodes :: v in order
    requires IsConsistent(g, nodes, source, start, ev0, Some(u)) && u in nodes && start.row.cost[u] < UNREACHABLE
    ensures IsConsistent(g, nodes, source, f, ev, None)
    ensures f == start || Total(f.row.cost, order) < Total(start.row.cost, order)
  {
    f, ev := start, ev0;
    assert IsRealized(g, source, f.row, ev.routes, u);
    var neighbors := Ascending(g.Neighbors(u));
    var k := 0;
    while k < |neighbors|
      invariant 0 <= k <= |neighbors|
      invariant IsConsistent(g, nodes, source, f, ev, Some(u)) && f.row.cost[u] == start.row.cost[u]
      invariant u == source || u in f.row.firstHop
      invariant f == start || Total(f.row.cost, order) < Total(start.row.cost, order)
      invariant forall i | 0 <= i < k :: EdgeRelaxed(g, f.row.cost, u, neighbors[i])
    {
      var v := neighbors[k];
      assert v in g.Neighbors(u);
      RelaxEdgeKeepsConsistent(g, nodes, source, f, ev, u, v, order);
      forall i | 0 <= i < k ensures EdgeRelaxed(g, RelaxEdge(g, source, f, u, v).row.cost, u, neighbors[i]) {
        RelaxEdgeKeepsRelaxed(g, source, f, u, v, neighbors[i]);
      }
      ghost var next := RelaxEvidence(g, f, ev, u, v);
      f := RelaxEdge(g, source, f, u, v);
      ev := next;
      k := k + 1;
    }
    assert Relaxed(g, f.row.cost, u) by {
      forall v | v in g.Neighbors(u) ensures EdgeRelaxed(g, f.row.cost, u, v) {
        assert v in neighbors;
      }
    }
    BusyIsDone(g, nodes, source, f, ev, u);
    ev := ev.(scanned := ev.scanned + {u});
  }

  /** Taking an entry off the heap leaves every system but that entry's accounted for. */
  lemma PopKeepsConsistent(g: Graph, nodes: set<string>, source: string, f: Filling, ev: Evidence, e: (nat, string))
    requires IsConsistent(g, nodes, source, f, ev, None) && e in f.heap
    ensures var popped := f.(heap := f.heap - {e});
            IsConsistent(g, nodes, source, popped, ev, if e.0 == f.row.cost[e.1] then Some(e.1) else None)
  {
    var popped := f.(heap := f.heap - {e});
    forall v | v in nodes && (v != e.1 || e.0 != f.row.cost[e.1]) ensures IsAccounted(popped, ev, v) {
      assert IsAccounted(f, ev, v);
    }
  }

  function Begin(nodes: set<string>, source: string): Filling {
    Filling(Row((map v | v in nodes :: if v == source then 0 else UNREACHABLE), map[]), {(0, source)})
  }

  lemma BeginIsConsistent(g: Graph, nodes: set<string>, source: string)
    requires source in nodes
    ensures IsConsistent(g, nodes, source, Begin(nodes, source), Evidence(map[source := [source]], {}), None)
  {}

  /** Fill one row, always taking the smallest (cost, system) entry of the heap next and skipping outdated ones. */
  method BuildRow(g: Graph, nodes: set<string>, source: string) returns (row: Row)
    requires Covers(g, nodes) && source in nodes
    ensures IsLeastCostRow(g, source, row)
  {
    ghost var order := Ascending(nodes);
    var f := Begin(nodes, source);
    ghost var ev := Evidence(map[source := [source]], {});
    BeginIsConsistent(g, nodes, source);
    while f.heap != {}
      invariant IsConsistent(g, nodes, source, f, ev, None)
      decreases Total(f.row.cost, order), |f.heap|
    {
      LeastEntryExists(f.heap);
      var entry :| IsLeastEntry(entry, f.heap);
      PopKeepsConsistent(g, nodes, source, f, ev, entry);
      f := f.(heap := f.heap - {entry});
      var (currentCost, current) := entry;
      if currentCost == f.row.cost[current] {
        f, ev := RelaxNeighbors(g, nodes, source, f, ev, current, order);
      }
    }
    row := f.row;
    ScannedRowIsLeast(g, nodes, source, f, ev);
  }

  /** With the heap empty, every system of finite cost has been relaxed, so the row is least. */
  lemma ScannedRowIsLeast(g: Graph, nodes: set<string>, source: string, f: Filling, ev: Evidence)
    requires Covers(g, nodes) && IsConsistent(g, nodes, source, f, ev, None) && f.heap == {}
    ensures IsLeastCostRow(g, source, f.row)
  {
    forall u | u in f.row.cost && f.row.cost[u] < UNREACHABLE ensures Relaxed(g, f.row.cost, u) {
      assert IsAccounted(f, ev, u);
    }
    forall p | IsPath(g, p) && p[0] == source ensures IsBoundFor(g, f.row, p) {
      RelaxedBoundsPaths(g, nodes, source, f.row.cost, p);
    }
    forall v | v in f.row.cost ensures HasRoute(g, source, f.row, v) {
      assert IsRealized(g, source, f.row, ev.routes, v);
    }
  }

  datatype Table = Table(rows: map<string, Row>) {
    /** Weighted cost between systems; a system reaches itself even when it is not on the map. */
    function PathCost(start: string, target: string): Option<nat> {
      if start == target then Some(0)
      else if start in rows && target in rows[start].cost && rows[start].cost[target] != UNREACHABLE
      then Some(rows[start].cost[target])
      else None
    }

    function NextHopToward(start: string, target: string): Option<string> {
      if start == target then None
      else if start in rows && target in rows[start].firstHop then Some(rows[start].firstHop[target])
      else None
    }
  }

  ghost predicate IsLeastCostTable(g: Graph, t: Table) {
    Covers(g, t.rows.Keys) && forall s | s in t.rows :: IsLeastCostRow(g, s, t.rows[s])
  }

  lemma NodesCover(g: Graph)
    ensures Covers(g, g.Nodes())
  {}

  /** All rows, one source after another. */
  method BuildWithPenalties(g: Graph) returns (t: Table)
    ensures t.rows.Keys == g.Nodes() && IsLeastCostTable(g, t)
  {
    var nodes := g.Nodes();
    NodesCover(g);
    var rows: map<string, Row> := map[];
    var todo := nodes;
    while todo != {}
      invariant rows.Keys == nodes - todo && todo <= nodes
      invariant forall s | s in rows :: IsLeastCostRow(g, s, rows[s])
      decreases |todo|
    {
      var source :| source in todo;
      var row := BuildRow(g, nodes, source);
      rows := rows[source := row];
      todo := todo - {source};
    }
    t := Table(rows);
  }

  // ---- what a least-cost table promises its users ----

  /** A path of two or more systems is its first edge followed by a path. */
  lemma {:induction false} PathSplitsAtHead(g: Graph, p: seq<string>)
    requires |p| >= 2
    ensures IsPath(g, p) <==> p[1] in g.Neighbors(p[0]) && IsPath(g, p[1..])
    ensures Weight(g, p) == g.HopCost(p[1]) + Weight(g, p[1..])
    decreases |p|
  {
    if |p| > 2 {
      PathSplitsAtHead(g, p[..|p| - 1]);
      assert p[1..][..|p| - 2] == p[..|p| - 1][1..];
    } else {
      assert p[..1] == [p[0]] && p[1..] == [p[1]];
    }
  }

  /** Every cost is that of a route. */
  lemma CostHasRoute(g: Graph, t: Table, a: string, b: string) returns (p: seq<string>)
    requires IsLeastCostTable(g, t) && t.PathCost(a, b).Some?
    ensures Joins(g, p, a, b) && Weight(g, p) == t.PathCost(a, b).value
  {
    if a == b {
      p := [a];
    } else {
      var row := t.rows[a];
      assert HasRoute(g, a, row, b);
      p :| Realizes(g, a, b, row, p);
    }
  }

  /** No route is cheaper than the cost; where the table has no cost, no route stays below the cap. */
  lemma CostIsLeast(g: Graph, t: Table, a: string, b: string, p: seq<string>)
    requires IsLeastCostTable(g, t) && a in t.rows && Joins(g, p, a, b)
    ensures t.PathCost(a, b).GetOr(UNREACHABLE) <= Weight(g, p)
  {
    if a != b {
      var row := t.rows[a];
      assert IsBoundFor(g, row, p);
    }
  }

  /** One edge shortens a cost by at most its own weight. */
  lemma CostsAreTriangular(g: Graph, t: Table, a: string, h: string, b: string)
    requires IsLeastCostTable(g, t) && a in t.rows && h in g.Neighbors(a) && t.PathCost(h, b).Some?
    ensures t.PathCost(a, b).GetOr(UNREACHABLE) <= g.HopCost(h) + t.PathCost(h, b).value
  {
    var p := CostHasRoute(g, t, h, b);
    var longer := [a] + p;
    assert longer[1..] == p;
    PathSplitsAtHead(g, longer);
    CostIsLeast(g, t, a, b, longer);
  }

  /** The recorded first hop is the second system of a route of exactly the recorded cost. */
  lemma NextHopStartsRoute(g: Graph, t: Table, a: string, b: string) returns (p: seq<string>)
    requires IsLeastCostTable(g, t) && a != b && t.PathCost(a, b).Some?
    ensures Joins(g, p, a, b) && Weight(g, p) == t.PathCost(a, b).value
    ensures |p| >= 2 && t.NextHopToward(a, b) == Some(p[1]) && Weight(g, p) < UNREACHABLE
  {
    var row := t.rows[a];
    assert HasRoute(g, a, row, b);
    p :| Realizes(g, a, b, row, p);
  }

  /** The next hop is an edge, and following it takes exactly its weight off the remaining cost. */
  lemma NextHopContinuesRoute(g: Graph, t: Table, a: string, b: string)
    requires IsLeastCostTable(g, t) && a != b && t.PathCost(a, b).Some?
    ensures t.NextHopToward(a, b).Some? && t.PathCost(a, b).value < UNREACHABLE
    ensures var h := t.NextHopToward(a, b).value;
            && h in g.Neighbors(a) && h in t.rows && t.PathCost(h, b).Some?
            && t.PathCost(a, b).value == g.HopCost(h) + t.PathCost(h, b).value
  {
    var p := NextHopStartsRoute(g, t, a, b);
    var h := p[1];
    PathSplitsAtHead(g, p);
    assert h in g.Neighbors(a);
    assert Joins(g, p[1..], h, b);
    CostIsLeast(g, t, h, b, p[1..]);
    CostsAreTriangular(g, t, a, h, b);
  }
}
