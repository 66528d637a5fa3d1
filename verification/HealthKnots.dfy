/** Exactly which dependency graphs the health map is right on: those in which no two nodes depend on each other. */
module HealthKnots {
  import opened Options
  import opened HealthMap

  /** The nodes have these identifiers, listed in some order. */
  ghost predicate Lists(nodes: seq<NodeInput>, names: set<string>) {
    (forall i :: 0 <= i < |nodes| ==> nodes[i].id in names) && forall id :: id in names ==> exists i :: 0 <= i < |nodes| && nodes[i].id == id
  }

  ghost predicate AllExact(nodes: seq<NodeInput>, edges: seq<EdgeInput>, probes: Probes) {
    var g, m := GraphOf(nodes, edges, probes), Resolved(nodes, edges, probes);
    forall id :: id in g.self ==> id in m.status && m.status[id] == Meaning(g, id)
  }

  /** Whatever kinds of node these are, whatever the probes say and whatever the listing order, every status is what it should be. */
  ghost predicate AlwaysExact(names: set<string>, edges: seq<EdgeInput>) {
    forall nodes: seq<NodeInput>, probes: Probes :: Lists(nodes, names) ==> AllExact(nodes, edges, probes)
  }

  /** The dependencies between some identifiers, whatever their nodes' health. */
  function ShapeOf(names: set<string>, edges: seq<EdgeInput>): Graph {
    Graph(map[], map id | id in names :: DepsOf(edges, names, id))
  }

  /** Two different nodes depend on each other. */
  ghost predicate Knotted(names: set<string>, edges: seq<EdgeInput>) {
    exists x, y :: Knot(ShapeOf(names, edges), x, y)
  }

  lemma SameShape(nodes: seq<NodeInput>, edges: seq<EdgeInput>, probes: Probes, names: set<string>)
    requires Lists(nodes, names)
    ensures GraphOf(nodes, edges, probes).self.Keys == names
    ensures GraphOf(nodes, edges, probes).deps == ShapeOf(names, edges).deps
  {
    assert SelfById(nodes, probes).Keys == names;
  }

  lemma KnotInShape(g: Graph, h: Graph, x: string, y: string)
    requires g.deps == h.deps && Knot(g, x, y)
    ensures Knot(h, x, y)
  {
    SameReaches(g, h, x, y);
    SameReaches(g, h, y, x);
  }

  lemma SameReaches(g: Graph, h: Graph, x: string, y: string)
    requires g.deps == h.deps && Reaches(g, x, y)
    ensures Reaches(h, x, y)
  {
    var p :| Path(g, p) && p[0] == x && p[|p| - 1] == y;
    assert Path(h, p);
  }

  // ---------------------------------------------------------------- no knot, no error

  lemma UnknottedExact(nodes: seq<NodeInput>, edges: seq<EdgeInput>, probes: Probes, names: set<string>)
    requires Lists(nodes, names) && !Knotted(names, edges)
    ensures AllExact(nodes, edges, probes)
  {
    var g := GraphOf(nodes, edges, probes);
    SameShape(nodes, edges, probes, names);
    forall x, y
      ensures !Knot(g, x, y)
    {
      if Knot(g, x, y) {
        KnotInShape(g, ShapeOf(names, edges), x, y);
      }
    }
    forall id | id in g.self
      ensures id in Resolved(nodes, edges, probes).status && Resolved(nodes, edges, probes).status[id] == Meaning(g, id)
    {
      assert NoKnotFrom(g, id);
      UnknottedStatusExact(nodes, edges, probes, id);
    }
  }

  // ---------------------------------------------------------------- where the search goes

  /** What a settled node depends on is settled or on the stack. */
  ghost predicate Explored(g: Graph, m: Memo) {
    forall v, i :: v in m.visited && v in g.deps && 0 <= i < |g.deps[v]| ==> g.deps[v][i] in m.visited + m.visiting
  }

  lemma {:induction false} ResolveExplores(g: Graph, m: Memo, id: string)
    requires Closed(g) && id in g.self && Explored(g, m)
    ensures var n := Resolve(g, m, id).0;
            Explored(g, n) && m.visited <= n.visited && (id in n.visited || id in m.visiting)
    decreases g.self.Keys - m.visiting, 0
  {
    if !(id in m.status && id in m.visited) && id !in m.visiting {
      var m1 := m.(visiting := m.visiting + {id});
      assert Explored(g, m1);
      EachExplores(g, m1, g.deps[id]);
    }
  }

  lemma {:induction false} EachExplores(g: Graph, m: Memo, ids: seq<string>)
    requires Closed(g) && (forall i :: 0 <= i < |ids| ==> ids[i] in g.self) && Explored(g, m)
    ensures var n := ResolveEach(g, m, ids).0;
            Explored(g, n) && m.visited <= n.visited && forall i :: 0 <= i < |ids| ==> ids[i] in n.visited + m.visiting
    decreases g.self.Keys - m.visiting, |ids|
  {
    if ids != [] {
      var (n, h) := Resolve(g, m, ids[0]);
      ResolveExplores(g, m, ids[0]);
      EachExplores(g, n, ids[1..]);
    }
  }

  /** With nothing on the stack, all that a settled node depends on is settled, however far. */
  lemma {:induction false} ReachSettled(g: Graph, m: Memo, p: seq<string>)
    requires Closed(g) && Explored(g, m) && m.visiting == {} && Path(g, p) && p[0] in m.visited
    ensures p[|p| - 1] in m.visited
    decreases |p|
  {
    if |p| > 2 {
      assert Path(g, p[1..]);
      ReachSettled(g, m, p[1..]);
    }
  }

  // ---------------------------------------------------------------- what stays hidden

  /** With the only bad node on the stack, nothing else is settled as bad. */
  ghost predicate Quiet(m: Memo) {
    m.visited !! m.visiting && forall id :: id in m.visited ==> id in m.status && !Bad(m.status[id])
  }

  ghost predicate OnlyBad(g: Graph, x: string) {
    forall id :: id in g.self && id != x ==> !Bad(g.self[id])
  }

  lemma {:induction false} ResolveQuiet(g: Graph, m: Memo, x: string, id: string)
    requires Closed(g) && id in g.self && OnlyBad(g, x) && x in m.visiting && Quiet(m)
    ensures var (n, h) := Resolve(g, m, id); Quiet(n) && !Bad(h)
    decreases g.self.Keys - m.visiting, 0
  {
    if !(id in m.status && id in m.visited) && id !in m.visiting {
      var m1 := m.(visiting := m.visiting + {id});
      assert Quiet(m1);
      EachQuiet(g, m1, x, g.deps[id]);
    }
  }

  lemma {:induction false} EachQuiet(g: Graph, m: Memo, x: string, ids: seq<string>)
    requires Closed(g) && (forall i :: 0 <= i < |ids| ==> ids[i] in g.self) && OnlyBad(g, x) && x in m.visiting && Quiet(m)
    ensures var (n, hs) := ResolveEach(g, m, ids); Quiet(n) && forall i :: 0 <= i < |ids| ==> !Bad(hs[i])
    decreases g.self.Keys - m.visiting, |ids|
  {
    if ids != [] {
      var (n, h) := Resolve(g, m, ids[0]);
      ResolveQuiet(g, m, x, ids[0]);
      EachQuiet(g, n, x, ids[1..]);
    }
  }

  /** A settled status stands. */
  ghost predicate Standing(m: Memo, n: Memo) {
    && m.visited <= n.visited && n.visited !! n.visiting
    && forall id :: id in m.visited ==> id in m.status && id in n.status && n.status[id] == m.status[id]
  }

  ghost predicate Settled(m: Memo) {
    m.visited !! m.visiting && forall id :: id in m.visited ==> id in m.status
  }

  lemma {:induction false} ResolveStands(g: Graph, m: Memo, id: string)
    requires Closed(g) && id in g.self && Settled(m)
    ensures var n := Resolve(g, m, id).0; Settled(n) && Standing(m, n)
    decreases g.self.Keys - m.visiting, 0
  {
    if !(id in m.status && id in m.visited) && id !in m.visiting {
      var m1 := m.(visiting := m.visiting + {id});
      assert Settled(m1);
      EachStands(g, m1, g.deps[id]);
    }
  }

  lemma {:induction false} EachStands(g: Graph, m: Memo, ids: seq<string>)
    requires Closed(g) && (forall i :: 0 <= i < |ids| ==> ids[i] in g.self) && Settled(m)
    ensures var n := ResolveEach(g, m, ids).0; Settled(n) && Standing(m, n)
    decreases g.self.Keys - m.visiting, |ids|
  {
    if ids != [] {
      ResolveStands(g, m, ids[0]);
      EachStands(g, Resolve(g, m, ids[0]).0, ids[1..]);
    }
  }

  /** After the only bad node was resolved first, what depends on it and it on is settled as not bad. */
  lemma FirstHides(g: Graph, x: string, y: string)
    requires Closed(g) && x in g.self && OnlyBad(g, x) && Knot(g, x, y)
    ensures var m := Resolve(g, FRESH, x).0; Settled(m) && y in m.visited && !Bad(m.status[y])
  {
    var m1 := FRESH.(visiting := FRESH.visiting + {x});
    assert Quiet(m1);
    EachQuiet(g, m1, x, g.deps[x]);
    ResolveExplores(g, FRESH, x);
    var p :| Path(g, p) && p[0] == x && p[|p| - 1] == y;
    ReachSettled(g, Resolve(g, FRESH, x).0, p);
  }

  /** The two nodes of a knot: the first bad, everything else well, and the first listed first. */
  lemma KnotHides(g: Graph, ids: seq<string>, x: string, y: string)
    requires Closed(g) && x in g.self && y in g.self && Bad(g.self[x]) && OnlyBad(g, x) && Knot(g, x, y)
    requires |ids| > 0 && ids[0] == x && forall i :: 0 <= i < |ids| ==> ids[i] in g.self
    ensures var m := ResolveEach(g, FRESH, ids).0; y in m.status && !Bad(m.status[y])
    ensures Meaning(g, y) == Degraded
  {
    FirstHides(g, x, y);
    EachStands(g, Resolve(g, FRESH, x).0, ids[1..]);
    assert ReachesBad(g, y);
  }

  // ---------------------------------------------------------------- the exact condition

  lemma {:induction false} SomeOrder(names: set<string>) returns (ids: seq<string>)
    ensures forall id :: id in ids <==> id in names
    ensures forall i, j :: 0 <= i < j < |ids| ==> ids[i] != ids[j]
    decreases names
  {
    if names == {} {
      ids := [];
    } else {
      var id :| id in names;
      var rest := SomeOrder(names - {id});
      ids := [id] + rest;
    }
  }

  const FAILING: Probes := map[Oltp := Unavailable]

  /** A database, listed first, and nodes without a probe. */
  function Around(x: string, rest: seq<string>): (nodes: seq<NodeInput>)
    ensures |nodes| == |rest| + 1 && nodes[0] == NodeInput(x, "database", "orders")
    ensures forall i :: 0 <= i < |rest| ==> nodes[i + 1] == NodeInput(rest[i], "service", "worker")
  {
    [NodeInput(x, "database", "orders")] + seq(|rest|, i requires 0 <= i < |rest| => NodeInput(rest[i], "service", "worker"))
  }

  lemma AroundLists(x: string, rest: seq<string>, names: set<string>)
    requires x in names && forall id :: id in rest <==> id in names - {x}
    requires forall i, j :: 0 <= i < j < |rest| ==> rest[i] != rest[j]
    ensures Lists(Around(x, rest), names) && DistinctIds(Around(x, rest))
  {
    var nodes := Around(x, rest);
    forall i | 1 <= i < |nodes|
      ensures nodes[i].id == rest[i - 1] && nodes[i].id in names && nodes[i].id != x
    {
      assert rest[i - 1] in rest;
    }
    forall id | id in names
      ensures exists i :: 0 <= i < |nodes| && nodes[i].id == id
    {
      if id == x {
        assert nodes[0].id == id;
      } else {
        assert id in rest;
        var i :| 0 <= i < |rest| && rest[i] == id;
        assert nodes[i + 1].id == id;
      }
    }
  }

  lemma NoProbe(id: string, probes: Probes)
    ensures SelfHealth(NodeInput(id, "service", "worker"), probes) == Unknown
  {
    assert |"service"| == 7 && |"database"| == 8 && |"application"| == 11;
  }

  lemma DatabaseProbe(x: string)
    ensures SelfHealth(NodeInput(x, "database", "orders"), FAILING) == Unavailable
  {
  }

  /** The first node is bad, and no other one has a probe. */
  predicate OnlyFirstFails(nodes: seq<NodeInput>) {
    nodes != [] && forall i :: 0 <= i < |nodes| ==> SelfHealth(nodes[i], FAILING) == if i == 0 then Unavailable else Unknown
  }

  lemma AroundFails(x: string, rest: seq<string>)
    ensures OnlyFirstFails(Around(x, rest))
  {
    var nodes := Around(x, rest);
    forall i | 0 <= i < |nodes|
      ensures SelfHealth(nodes[i], FAILING) == if i == 0 then Unavailable else Unknown
    {
      if i == 0 {
        DatabaseProbe(x);
      } else {
        NoProbe(rest[i - 1], FAILING);
      }
    }
  }

  lemma OwnHealth(nodes: seq<NodeInput>, self: map<string, Health>, i: nat)
    requires DistinctIds(nodes) && OnlyFirstFails(nodes) && self == SelfById(nodes, FAILING) && i < |nodes|
    ensures nodes[i].id in self && self[nodes[i].id] == if i == 0 then Unavailable else Unknown
  {
    SelfOf(nodes, FAILING, i);
  }

  lemma DatabaseFails(nodes: seq<NodeInput>, edges: seq<EdgeInput>)
    requires DistinctIds(nodes) && OnlyFirstFails(nodes)
    ensures var g := GraphOf(nodes, edges, FAILING);
      nodes[0].id in g.self && Bad(g.self[nodes[0].id]) && OnlyBad(g, nodes[0].id)
  {
    var self := SelfById(nodes, FAILING);
    OwnHealth(nodes, self, 0);
    forall id | id in self && id != nodes[0].id
      ensures !Bad(self[id])
    {
      var i :| 0 <= i < |nodes| && nodes[i].id == id;
      OwnHealth(nodes, self, i);
    }
  }

  /** Nodes for every knot: a failing database at one end of it, listed first, and nothing else with a probe. */
  lemma KnottedFails(names: set<string>, edges: seq<EdgeInput>, x: string, y: string) returns (nodes: seq<NodeInput>)
    requires Knot(ShapeOf(names, edges), x, y)
    ensures Lists(nodes, names) && DistinctIds(nodes) && !AllExact(nodes, edges, FAILING)
  {
    KnotEnds(names, edges, x, y);
    var rest := SomeOrder(names - {x});
    nodes := Around(x, rest);
    AroundLists(x, rest, names);
    AroundFails(x, rest);
    DatabaseFails(nodes, edges);
    SameShape(nodes, edges, FAILING, names);
    KnotInShape(ShapeOf(names, edges), GraphOf(nodes, edges, FAILING), x, y);
    HiddenStatus(nodes, edges, FAILING, x, y);
  }

  lemma KnotEnds(names: set<string>, edges: seq<EdgeInput>, x: string, y: string)
    requires Knot(ShapeOf(names, edges), x, y)
    ensures x in names && y in names
  {
    var g := ShapeOf(names, edges);
    var p :| Path(g, p) && p[0] == x && p[|p| - 1] == y;
    var q :| Path(g, q) && q[0] == y && q[|q| - 1] == x;
    assert p[0] in g.deps && q[0] in g.deps;
  }

  lemma HiddenStatus(nodes: seq<NodeInput>, edges: seq<EdgeInput>, probes: Probes, x: string, y: string)
    requires nodes != [] && nodes[0].id == x
    requires var g := GraphOf(nodes, edges, probes);
      x in g.self && y in g.self && Bad(g.self[x]) && OnlyBad(g, x) && Knot(g, x, y)
    ensures !AllExact(nodes, edges, probes)
  {
    KnotHides(GraphOf(nodes, edges, probes), Ids(nodes), x, y);
  }

  /**
   * For the identifiers of nodes and the edges between them: every status is right for all kinds of node, all probes and
   * all listing orders exactly when no two different nodes depend on each other. A node that depends on itself alone does
   * no harm.
   */
  lemma ExactIffUnknotted(names: set<string>, edges: seq<EdgeInput>)
    ensures AlwaysExact(names, edges) <==> !Knotted(names, edges)
  {
    if Knotted(names, edges) {
      var x, y :| Knot(ShapeOf(names, edges), x, y);
      var nodes := KnottedFails(names, edges, x, y);
    } else {
      forall nodes: seq<NodeInput>, probes: Probes | Lists(nodes, names)
        ensures AllExact(nodes, edges, probes)
      {
        UnknottedExact(nodes, edges, probes, names);
      }
    }
  }

  // ---------------------------------------------------------------- an outage that is missed

  const DATABASE := NodeInput("a", "database", "orders")
  const SERVICE := NodeInput("b", "application", "orders api")

  /** A failing database and a service that need each other: listed first, the database hides its failure from the service. */
  lemma CycleHidesOutage()
    ensures var nodes, edges := [DATABASE, SERVICE], [EdgeInput("a", "b", "depends_on"), EdgeInput("b", "a", "depends_on")];
      var probes := map[Oltp := Unavailable, Api := Ok];
      var g, m := GraphOf(nodes, edges, probes), Resolved(nodes, edges, probes);
      && "b" in m.status && m.status["b"] == Ok
      && "b" in g.self && Meaning(g, "b") == Degraded
  {
    var nodes, edges := [DATABASE, SERVICE], [EdgeInput("a", "b", "depends_on"), EdgeInput("b", "a", "depends_on")];
    var probes := map[Oltp := Unavailable, Api := Ok];
    var g := GraphOf(nodes, edges, probes);
    TwoNodes(probes);
    TwoEdges();
    assert g.self.Keys == {"a", "b"};
    assert g.deps["a"] == DepsOf(edges, {"a", "b"}, "a") && g.deps["b"] == DepsOf(edges, {"a", "b"}, "b");
    ReachStep(g, "a", "b");
    ReachStep(g, "b", "a");
    assert Knot(g, "a", "b");
    assert Ids(nodes) == ["a", "b"];
    KnotHides(g, Ids(nodes), "a", "b");
    EveryStatusSound(nodes, edges, probes, "b");
  }

  lemma TwoNodes(probes: Probes)
    requires probes == map[Oltp := Unavailable, Api := Ok]
    ensures SelfById([DATABASE, SERVICE], probes) == map["a" := Unavailable, "b" := Ok]
  {
    assert [DATABASE, SERVICE][..1] == [DATABASE] && [DATABASE][..0] == [];
    assert SelfById([DATABASE], probes) == map["a" := Unavailable];
    ServiceIsApi();
  }

  lemma ServiceIsApi()
    ensures ProbeOf(SERVICE) == Some(Api)
  {
    var lower := LowerAll("orders api");
    assert lower == "orders api";
    ContainsAt(lower, "api", 7);
  }

  lemma {:induction false} ContainsAt(s: string, part: string, k: nat)
    requires k <= |s| && part <= s[k..]
    ensures Contains(s, part)
    decreases k
  {
    if k > 0 {
      assert s[1..][k - 1..] == s[k..];
      ContainsAt(s[1..], part, k - 1);
    }
  }

  lemma TwoEdges()
    ensures var edges := [EdgeInput("a", "b", "depends_on"), EdgeInput("b", "a", "depends_on")];
      DepsOf(edges, {"a", "b"}, "a") == ["b"] && DepsOf(edges, {"a", "b"}, "b") == ["a"]
  {
    var e, f := EdgeInput("a", "b", "depends_on"), EdgeInput("b", "a", "depends_on");
    assert [e, f][..1] == [e] && [e][..0] == [];
    assert DepsOf([e], {"a", "b"}, "a") == [] + ["b"] && DepsOf([e], {"a", "b"}, "b") == [];
    assert [] + ["b"] == ["b"] && ["b"] + [] == ["b"] && [] + ["a"] == ["a"];
  }
}
