/** The health dependency map of packages/kernel/src/observability.ts. */
module HealthMap {
  import opened Options

  datatype Health = Ok | Degraded | Unavailable | Unknown

  datatype Probe = Api | Web | Oltp

  datatype NodeInput = NodeInput(id: string, ciClass: string, name: string)

  datatype EdgeInput = EdgeInput(from: string, to: string, relType: string)

  predicate Bad(h: Health) {
    h.Degraded? || h.Unavailable?
  }

  /** `rollupHealth`. */
  function Rollup(self: Health, dependencies: seq<Health>): Health {
    if self.Unavailable? then Unavailable
    else if exists i :: 0 <= i < |dependencies| && Bad(dependencies[i]) then Degraded
    else self
  }

  // ---------------------------------------------------------------- the graph

  function Lower(c: char): char {
    if 'A' <= c <= 'Z' then (c as int + 32) as char else c
  }

  function LowerAll(s: string): string {
    seq(|s|, i requires 0 <= i < |s| => Lower(s[i]))
  }

  predicate Contains(s: string, part: string) {
    part <= s || (s != "" && Contains(s[1..], part))
  }

  /** `mapCiProbeKey`. */
  function ProbeOf(node: NodeInput): Option<Probe> {
    if node.ciClass == "database" then Some(Oltp)
    else if node.ciClass == "application" && Contains(LowerAll(node.name), "api") then Some(Api)
    else if node.ciClass == "application" && Contains(LowerAll(node.name), "web") then Some(Web)
    else None
  }

  type Probes = map<Probe, Health>

  function SelfHealth(node: NodeInput, probes: Probes): Health {
    match ProbeOf(node)
    case None => Unknown
    case Some(p) => if p in probes then probes[p] else Unknown
  }

  /** What the search sees: each node's own health, and its dependencies in edge order. */
  datatype Graph = Graph(self: map<string, Health>, deps: map<string, seq<string>>)

  predicate Closed(g: Graph) {
    && g.deps.Keys == g.self.Keys
    && forall id, i :: id in g.deps && 0 <= i < |g.deps[id]| ==> g.deps[id][i] in g.self
  }

  /** Own health by node id; a later node with the same id replaces an earlier one. */
  function SelfById(nodes: seq<NodeInput>, probes: Probes): (m: map<string, Health>)
    ensures forall i :: 0 <= i < |nodes| ==> nodes[i].id in m
    ensures forall id :: id in m ==> exists i :: 0 <= i < |nodes| && nodes[i].id == id
  {
    if nodes == [] then map[]
    else
      var last := nodes[|nodes| - 1];
      SelfById(nodes[..|nodes| - 1], probes)[last.id := SelfHealth(last, probes)]
  }

  predicate Counted(e: EdgeInput, ids: set<string>) {
    e.relType == "depends_on" && e.from in ids && e.to in ids
  }

  /** The targets of a node's `depends_on` edges between known nodes, in edge order. */
  function DepsOf(edges: seq<EdgeInput>, ids: set<string>, id: string): (ds: seq<string>)
    ensures forall i :: 0 <= i < |ds| ==> ds[i] in ids
  {
    if edges == [] then []
    else
      var last := edges[|edges| - 1];
      DepsOf(edges[..|edges| - 1], ids, id) + (if Counted(last, ids) && last.from == id then [last.to] else [])
  }

  function GraphOf(nodes: seq<NodeInput>, edges: seq<EdgeInput>, probes: Probes): (g: Graph)
    ensures Closed(g)
  {
    var self := SelfById(nodes, probes);
    Graph(self, map id | id in self :: DepsOf(edges, self.Keys, id))
  }

  // ---------------------------------------------------------------- the memoised search

  datatype Why = Plain | SelfUnavailable | Dependency | Cycle

  datatype Memo = Memo(status: map<string, Health>, reason: map<string, Why>, visiting: set<string>, visited: set<string>)

  const FRESH := Memo(map[], map[], {}, {})

  function WhyOf(self: Health, dependencies: seq<Health>): Why {
    if self.Unavailable? then SelfUnavailable
    else if exists i :: 0 <= i < |dependencies| && Bad(dependencies[i]) then Dependency
    else Plain
  }

  /** A node is settled: its status stands, and it leaves the stack. */
  function Settle(m: Memo, id: string, h: Health, why: Why): Memo {
    Memo(m.status[id := h], m.reason[id := why], m.visiting - {id}, m.visited + {id})
  }

  /** `resolve`: a settled node answers from the memo, a node on the stack answers unknown. */
  function Resolve(g: Graph, m: Memo, id: string): (r: (Memo, Health))
    requires Closed(g) && id in g.self
    ensures r.0.visiting == m.visiting
    decreases g.self.Keys - m.visiting, 0
  {
    if id in m.status && id in m.visited then (m, m.status[id])
    else if id in m.visiting then (m.(status := m.status[id := Unknown], reason := m.reason[id := Cycle]), Unknown)
    else
      var (n, hs) := ResolveEach(g, m.(visiting := m.visiting + {id}), g.deps[id]);
      var h := Rollup(g.self[id], hs);
      (Settle(n, id, h, WhyOf(g.self[id], hs)), h)
  }

  function ResolveEach(g: Graph, m: Memo, ids: seq<string>): (r: (Memo, seq<Health>))
    requires Closed(g) && forall i :: 0 <= i < |ids| ==> ids[i] in g.self
    ensures r.0.visiting == m.visiting && |r.1| == |ids|
    decreases g.self.Keys - m.visiting, |ids|
  {
    if ids == [] then (m, [])
    else
      var (n, h) := Resolve(g, m, ids[0]);
      var (o, hs) := ResolveEach(g, n, ids[1..]);
      (o, [h] + hs)
  }

  // ---------------------------------------------------------------- what a status should mean

  predicate Path(g: Graph, p: seq<string>) {
    |p| >= 2 && forall i :: 0 <= i < |p| - 1 ==> p[i] in g.deps && p[i + 1] in g.deps[p[i]]
  }

  /** b is reached from a along one or more dependencies. */
  ghost predicate Reaches(g: Graph, a: string, b: string) {
    exists p :: Path(g, p) && p[0] == a && p[|p| - 1] == b
  }

  ghost predicate ReachesBad(g: Graph, id: string) {
    exists y :: y in g.self && Reaches(g, id, y) && Bad(g.self[y])
  }

  /** Unavailable only of itself; degraded of itself or of something it depends on, however far. */
  ghost function Meaning(g: Graph, id: string): Health
    requires id in g.self
  {
    if g.self[id].Unavailable? then Unavailable
    else if ReachesBad(g, id) then Degraded
    else g.self[id]
  }

  /** Two different nodes depend on each other. */
  ghost predicate Knot(g: Graph, a: string, b: string) {
    a != b && Reaches(g, a, b) && Reaches(g, b, a)
  }

  /** Neither the node nor anything it depends on is in a cycle with another node; a node may depend on itself. */
  ghost predicate NoKnotFrom(g: Graph, id: string) {
    forall x, y :: (x == id || Reaches(g, id, x)) ==> !Knot(g, x, y)
  }

  lemma ReachStep(g: Graph, a: string, b: string)
    requires a in g.deps && b in g.deps[a]
    ensures Reaches(g, a, b)
  {
    assert Path(g, [a, b]);
  }

  lemma ReachTrans(g: Graph, a: string, b: string, c: string)
    requires Reaches(g, a, b) && Reaches(g, b, c)
    ensures Reaches(g, a, c)
  {
    var p :| Path(g, p) && p[0] == a && p[|p| - 1] == b;
    var q :| Path(g, q) && q[0] == b && q[|q| - 1] == c;
    var r := p + q[1..];
    forall i | 0 <= i < |r| - 1
      ensures r[i] in g.deps && r[i + 1] in g.deps[r[i]]
    {
      if i < |p| - 1 {
        assert r[i] == p[i] && r[i + 1] == p[i + 1];
      } else {
        assert r[i] == q[i - (|p| - 1)] && r[i + 1] == q[i - (|p| - 1) + 1];
      }
    }
    assert Path(g, r);
  }

  lemma MeaningBad(g: Graph, id: string)
    requires id in g.self
    ensures Bad(Meaning(g, id)) <==> Bad(g.self[id]) || ReachesBad(g, id)
  {
  }

  // ---------------------------------------------------------------- soundness, on every graph

  /** What a settled status always tells, cycles or not. */
  ghost predicate SoundStatus(g: Graph, id: string, h: Health)
    requires id in g.self
  {
    && (h.Unavailable? <==> g.self[id].Unavailable?)
    && (h.Degraded? ==> g.self[id].Degraded? || ReachesBad(g, id))
    && (!h.Degraded? ==> h == g.self[id])
  }

  /** What a settled reason always tells. */
  ghost predicate SoundReason(g: Graph, id: string, h: Health, why: Why)
    requires id in g.self
  {
    && !why.Cycle?
    && (why.SelfUnavailable? <==> g.self[id].Unavailable?)
    && (why.Dependency? ==> h.Degraded? && ReachesBad(g, id))
    && (h.Degraded? && !g.self[id].Degraded? ==> why.Dependency?)
  }

  ghost predicate SoundMemo(g: Graph, m: Memo) {
    forall id :: id in m.visited ==>
      && id in g.self && id in m.status && id in m.reason
      && SoundStatus(g, id, m.status[id])
      && SoundReason(g, id, m.status[id], m.reason[id])
  }

  lemma {:induction false} ResolveSound(g: Graph, m: Memo, id: string)
    requires Closed(g) && id in g.self && SoundMemo(g, m)
    ensures var (n, h) := Resolve(g, m, id);
            && SoundMemo(g, n)
            && m.visited <= n.visited
            && (id !in m.visiting ==> id in n.visited)
            && (Bad(h) ==> Bad(g.self[id]) || ReachesBad(g, id))
    decreases g.self.Keys - m.visiting, 0
  {
    if !(id in m.status && id in m.visited) && id !in m.visiting {
      var m1 := m.(visiting := m.visiting + {id});
      var (n, hs) := ResolveEach(g, m1, g.deps[id]);
      EachSound(g, m1, g.deps[id]);
      SettledSound(g, n, id, hs);
    }
  }

  /** What a node's dependencies answered is never bad without a cause. */
  ghost predicate SoundAnswers(g: Graph, ids: seq<string>, hs: seq<Health>) {
    |hs| == |ids| && forall i :: 0 <= i < |hs| && Bad(hs[i]) ==> ids[i] in g.self && (Bad(g.self[ids[i]]) || ReachesBad(g, ids[i]))
  }

  lemma SettledSound(g: Graph, n: Memo, id: string, hs: seq<Health>)
    requires Closed(g) && id in g.self && SoundMemo(g, n) && SoundAnswers(g, g.deps[id], hs)
    ensures var h := Rollup(g.self[id], hs);
      SoundMemo(g, Settle(n, id, h, WhyOf(g.self[id], hs))) && (Bad(h) ==> Bad(g.self[id]) || ReachesBad(g, id))
  {
    if i :| 0 <= i < |hs| && Bad(hs[i]) {
      var d := g.deps[id][i];
      ReachStep(g, id, d);
      BadBelow(g, id, d);
    }
  }

  lemma BadBelow(g: Graph, id: string, d: string)
    requires Reaches(g, id, d) && d in g.self
    requires Bad(g.self[d]) || ReachesBad(g, d)
    ensures ReachesBad(g, id)
  {
    if !Bad(g.self[d]) {
      var y :| y in g.self && Reaches(g, d, y) && Bad(g.self[y]);
      ReachTrans(g, id, d, y);
    }
  }

  lemma {:induction false} EachSound(g: Graph, m: Memo, ids: seq<string>)
    requires Closed(g) && (forall i :: 0 <= i < |ids| ==> ids[i] in g.self) && SoundMemo(g, m)
    ensures var (n, hs) := ResolveEach(g, m, ids);
            && SoundMemo(g, n)
            && m.visited <= n.visited
            && (forall i :: 0 <= i < |ids| ==> ids[i] in m.visiting || ids[i] in n.visited)
            && SoundAnswers(g, ids, hs)
    decreases g.self.Keys - m.visiting, |ids|
  {
    if ids != [] {
      var (n, h) := Resolve(g, m, ids[0]);
      ResolveSound(g, m, ids[0]);
      EachSound(g, n, ids[1..]);
    }
  }

  // ---------------------------------------------------------------- exactness, where no two nodes depend on each other

  /** Settled nodes have left the stack, and those out of every knot's reach have the status they should. */
  ghost predicate ExactMemo(g: Graph, m: Memo) {
    && m.visited !! m.visiting
    && forall id :: id in m.visited && id in g.self && NoKnotFrom(g, id) ==> id in m.status && m.status[id] == Meaning(g, id)
  }

  /** Everything on the stack depends on the node being resolved, or is that node. */
  ghost predicate StackReaches(g: Graph, stack: set<string>, id: string) {
    forall v :: v in stack ==> Reaches(g, v, id)
  }

  lemma DependencyUnknotted(g: Graph, id: string, d: string)
    requires NoKnotFrom(g, id) && Reaches(g, id, d)
    ensures NoKnotFrom(g, d)
  {
    forall x, y | x == d || Reaches(g, d, x)
      ensures !Knot(g, x, y)
    {
      if x != d {
        ReachTrans(g, id, d, x);
      }
    }
  }

  /** The answers of a node's dependencies: their meaning, or nothing bad from the node itself. */
  ghost predicate Answers(g: Graph, id: string, hs: seq<Health>)
    requires Closed(g) && id in g.self
  {
    && |hs| == |g.deps[id]|
    && forall i :: 0 <= i < |hs| ==> if g.deps[id][i] == id then !Bad(hs[i]) else hs[i] == Meaning(g, g.deps[id][i])
  }

  lemma BadAnswer(g: Graph, id: string, hs: seq<Health>, i: nat)
    requires Closed(g) && id in g.self && Answers(g, id, hs) && i < |hs| && Bad(hs[i])
    ensures ReachesBad(g, id)
  {
    var d := g.deps[id][i];
    MeaningBad(g, d);
    ReachStep(g, id, d);
    BadBelow(g, id, d);
  }

  /** Something bad that is not the node itself shows in the answer of the dependency it is reached through. */
  lemma BadShows(g: Graph, id: string, hs: seq<Health>, p: seq<string>)
    requires Closed(g) && id in g.self && Answers(g, id, hs)
    requires Path(g, p) && p[0] == id && p[|p| - 1] in g.self && p[|p| - 1] != id && Bad(g.self[p[|p| - 1]])
    ensures exists i :: 0 <= i < |hs| && Bad(hs[i])
    decreases |p|
  {
    var y := p[|p| - 1];
    if p[1] == id {
      assert Path(g, p[1..]);
      BadShows(g, id, hs, p[1..]);
    } else {
      var i :| 0 <= i < |hs| && g.deps[id][i] == p[1];
      if |p| > 2 {
        assert Path(g, p[1..]);
        assert Reaches(g, p[1], y);
        assert ReachesBad(g, p[1]);
      }
      MeaningBad(g, p[1]);
      assert Bad(hs[i]);
    }
  }

  /** Rolling up the meanings of a node's dependencies gives its own meaning. */
  lemma RollupMeaning(g: Graph, id: string, hs: seq<Health>)
    requires Closed(g) && id in g.self && Answers(g, id, hs)
    ensures Rollup(g.self[id], hs) == Meaning(g, id)
  {
    if i :| 0 <= i < |hs| && Bad(hs[i]) {
      BadAnswer(g, id, hs, i);
    }
    if ReachesBad(g, id) && !Bad(g.self[id]) {
      var y :| y in g.self && Reaches(g, id, y) && Bad(g.self[y]);
      var p :| Path(g, p) && p[0] == id && p[|p| - 1] == y;
      BadShows(g, id, hs, p);
    }
  }

  /** What a node out of every knot's reach answers: its meaning, or unknown to itself. */
  ghost predicate Answer(g: Graph, stack: set<string>, id: string, h: Health)
    requires id in g.self
  {
    NoKnotFrom(g, id) ==> h == if id in stack then Unknown else Meaning(g, id)
  }

  lemma {:induction false} ResolveExact(g: Graph, m: Memo, id: string)
    requires Closed(g) && id in g.self && SoundMemo(g, m) && ExactMemo(g, m)
    requires StackReaches(g, m.visiting, id)
    ensures var (n, h) := Resolve(g, m, id);
            ExactMemo(g, n) && Answer(g, m.visiting, id, h)
    decreases g.self.Keys - m.visiting, 0
  {
    if !(id in m.status && id in m.visited) && id !in m.visiting {
      var m1 := m.(visiting := m.visiting + {id});
      var (n, hs) := ResolveEach(g, m1, g.deps[id]);
      OneDeeper(g, m.visiting, id);
      assert ExactMemo(g, m1);
      EachExact(g, m1, g.deps[id]);
      SettledExact(g, n, m.visiting, id, hs);
    }
  }

  /** The stack with the node on it, seen from the node's dependencies. */
  lemma OneDeeper(g: Graph, stack: set<string>, id: string)
    requires Closed(g) && id in g.self && StackReaches(g, stack, id)
    ensures forall i :: 0 <= i < |g.deps[id]| ==> StackReaches(g, stack + {id}, g.deps[id][i])
  {
    forall i, v | 0 <= i < |g.deps[id]| && v in stack + {id}
      ensures Reaches(g, v, g.deps[id][i])
    {
      ReachStep(g, id, g.deps[id][i]);
      if v != id {
        ReachTrans(g, v, id, g.deps[id][i]);
      }
    }
  }

  /** A node is settled with the status it should have. */
  lemma SettledExact(g: Graph, n: Memo, stack: set<string>, id: string, hs: seq<Health>)
    requires Closed(g) && id in g.self && ExactMemo(g, n) && n.visiting == stack + {id} && id !in stack
    requires StackReaches(g, stack, id) && |hs| == |g.deps[id]|
    requires forall i :: 0 <= i < |hs| ==> Answer(g, n.visiting, g.deps[id][i], hs[i])
    ensures var h := Rollup(g.self[id], hs);
            ExactMemo(g, Settle(n, id, h, WhyOf(g.self[id], hs))) && (NoKnotFrom(g, id) ==> h == Meaning(g, id))
  {
    if NoKnotFrom(g, id) {
      forall i | 0 <= i < |hs|
        ensures if g.deps[id][i] == id then !Bad(hs[i]) else hs[i] == Meaning(g, g.deps[id][i])
      {
        var d := g.deps[id][i];
        ReachStep(g, id, d);
        DependencyUnknotted(g, id, d);
        assert d in stack ==> Knot(g, id, d) || d == id;
      }
      RollupMeaning(g, id, hs);
    }
  }

  lemma {:induction false} EachExact(g: Graph, m: Memo, ids: seq<string>)
    requires Closed(g) && (forall i :: 0 <= i < |ids| ==> ids[i] in g.self) && SoundMemo(g, m) && ExactMemo(g, m)
    requires forall i :: 0 <= i < |ids| ==> StackReaches(g, m.visiting, ids[i])
    ensures var (n, hs) := ResolveEach(g, m, ids);
            && ExactMemo(g, n)
            && (forall i :: 0 <= i < |ids| ==> Answer(g, m.visiting, ids[i], hs[i]))
    decreases g.self.Keys - m.visiting, |ids|
  {
    if ids != [] {
      var (n, h) := Resolve(g, m, ids[0]);
      ResolveSound(g, m, ids[0]);
      ResolveExact(g, m, ids[0]);
      EachExact(g, n, ids[1..]);
    }
  }

  // ---------------------------------------------------------------- the map

  function Ids(nodes: seq<NodeInput>): seq<string> {
    seq(|nodes|, i requires 0 <= i < |nodes| => nodes[i].id)
  }

  /** The memo after every node was resolved in turn. */
  function Resolved(nodes: seq<NodeInput>, edges: seq<EdgeInput>, probes: Probes): Memo {
    ResolveEach(GraphOf(nodes, edges, probes), FRESH, Ids(nodes)).0
  }

  /** On every graph: each node is settled, its status has a cause, and no answer is a leftover of the cycle check. */
  lemma EveryStatusSound(nodes: seq<NodeInput>, edges: seq<EdgeInput>, probes: Probes, id: string)
    requires id in GraphOf(nodes, edges, probes).self
    ensures var g, m := GraphOf(nodes, edges, probes), Resolved(nodes, edges, probes);
            && id in m.status && id in m.reason
            && SoundStatus(g, id, m.status[id])
            && SoundReason(g, id, m.status[id], m.reason[id])
  {
    var g := GraphOf(nodes, edges, probes);
    EachSound(g, FRESH, Ids(nodes));
    var i :| 0 <= i < |nodes| && nodes[i].id == id;
    assert Ids(nodes)[i] == id;
  }

  /** Where no two nodes depending on each other are in reach of a node, its status is exactly what it should be. */
  lemma UnknottedStatusExact(nodes: seq<NodeInput>, edges: seq<EdgeInput>, probes: Probes, id: string)
    requires id in GraphOf(nodes, edges, probes).self
    ensures id in Resolved(nodes, edges, probes).status
    ensures NoKnotFrom(GraphOf(nodes, edges, probes), id) ==>
              Resolved(nodes, edges, probes).status[id] == Meaning(GraphOf(nodes, edges, probes), id)
  {
    var g := GraphOf(nodes, edges, probes);
    EachSound(g, FRESH, Ids(nodes));
    EachExact(g, FRESH, Ids(nodes));
    var i :| 0 <= i < |nodes| && nodes[i].id == id;
    assert Ids(nodes)[i] == id;
  }

  // ---------------------------------------------------------------- order does not matter

  predicate DistinctIds(nodes: seq<NodeInput>) {
    forall i, j :: 0 <= i < j < |nodes| ==> nodes[i].id != nodes[j].id
  }

  ghost predicate SameNodes(a: seq<NodeInput>, b: seq<NodeInput>) {
    forall n :: n in a <==> n in b
  }

  ghost predicate SameEdges(a: seq<EdgeInput>, b: seq<EdgeInput>) {
    forall e :: e in a <==> e in b
  }

  lemma {:induction false} SelfOf(nodes: seq<NodeInput>, probes: Probes, i: nat)
    requires DistinctIds(nodes) && i < |nodes|
    ensures nodes[i].id in SelfById(nodes, probes)
    ensures SelfById(nodes, probes)[nodes[i].id] == SelfHealth(nodes[i], probes)
  {
    if i < |nodes| - 1 {
      SelfOf(nodes[..|nodes| - 1], probes, i);
    }
  }

  lemma {:induction false} DepsMember(edges: seq<EdgeInput>, ids: set<string>, id: string, d: string)
    ensures d in DepsOf(edges, ids, id) <==> exists i :: 0 <= i < |edges| && Counted(edges[i], ids) && edges[i].from == id && edges[i].to == d
  {
    if edges != [] {
      var n := |edges| - 1;
      DepsMember(edges[..n], ids, id, d);
      if d in DepsOf(edges[..n], ids, id) {
        var i :| 0 <= i < n && Counted(edges[..n][i], ids) && edges[..n][i].from == id && edges[..n][i].to == d;
        assert edges[i] == edges[..n][i];
      }
      if i :| 0 <= i < |edges| && Counted(edges[i], ids) && edges[i].from == id && edges[i].to == d {
        if i < n {
          assert edges[..n][i] == edges[i];
        }
      }
    }
  }

  /** The same nodes with the same own health, and the same dependencies in whatever order. */
  ghost predicate SameGraph(g: Graph, h: Graph) {
    && g.self == h.self
    && g.deps.Keys == h.deps.Keys
    && forall id, d :: id in g.deps ==> (d in g.deps[id] <==> d in h.deps[id])
  }

  lemma SameSelf(a: seq<NodeInput>, b: seq<NodeInput>, probes: Probes, id: string)
    requires DistinctIds(a) && DistinctIds(b) && SameNodes(a, b)
    requires id in SelfById(a, probes)
    ensures id in SelfById(b, probes) && SelfById(a, probes)[id] == SelfById(b, probes)[id]
  {
    var i :| 0 <= i < |a| && a[i].id == id;
    assert a[i] in a;
    assert a[i] in b;
    var j :| 0 <= j < |b| && b[j] == a[i];
    SelfOf(a, probes, i);
    SelfOf(b, probes, j);
  }

  lemma SameDeps(a: seq<EdgeInput>, b: seq<EdgeInput>, ids: set<string>, id: string, d: string)
    requires SameEdges(a, b) && d in DepsOf(a, ids, id)
    ensures d in DepsOf(b, ids, id)
  {
    DepsMember(a, ids, id, d);
    var i :| 0 <= i < |a| && Counted(a[i], ids) && a[i].from == id && a[i].to == d;
    assert a[i] in a;
    assert a[i] in b;
    var j :| 0 <= j < |b| && b[j] == a[i];
    DepsMember(b, ids, id, d);
  }

  lemma ReorderedSameGraph(ns: seq<NodeInput>, es: seq<EdgeInput>, ns': seq<NodeInput>, es': seq<EdgeInput>, probes: Probes)
    requires DistinctIds(ns) && DistinctIds(ns') && SameNodes(ns, ns') && SameEdges(es, es')
    ensures SameGraph(GraphOf(ns, es, probes), GraphOf(ns', es', probes))
  {
    SameSelves(ns, ns', probes);
    var s := SelfById(ns, probes);
    forall id, d | id in s
      ensures d in DepsOf(es, s.Keys, id) <==> d in DepsOf(es', s.Keys, id)
    {
      if d in DepsOf(es, s.Keys, id) {
        SameDeps(es, es', s.Keys, id, d);
      }
      if d in DepsOf(es', s.Keys, id) {
        SameDeps(es', es, s.Keys, id, d);
      }
    }
  }

  lemma SameSelves(ns: seq<NodeInput>, ns': seq<NodeInput>, probes: Probes)
    requires DistinctIds(ns) && DistinctIds(ns') && SameNodes(ns, ns')
    ensures SelfById(ns, probes) == SelfById(ns', probes)
  {
    var s, s' := SelfById(ns, probes), SelfById(ns', probes);
    forall id
      ensures id in s <==> id in s'
      ensures id in s ==> s[id] == s'[id]
    {
      if id in s {
        SameSelf(ns, ns', probes, id);
      }
      if id in s' {
        SameSelf(ns', ns, probes, id);
      }
    }
    assert s == s';
  }

  lemma SameReach(g: Graph, h: Graph, a: string, b: string)
    requires SameGraph(g, h) && Reaches(g, a, b)
    ensures Reaches(h, a, b)
  {
    var p :| Path(g, p) && p[0] == a && p[|p| - 1] == b;
    assert Path(h, p);
  }

  lemma SameGraphFlip(g: Graph, h: Graph)
    requires SameGraph(g, h)
    ensures SameGraph(h, g)
  {
  }

  lemma SameMeaning(g: Graph, h: Graph, id: string)
    requires SameGraph(g, h) && id in g.self
    ensures Meaning(g, id) == Meaning(h, id)
    ensures NoKnotFrom(g, id) ==> NoKnotFrom(h, id)
  {
    SameGraphFlip(g, h);
    if ReachesBad(g, id) {
      var y :| y in g.self && Reaches(g, id, y) && Bad(g.self[y]);
      SameReach(g, h, id, y);
    }
    if ReachesBad(h, id) {
      var y :| y in h.self && Reaches(h, id, y) && Bad(h.self[y]);
      SameReach(h, g, id, y);
    }
    if NoKnotFrom(g, id) {
      forall x, y | x == id || Reaches(h, id, x)
        ensures !Knot(h, x, y)
      {
        if x != id {
          SameReach(h, g, id, x);
        }
        if Knot(h, x, y) {
          SameReach(h, g, x, y);
          SameReach(h, g, y, x);
          assert Knot(g, x, y);
        }
      }
    }
  }

  /** Listing nodes and edges in another order changes no status out of every knot's reach. */
  lemma OrderDoesNotMatter(ns: seq<NodeInput>, es: seq<EdgeInput>, ns': seq<NodeInput>, es': seq<EdgeInput>, probes: Probes, id: string)
    requires DistinctIds(ns) && DistinctIds(ns') && SameNodes(ns, ns') && SameEdges(es, es')
    ensures id in GraphOf(ns, es, probes).self && NoKnotFrom(GraphOf(ns, es, probes), id) ==>
              && id in Resolved(ns, es, probes).status && id in Resolved(ns', es', probes).status
              && Resolved(ns, es, probes).status[id] == Resolved(ns', es', probes).status[id]
  {
    if id in GraphOf(ns, es, probes).self && NoKnotFrom(GraphOf(ns, es, probes), id) {
      ReorderedSameGraph(ns, es, ns', es', probes);
      SameMeaning(GraphOf(ns, es, probes), GraphOf(ns', es', probes), id);
      UnknottedStatusExact(ns, es, probes, id);
      UnknottedStatusExact(ns', es', probes, id);
    }
  }

  // ---------------------------------------------------------------- in place

  /** The maps and sets the search updates as it goes. */
  class Resolver {
    const graph: Graph
    var status: map<string, Health>
    var reason: map<string, Why>
    var visiting: set<string>
    var visited: set<string>

    ghost function Snapshot(): Memo
      reads this
    {
      Memo(status, reason, visiting, visited)
    }

    constructor (graph: Graph)
      ensures this.graph == graph && Snapshot() == FRESH
    {
      this.graph := graph;
      status, reason, visiting, visited := map[], map[], {}, {};
    }

    method ResolveNode(id: string) returns (h: Health)
      requires Closed(graph) && id in graph.self
      modifies this
      ensures (Snapshot(), h) == Resolve(graph, old(Snapshot()), id)
      decreases graph.self.Keys - visiting
    {
      if id in status && id in visited {
        return status[id];
      }
      if id in visiting {
        status := status[id := Unknown];
        reason := reason[id := Cycle];
        return Unknown;
      }
      visiting := visiting + {id};
      ghost var stack := visiting;
      var ids := graph.deps[id];
      var hs: seq<Health> := [];
      ghost var whole := ResolveEach(graph, Snapshot(), ids);
      for i := 0 to |ids|
        invariant visiting == stack && |hs| == i
        invariant ResolveEach(graph, Snapshot(), ids[i..]).0 == whole.0
        invariant hs + ResolveEach(graph, Snapshot(), ids[i..]).1 == whole.1
      {
        assert ids[i..][0] == ids[i] && ids[i..][1..] == ids[i + 1..];
        var d := ResolveNode(ids[i]);
        assert hs + ([d] + ResolveEach(graph, Snapshot(), ids[i + 1..]).1) == (hs + [d]) + ResolveEach(graph, Snapshot(), ids[i + 1..]).1;
        hs := hs + [d];
      }
      assert hs == whole.1;
      h := Rollup(graph.self[id], hs);
      status := status[id := h];
      reason := reason[id := WhyOf(graph.self[id], hs)];
      visiting := visiting - {id};
      visited := visited + {id};
    }
  }

  datatype NodeStatus = NodeStatus(id: string, status: Health, reason: Why)

  method BuildSelf(nodes: seq<NodeInput>, probes: Probes) returns (self: map<string, Health>)
    ensures self == SelfById(nodes, probes)
  {
    self := map[];
    for i := 0 to |nodes|
      invariant self == SelfById(nodes[..i], probes)
    {
      assert nodes[..i + 1][..i] == nodes[..i];
      self := self[nodes[i].id := SelfHealth(nodes[i], probes)];
    }
    assert nodes[..|nodes|] == nodes;
  }

  lemma DepsGrow(edges: seq<EdgeInput>, i: nat, ids: set<string>, id: string)
    requires i < |edges|
    ensures DepsOf(edges[..i + 1], ids, id)
         == DepsOf(edges[..i], ids, id) + (if Counted(edges[i], ids) && edges[i].from == id then [edges[i].to] else [])
  {
    assert edges[..i + 1][..i] == edges[..i];
  }

  /** Empty lists for every node, then one push per counted edge. */
  method BuildDeps(ids: set<string>, edges: seq<EdgeInput>) returns (deps: map<string, seq<string>>)
    ensures deps.Keys == ids && forall id :: id in ids ==> deps[id] == DepsOf(edges, ids, id)
  {
    deps := map id | id in ids :: [];
    for i := 0 to |edges|
      invariant deps.Keys == ids
      invariant forall id :: id in ids ==> deps[id] == DepsOf(edges[..i], ids, id)
    {
      var e := edges[i];
      forall id | id in ids
        ensures DepsOf(edges[..i + 1], ids, id)
             == DepsOf(edges[..i], ids, id) + (if Counted(e, ids) && e.from == id then [e.to] else [])
      {
        DepsGrow(edges, i, ids, id);
      }
      if e.relType == "depends_on" && e.from in ids && e.to in ids {
        deps := deps[e.from := deps[e.from] + [e.to]];
      }
    }
    assert edges[..|edges|] == edges;
  }

  method BuildGraph(nodes: seq<NodeInput>, edges: seq<EdgeInput>, probes: Probes) returns (g: Graph)
    ensures g == GraphOf(nodes, edges, probes)
  {
    var self := BuildSelf(nodes, probes);
    var deps := BuildDeps(self.Keys, edges);
    g := Graph(self, deps);
  }

  method ResolveNodes(resolver: Resolver, ids: seq<string>)
    requires Closed(resolver.graph) && forall i :: 0 <= i < |ids| ==> ids[i] in resolver.graph.self
    modifies resolver
    ensures resolver.Snapshot() == ResolveEach(resolver.graph, old(resolver.Snapshot()), ids).0
  {
    ghost var whole := ResolveEach(resolver.graph, resolver.Snapshot(), ids).0;
    for i := 0 to |ids|
      invariant ResolveEach(resolver.graph, resolver.Snapshot(), ids[i..]).0 == whole
    {
      assert ids[i..][0] == ids[i] && ids[i..][1..] == ids[i + 1..];
      var h := resolver.ResolveNode(ids[i]);
    }
  }

  method Collect(nodes: seq<NodeInput>, status: map<string, Health>, reason: map<string, Why>) returns (out: seq<NodeStatus>)
    requires forall i :: 0 <= i < |nodes| ==> nodes[i].id in status && nodes[i].id in reason
    ensures |out| == |nodes|
    ensures forall i :: 0 <= i < |nodes| ==> out[i] == NodeStatus(nodes[i].id, status[nodes[i].id], reason[nodes[i].id])
  {
    out := [];
    for i := 0 to |nodes|
      invariant |out| == i
      invariant forall j :: 0 <= j < i ==> out[j] == NodeStatus(nodes[j].id, status[nodes[j].id], reason[nodes[j].id])
    {
      out := out + [NodeStatus(nodes[i].id, status[nodes[i].id], reason[nodes[i].id])];
    }
  }

  lemma EveryNodeResolved(nodes: seq<NodeInput>, edges: seq<EdgeInput>, probes: Probes)
    ensures var m := Resolved(nodes, edges, probes);
            forall i :: 0 <= i < |nodes| ==> nodes[i].id in m.status && nodes[i].id in m.reason
  {
    forall i | 0 <= i < |nodes|
      ensures nodes[i].id in Resolved(nodes, edges, probes).status && nodes[i].id in Resolved(nodes, edges, probes).reason
    {
      EveryStatusSound(nodes, edges, probes, nodes[i].id);
    }
  }

  predicate Reports(out: seq<NodeStatus>, nodes: seq<NodeInput>, m: Memo) {
    && |out| == |nodes|
    && forall i :: 0 <= i < |nodes| ==>
      && nodes[i].id in m.status && nodes[i].id in m.reason
      && out[i] == NodeStatus(nodes[i].id, m.status[nodes[i].id], m.reason[nodes[i].id])
  }

  /** `buildHealthDependencyMap`: one status per node, in node order. */
  method BuildHealthDependencyMap(nodes: seq<NodeInput>, edges: seq<EdgeInput>, probes: Probes) returns (out: seq<NodeStatus>)
    ensures Reports(out, nodes, Resolved(nodes, edges, probes))
  {
    var g := BuildGraph(nodes, edges, probes);
    var resolver := new Resolver(g);
    ResolveNodes(resolver, Ids(nodes));
    EveryNodeResolved(nodes, edges, probes);
    out := Collect(nodes, resolver.status, resolver.reason);
  }
}
