/** What the health map says, told from its nodes, edges and probes alone. */
module HealthInputs {
  import opened Options
  import opened HealthMap

  // ---------------------------------------------------------------- nodes and edges

  predicate Listed(nodes: seq<NodeInput>, id: string) {
    exists i :: 0 <= i < |nodes| && nodes[i].id == id
  }

  /** Some edge between two listed nodes says that one depends on the other; edges of other types say nothing. */
  predicate DependsOn(nodes: seq<NodeInput>, edges: seq<EdgeInput>, a: string, b: string) {
    Listed(nodes, a) && Listed(nodes, b) && exists i :: 0 <= i < |edges| && edges[i] == EdgeInput(a, b, "depends_on")
  }

  /** A chain of dependencies. */
  predicate Chain(nodes: seq<NodeInput>, edges: seq<EdgeInput>, p: seq<string>) {
    |p| >= 2 && forall i :: 0 <= i < |p| - 1 ==> DependsOn(nodes, edges, p[i], p[i + 1])
  }

  /** One node needs the other, directly or through others. */
  ghost predicate Needs(nodes: seq<NodeInput>, edges: seq<EdgeInput>, a: string, b: string) {
    exists p :: Chain(nodes, edges, p) && p[0] == a && p[|p| - 1] == b
  }

  /** Two different nodes need each other. */
  ghost predicate Entangled(nodes: seq<NodeInput>, edges: seq<EdgeInput>, a: string, b: string) {
    a != b && Needs(nodes, edges, a, b) && Needs(nodes, edges, b, a)
  }

  /** Neither the node nor anything it needs is entangled with another node. */
  ghost predicate Untangled(nodes: seq<NodeInput>, edges: seq<EdgeInput>, id: string) {
    forall x, y :: (x == id || Needs(nodes, edges, id, x)) ==> !Entangled(nodes, edges, x, y)
  }

  /** The node listed under an identifier: the last one, should there be several. */
  predicate NodeOf(nodes: seq<NodeInput>, id: string, node: NodeInput) {
    exists i :: 0 <= i < |nodes| && LastAt(nodes, i, id) && nodes[i] == node
  }

  predicate LastAt(nodes: seq<NodeInput>, i: nat, id: string)
    requires i < |nodes|
  {
    nodes[i].id == id && forall j :: i < j < |nodes| ==> nodes[j].id != id
  }

  // ---------------------------------------------------------------- own health

  predicate LetterAt(name: string, k: nat, lower: char, upper: char) {
    k < |name| && (name[k] == lower || name[k] == upper)
  }

  /** The name has `api` in it, in whatever case. */
  predicate HasApi(name: string) {
    exists k :: 0 <= k < |name| && LetterAt(name, k, 'a', 'A') && LetterAt(name, k + 1, 'p', 'P') && LetterAt(name, k + 2, 'i', 'I')
  }

  predicate HasWeb(name: string) {
    exists k :: 0 <= k < |name| && LetterAt(name, k, 'w', 'W') && LetterAt(name, k + 1, 'e', 'E') && LetterAt(name, k + 2, 'b', 'B')
  }

  function Reading(probes: Probes, probe: Probe): Health {
    if probe in probes then probes[probe] else Unknown
  }

  /** A database has the database probe, an application the probe its name tells, and anything else none. */
  function Own(node: NodeInput, probes: Probes): Health {
    if node.ciClass == "database" then Reading(probes, Oltp)
    else if node.ciClass == "application" && HasApi(node.name) then Reading(probes, Api)
    else if node.ciClass == "application" && HasWeb(node.name) then Reading(probes, Web)
    else Unknown
  }

  lemma {:induction false} ContainsSplit(s: string, part: string)
    ensures Contains(s, part) <==> exists k :: 0 <= k <= |s| && part <= s[k..]
  {
    if part <= s {
      assert s[0..] == s;
    } else if s != "" {
      ContainsSplit(s[1..], part);
      if k :| 0 <= k <= |s[1..]| && part <= s[1..][k..] {
        assert s[k + 1..] == s[1..][k..];
      }
      if k :| 0 <= k <= |s| && part <= s[k..] {
        assert k > 0 by {
          assert s[0..] == s;
        }
        assert s[1..][k - 1..] == s[k..];
      }
    }
  }

  /** Three characters of a text, whatever their case. */
  predicate ThreeAt(name: string, k: nat, part: string)
    requires |part| == 3
  {
    k + 3 <= |name| && Lower(name[k]) == part[0] && Lower(name[k + 1]) == part[1] && Lower(name[k + 2]) == part[2]
  }

  lemma ThreeContained(name: string, part: string)
    requires |part| == 3
    ensures Contains(LowerAll(name), part) <==> exists k :: 0 <= k < |name| && ThreeAt(name, k, part)
  {
    var lower := LowerAll(name);
    ContainsSplit(lower, part);
    forall k | 0 <= k <= |lower|
      ensures part <= lower[k..] <==> ThreeAt(name, k, part)
    {
      if ThreeAt(name, k, part) {
        assert lower[k..][0] == part[0] && lower[k..][1] == part[1] && lower[k..][2] == part[2];
        assert lower[k..][..3] == part;
      }
      if part <= lower[k..] {
        assert lower[k..][0] == part[0] && lower[k..][1] == part[1] && lower[k..][2] == part[2];
      }
    }
  }

  lemma LowerIs(c: char, lower: char, upper: char)
    requires 'a' <= lower <= 'z' && upper as int == lower as int - 32
    ensures Lower(c) == lower <==> c == lower || c == upper
  {
  }

  lemma ApiContained(name: string)
    ensures Contains(LowerAll(name), "api") <==> HasApi(name)
  {
    ThreeContained(name, "api");
    forall k | 0 <= k < |name|
      ensures ThreeAt(name, k, "api") <==> LetterAt(name, k, 'a', 'A') && LetterAt(name, k + 1, 'p', 'P') && LetterAt(name, k + 2, 'i', 'I')
    {
      if k + 3 <= |name| {
        LowerIs(name[k], 'a', 'A');
        LowerIs(name[k + 1], 'p', 'P');
        LowerIs(name[k + 2], 'i', 'I');
      }
    }
  }

  lemma WebContained(name: string)
    ensures Contains(LowerAll(name), "web") <==> HasWeb(name)
  {
    ThreeContained(name, "web");
    forall k | 0 <= k < |name|
      ensures ThreeAt(name, k, "web") <==> LetterAt(name, k, 'w', 'W') && LetterAt(name, k + 1, 'e', 'E') && LetterAt(name, k + 2, 'b', 'B')
    {
      if k + 3 <= |name| {
        LowerIs(name[k], 'w', 'W');
        LowerIs(name[k + 1], 'e', 'E');
        LowerIs(name[k + 2], 'b', 'B');
      }
    }
  }

  /** A node's own health is what its class, its name and the probes tell. */
  lemma OwnIsSelf(node: NodeInput, probes: Probes)
    ensures SelfHealth(node, probes) == Own(node, probes)
  {
    ApiContained(node.name);
    WebContained(node.name);
  }

  lemma SelfOfLast(nodes: seq<NodeInput>, probes: Probes, id: string, node: NodeInput)
    requires NodeOf(nodes, id, node)
    ensures id in SelfById(nodes, probes) && SelfById(nodes, probes)[id] == SelfHealth(node, probes)
  {
    var i :| 0 <= i < |nodes| && LastAt(nodes, i, id) && nodes[i] == node;
    SelfOfLastAt(nodes, probes, id, i);
  }

  lemma {:induction false} SelfOfLastAt(nodes: seq<NodeInput>, probes: Probes, id: string, i: nat)
    requires i < |nodes| && LastAt(nodes, i, id)
    ensures id in SelfById(nodes, probes) && SelfById(nodes, probes)[id] == SelfHealth(nodes[i], probes)
  {
    if i < |nodes| - 1 {
      SelfOfLastAt(nodes[..|nodes| - 1], probes, id, i);
    }
  }

  lemma {:induction false} LastListed(nodes: seq<NodeInput>, id: string) returns (i: nat)
    requires Listed(nodes, id)
    ensures i < |nodes| && LastAt(nodes, i, id)
  {
    var n := |nodes| - 1;
    if nodes[n].id == id {
      i := n;
    } else {
      var j :| 0 <= j < |nodes| && nodes[j].id == id;
      assert nodes[..n][j].id == id;
      i := LastListed(nodes[..n], id);
      assert forall k :: i < k < n ==> nodes[k] == nodes[..n][k];
    }
  }

  lemma ListedIsSelf(nodes: seq<NodeInput>, probes: Probes, id: string)
    ensures Listed(nodes, id) <==> id in SelfById(nodes, probes)
  {
  }

  // ---------------------------------------------------------------- dependencies

  lemma DependsIsDeps(nodes: seq<NodeInput>, edges: seq<EdgeInput>, probes: Probes, a: string, b: string)
    ensures var g := GraphOf(nodes, edges, probes);
      DependsOn(nodes, edges, a, b) <==> a in g.deps && b in g.deps[a]
  {
    ListedIsSelf(nodes, probes, a);
    ListedIsSelf(nodes, probes, b);
    var ids := SelfById(nodes, probes).Keys;
    DepsMember(edges, ids, a, b);
    if DependsOn(nodes, edges, a, b) {
      var i :| 0 <= i < |edges| && edges[i] == EdgeInput(a, b, "depends_on");
      assert Counted(edges[i], ids) && edges[i].from == a && edges[i].to == b;
    }
    if a in ids && b in DepsOf(edges, ids, a) {
      var i :| 0 <= i < |edges| && Counted(edges[i], ids) && edges[i].from == a && edges[i].to == b;
      assert edges[i] == EdgeInput(a, b, "depends_on");
    }
  }

  lemma ChainIsPath(nodes: seq<NodeInput>, edges: seq<EdgeInput>, probes: Probes, p: seq<string>)
    ensures Chain(nodes, edges, p) <==> Path(GraphOf(nodes, edges, probes), p)
  {
    var g := GraphOf(nodes, edges, probes);
    if Chain(nodes, edges, p) {
      forall i | 0 <= i < |p| - 1
        ensures p[i] in g.deps && p[i + 1] in g.deps[p[i]]
      {
        DependsIsDeps(nodes, edges, probes, p[i], p[i + 1]);
      }
      assert Path(g, p);
    }
    if Path(g, p) {
      forall i | 0 <= i < |p| - 1
        ensures DependsOn(nodes, edges, p[i], p[i + 1])
      {
        DependsIsDeps(nodes, edges, probes, p[i], p[i + 1]);
      }
    }
  }

  lemma NeedsIsReaches(nodes: seq<NodeInput>, edges: seq<EdgeInput>, probes: Probes, a: string, b: string)
    ensures Needs(nodes, edges, a, b) <==> Reaches(GraphOf(nodes, edges, probes), a, b)
  {
    forall p
      ensures Chain(nodes, edges, p) <==> Path(GraphOf(nodes, edges, probes), p)
    {
      ChainIsPath(nodes, edges, probes, p);
    }
  }

  lemma UntangledIsUnknotted(nodes: seq<NodeInput>, edges: seq<EdgeInput>, probes: Probes, id: string)
    requires Untangled(nodes, edges, id)
    ensures NoKnotFrom(GraphOf(nodes, edges, probes), id)
  {
    forall x, y
      ensures Needs(nodes, edges, x, y) <==> Reaches(GraphOf(nodes, edges, probes), x, y)
    {
      NeedsIsReaches(nodes, edges, probes, x, y);
    }
    forall x, y | x == id || Reaches(GraphOf(nodes, edges, probes), id, x)
      ensures !Knot(GraphOf(nodes, edges, probes), x, y)
    {
      assert !Entangled(nodes, edges, x, y);
    }
  }

  /** Something the node needs is degraded or unavailable of itself. */
  ghost predicate NeedsBad(nodes: seq<NodeInput>, edges: seq<EdgeInput>, probes: Probes, id: string) {
    exists other, node :: NodeOf(nodes, other, node) && Needs(nodes, edges, id, other) && BadOwn(node, probes)
  }

  predicate BadOwn(node: NodeInput, probes: Probes) {
    Own(node, probes) == Degraded || Own(node, probes) == Unavailable
  }

  lemma NeedsBadIsReachesBad(nodes: seq<NodeInput>, edges: seq<EdgeInput>, probes: Probes, id: string)
    ensures NeedsBad(nodes, edges, probes, id) <==> ReachesBad(GraphOf(nodes, edges, probes), id)
  {
    var g := GraphOf(nodes, edges, probes);
    if NeedsBad(nodes, edges, probes, id) {
      var other, node :| NodeOf(nodes, other, node) && Needs(nodes, edges, id, other) && BadOwn(node, probes);
      SelfOfLast(nodes, probes, other, node);
      OwnIsSelf(node, probes);
      NeedsIsReaches(nodes, edges, probes, id, other);
    }
    if ReachesBad(g, id) {
      var y :| y in g.self && Reaches(g, id, y) && Bad(g.self[y]);
      ListedIsSelf(nodes, probes, y);
      var i := LastListed(nodes, y);
      SelfOfLastAt(nodes, probes, y, i);
      OwnIsSelf(nodes[i], probes);
      assert NodeOf(nodes, y, nodes[i]) && BadOwn(nodes[i], probes);
      NeedsIsReaches(nodes, edges, probes, id, y);
    }
  }

  // ---------------------------------------------------------------- the statuses

  /** What the status of a node should be. */
  ghost function Should(nodes: seq<NodeInput>, edges: seq<EdgeInput>, probes: Probes, node: NodeInput): Health {
    if Own(node, probes) == Unavailable then Unavailable
    else if NeedsBad(nodes, edges, probes, node.id) then Degraded
    else Own(node, probes)
  }

  /**
   * Where nothing is entangled a listed node is unavailable of itself, degraded of itself or of something it needs through
   * `depends_on` edges, and otherwise as its own probe says.
   */
  lemma StatusFromInputs(nodes: seq<NodeInput>, edges: seq<EdgeInput>, probes: Probes, out: seq<NodeStatus>, i: nat, node: NodeInput)
    requires Reports(out, nodes, Resolved(nodes, edges, probes)) && i < |nodes| && NodeOf(nodes, nodes[i].id, node)
    requires Untangled(nodes, edges, nodes[i].id)
    ensures out[i].id == nodes[i].id && out[i].status == Should(nodes, edges, probes, node)
  {
    var id := nodes[i].id;
    SelfOfLast(nodes, probes, id, node);
    OwnIsSelf(node, probes);
    NeedsBadIsReachesBad(nodes, edges, probes, id);
    UntangledIsUnknotted(nodes, edges, probes, id);
    UnknottedStatusExact(nodes, edges, probes, id);
  }

  /** On every graph: unavailable exactly of itself, degraded only for a cause, else as its own probe says, with that reason. */
  lemma CauseFromInputs(nodes: seq<NodeInput>, edges: seq<EdgeInput>, probes: Probes, out: seq<NodeStatus>, i: nat, node: NodeInput)
    requires Reports(out, nodes, Resolved(nodes, edges, probes)) && i < |nodes| && NodeOf(nodes, nodes[i].id, node)
    ensures var (status, reason, own) := (out[i].status, out[i].reason, Own(node, probes));
      && (status == Unavailable <==> own == Unavailable)
      && (status == Degraded ==> own == Degraded || NeedsBad(nodes, edges, probes, node.id))
      && (status != Degraded ==> status == own)
      && (reason == SelfUnavailable <==> own == Unavailable)
      && (reason == Dependency ==> NeedsBad(nodes, edges, probes, node.id))
      && (status == Degraded && own != Degraded ==> reason == Dependency)
      && reason != Cycle
  {
    var id := nodes[i].id;
    SelfOfLast(nodes, probes, id, node);
    OwnIsSelf(node, probes);
    NeedsBadIsReachesBad(nodes, edges, probes, id);
    EveryStatusSound(nodes, edges, probes, id);
  }
}
