/** Queries over the network's edge list (api/network.py), the ranking that
    stands for acyclicity, downstream reachability, and the visit sequence of
    the downstream walker (implementation/walker_downstream.py) as a pure
    definition. */
module Graph {
  import opened Names
  import opened Outcomes
  import opened Entities
  import opened Nodes

  /** The nodes at the far end of each edge leaving `src`, one entry per edge,
      in edge order. */
  function FedNodes(edges: seq<Edge>, src: Source): (r: seq<Name>)
    ensures forall x :: x in r <==> exists e | e in edges :: e.source == src && e.dest.node == x
  {
    if edges == [] then []
    else
      assert forall e | e in edges :: e == edges[0] || e in edges[1..];
      (if edges[0].source == src then [edges[0].dest.node] else []) + FedNodes(edges[1..], src)
  }

  /** Appending an edge adds exactly that edge's node, when it leaves `src`. */
  lemma {:induction false} FedNodesAppend(edges: seq<Edge>, e: Edge, src: Source)
    ensures FedNodes(edges + [e], src) == FedNodes(edges, src) + (if e.source == src then [e.dest.node] else [])
  {
    if edges != [] {
      assert (edges + [e])[1..] == edges[1..] + [e];
      FedNodesAppend(edges[1..], e, src);
    }
  }

  /** `nodes_fed_by_terminal` and `nodes_fed_by_output_port`: the fed nodes
      sorted by name; a node fed twice appears twice. */
  function NodesFedBy(edges: seq<Edge>, src: Source): (r: seq<Name>)
    ensures Sorted(r)
    ensures multiset(r) == multiset(FedNodes(edges, src))
    ensures forall x :: x in r <==> exists e | e in edges :: e.source == src && e.dest.node == x
  {
    var r := SortNames(FedNodes(edges, src));
    assert forall x :: x in r <==> x in multiset(r);
    assert forall x :: x in FedNodes(edges, src) <==> x in multiset(FedNodes(edges, src));
    r
  }

  /** The earliest edge into input port `d`, as `edge_for_input` finds it. */
  function FirstEdgeInto(edges: seq<Edge>, d: PortRef): (r: Option<Edge>)
    ensures r.None? <==> forall e | e in edges :: e.dest != d
    ensures r.Some? ==> r.value.dest == d && r.value in edges
    ensures r.Some? ==> exists i | 0 <= i < |edges| :: edges[i] == r.value && forall j | 0 <= j < i :: edges[j].dest != d
  {
    if edges == [] then None
    else if edges[0].dest == d then Some(edges[0])
    else
      var r := FirstEdgeInto(edges[1..], d);
      assert forall e | e in edges :: e == edges[0] || e in edges[1..];
      if r.Some? then
        var i :| 0 <= i < |edges[1..]| && edges[1..][i] == r.value && forall j | 0 <= j < i :: edges[1..][j].dest != d;
        assert edges[i + 1] == r.value && forall j | 0 <= j < i + 1 :: edges[j].dest != d;
        r
      else r
  }

  /** Appending an edge never changes an existing first feeder; into a port
      with no feeder, the new edge becomes the first. */
  lemma {:induction false} FirstEdgeIntoAppend(edges: seq<Edge>, e: Edge, d: PortRef)
    ensures FirstEdgeInto(edges + [e], d) ==
      if FirstEdgeInto(edges, d).Some? then FirstEdgeInto(edges, d)
      else if e.dest == d then Some(e) else None
  {
    if edges != [] {
      assert (edges + [e])[1..] == edges[1..] + [e];
      FirstEdgeIntoAppend(edges[1..], e, d);
    }
  }

  /** Every edge joins entities that exist: a known terminal or a declared
      output port, into a declared input port. Construction only creates
      such edges. */
  predicate EdgesWf(nodes: map<Name, Node>, terminals: set<Name>, edges: seq<Edge>)
  {
    forall e | e in edges ::
      && e.dest.node in nodes && e.dest.port in nodes[e.dest.node].inputPorts
      && (e.source.TerminalSrc? ==> e.source.terminal in terminals)
      && (e.source.OutputSrc? ==> e.source.node in nodes && e.source.port in nodes[e.source.node].outputPorts)
  }

  /** Node `a` feeds node `b` along some edge from one of `a`'s output ports. */
  predicate Feeds(edges: seq<Edge>, a: Name, b: Name)
  {
    exists e | e in edges :: e.source.OutputSrc? && e.source.node == a && e.dest.node == b
  }

  /** A rank per node that strictly increases along every output-to-input
      edge and is bounded by `top`; one exists exactly when the graph has no
      cycle, and both the upstream and the downstream recursion decrease it. */
  datatype Ranking = Ranking(rank: map<Name, nat>, top: nat)

  predicate Ranked(edges: seq<Edge>, rk: Ranking)
  {
    forall e | e in edges && e.source.OutputSrc? ::
      && e.source.node in rk.rank && e.dest.node in rk.rank
      && rk.rank[e.source.node] < rk.rank[e.dest.node] <= rk.top
  }

  ghost predicate Acyclic(edges: seq<Edge>)
  {
    exists rk :: Ranked(edges, rk)
  }

  /** One ranking of an acyclic edge list, chosen once for all. */
  ghost function RankingOf(edges: seq<Edge>): (rk: Ranking)
    requires Acyclic(edges)
    ensures Ranked(edges, rk)
  {
    var rk :| Ranked(edges, rk); rk
  }

  /** The upstream measure. */
  function Up(rk: Ranking, n: Name): nat
  {
    if n in rk.rank then rk.rank[n] else 0
  }

  /** The downstream measure. */
  function Down(rk: Ranking, n: Name): nat
  {
    if n in rk.rank && rk.rank[n] <= rk.top then rk.top - rk.rank[n] else 0
  }

  lemma FeedsRank(edges: seq<Edge>, rk: Ranking, a: Name, b: Name)
    requires Ranked(edges, rk) && Feeds(edges, a, b)
    ensures Up(rk, a) < Up(rk, b) && Down(rk, b) < Down(rk, a)
  {
  }

  /** The output port names of each node: the only part of the nodes the
      walker looks at. */
  function Outs(nodes: map<Name, Node>): map<Name, set<Name>>
  {
    map n | n in nodes :: nodes[n].outputPorts.Keys
  }

  function OutsOf(outs: map<Name, set<Name>>, n: Name): set<Name>
  {
    if n in outs then outs[n] else {}
  }

  /** `walk_from_node`: the node itself, then, for each of its output ports
      in name order, the walks from the nodes that port feeds in name order.
      Nothing is de-duplicated: a node appears once per path. */
  ghost function Walk(outs: map<Name, set<Name>>, edges: seq<Edge>, rk: Ranking, n: Name): seq<Name>
    requires Ranked(edges, rk)
    decreases Down(rk, n), 2, 0
  {
    [n] + WalkPorts(outs, edges, rk, n, SortedKeys(OutsOf(outs, n)))
  }

  /** The walks below `n` through the ports `ps`, in order. */
  ghost function WalkPorts(outs: map<Name, set<Name>>, edges: seq<Edge>, rk: Ranking, n: Name, ps: seq<Name>): seq<Name>
    requires Ranked(edges, rk)
    decreases Down(rk, n), 1, |ps|
  {
    if ps == [] then []
    else WalkFed(outs, edges, rk, n, NodesFedBy(edges, OutputSrc(n, ps[0]))) + WalkPorts(outs, edges, rk, n, ps[1..])
  }

  /** The walks from the nodes `ms`, all fed by `n`, in order. */
  ghost function WalkFed(outs: map<Name, set<Name>>, edges: seq<Edge>, rk: Ranking, n: Name, ms: seq<Name>): seq<Name>
    requires Ranked(edges, rk)
    requires forall m | m in ms :: Feeds(edges, n, m)
    decreases Down(rk, n), 0, |ms|
  {
    if ms == [] then []
    else
      FeedsRank(edges, rk, n, ms[0]);
      Walk(outs, edges, rk, ms[0]) + WalkFed(outs, edges, rk, n, ms[1..])
  }

  /** `walk_from_terminal`: the walks from the nodes the terminal feeds, in
      name order; the terminal itself is not visited. */
  ghost function TerminalWalk(outs: map<Name, set<Name>>, edges: seq<Edge>, rk: Ranking, t: Name): seq<Name>
    requires Ranked(edges, rk)
  {
    WalkList(outs, edges, rk, NodesFedBy(edges, TerminalSrc(t)))
  }

  /** The walks from each node of `ms`, in order. */
  ghost function WalkList(outs: map<Name, set<Name>>, edges: seq<Edge>, rk: Ranking, ms: seq<Name>): seq<Name>
    requires Ranked(edges, rk)
  {
    if ms == [] then [] else Walk(outs, edges, rk, ms[0]) + WalkList(outs, edges, rk, ms[1..])
  }

  /** `b` is downstream of `a`: a chain of edges leads from `a` to `b`
      (`a` counts as downstream of itself). */
  ghost predicate Path(edges: seq<Edge>, p: seq<Name>)
  {
    |p| >= 1 && forall i | 0 <= i < |p| - 1 :: Feeds(edges, p[i], p[i + 1])
  }

  ghost predicate Reachable(edges: seq<Edge>, a: Name, b: Name)
  {
    exists p :: Path(edges, p) && p[0] == a && p[|p| - 1] == b
  }

  /** A node is reachable from terminal `t` when some node `t` feeds reaches it. */
  ghost predicate ReachableFromTerminal(edges: seq<Edge>, t: Name, b: Name)
  {
    exists e | e in edges :: e.source == TerminalSrc(t) && Reachable(edges, e.dest.node, b)
  }

  lemma PathStep(edges: seq<Edge>, a: Name, p: seq<Name>)
    requires Path(edges, p) && Feeds(edges, a, p[0])
    ensures Path(edges, [a] + p)
  {
    var q := [a] + p;
    forall i | 0 <= i < |q| - 1 ensures Feeds(edges, q[i], q[i + 1]) {
      if i > 0 { assert q[i] == p[i - 1] && q[i + 1] == p[i]; }
    }
  }

  /** Whatever a node reachable from `t` feeds is reachable from `t` too. */
  lemma ReachableExtend(edges: seq<Edge>, t: Name, f: Name, m: Name)
    requires ReachableFromTerminal(edges, t, f) && Feeds(edges, f, m)
    ensures ReachableFromTerminal(edges, t, m)
  {
    var e :| e in edges && e.source == TerminalSrc(t) && Reachable(edges, e.dest.node, f);
    var p :| Path(edges, p) && p[0] == e.dest.node && p[|p| - 1] == f;
    var p' := p + [m];
    forall i | 0 <= i < |p'| - 1 ensures Feeds(edges, p'[i], p'[i + 1]) {
      if i < |p| - 1 { assert p'[i] == p[i] && p'[i + 1] == p[i + 1]; }
    }
    assert Path(edges, p');
  }

  /** Everything the walk from `n` visits is reachable from `n`. */
  lemma {:induction false} WalkSound(outs: map<Name, set<Name>>, edges: seq<Edge>, rk: Ranking, n: Name, x: Name)
    requires Ranked(edges, rk)
    requires x in Walk(outs, edges, rk, n)
    ensures Reachable(edges, n, x)
    decreases Down(rk, n), 2, 0
  {
    if x == n {
      assert Path(edges, [n]);
    } else {
      WalkPortsSound(outs, edges, rk, n, SortedKeys(OutsOf(outs, n)), x);
    }
  }

  lemma {:induction false} WalkPortsSound(outs: map<Name, set<Name>>, edges: seq<Edge>, rk: Ranking, n: Name, ps: seq<Name>, x: Name)
    requires Ranked(edges, rk)
    requires x in WalkPorts(outs, edges, rk, n, ps)
    ensures Reachable(edges, n, x)
    decreases Down(rk, n), 1, |ps|
  {
    var ms := NodesFedBy(edges, OutputSrc(n, ps[0]));
    if x in WalkFed(outs, edges, rk, n, ms) {
      WalkFedSound(outs, edges, rk, n, ms, x);
    } else {
      WalkPortsSound(outs, edges, rk, n, ps[1..], x);
    }
  }

  lemma {:induction false} WalkFedSound(outs: map<Name, set<Name>>, edges: seq<Edge>, rk: Ranking, n: Name, ms: seq<Name>, x: Name)
    requires Ranked(edges, rk)
    requires forall m | m in ms :: Feeds(edges, n, m)
    requires x in WalkFed(outs, edges, rk, n, ms)
    ensures Reachable(edges, n, x)
    decreases Down(rk, n), 0, |ms|
  {
    FeedsRank(edges, rk, n, ms[0]);
    assert WalkFed(outs, edges, rk, n, ms) == Walk(outs, edges, rk, ms[0]) + WalkFed(outs, edges, rk, n, ms[1..]);
    if x in Walk(outs, edges, rk, ms[0]) {
      WalkSound(outs, edges, rk, ms[0], x);
      ReachableStep(edges, n, ms[0], x);
    } else {
      WalkFedSound(outs, edges, rk, n, ms[1..], x);
    }
  }

  /** Whatever a node that `a` feeds reaches, `a` reaches. */
  lemma ReachableStep(edges: seq<Edge>, a: Name, m: Name, x: Name)
    requires Feeds(edges, a, m) && Reachable(edges, m, x)
    ensures Reachable(edges, a, x)
  {
    var p :| Path(edges, p) && p[0] == m && p[|p| - 1] == x;
    PathStep(edges, a, p);
    assert ([a] + p)[|[a] + p| - 1] == x;
  }

  /** Every output port that an edge leaves is declared on its node. */
  predicate SourcesDeclared(outs: map<Name, set<Name>>, edges: seq<Edge>)
  {
    forall e | e in edges && e.source.OutputSrc? :: e.source.port in OutsOf(outs, e.source.node)
  }

  lemma {:induction false} WalkFedIncludes(outs: map<Name, set<Name>>, edges: seq<Edge>, rk: Ranking, n: Name, ms: seq<Name>, i: nat, x: Name)
    requires Ranked(edges, rk)
    requires forall m | m in ms :: Feeds(edges, n, m)
    requires i < |ms| && x in Walk(outs, edges, rk, ms[i])
    ensures x in WalkFed(outs, edges, rk, n, ms)
  {
    if i > 0 {
      WalkFedIncludes(outs, edges, rk, n, ms[1..], i - 1, x);
    }
  }

  lemma {:induction false} WalkPortsIncludes(outs: map<Name, set<Name>>, edges: seq<Edge>, rk: Ranking, n: Name, ps: seq<Name>, i: nat, x: Name)
    requires Ranked(edges, rk)
    requires i < |ps| && x in WalkFed(outs, edges, rk, n, NodesFedBy(edges, OutputSrc(n, ps[i])))
    ensures x in WalkPorts(outs, edges, rk, n, ps)
  {
    if i > 0 {
      WalkPortsIncludes(outs, edges, rk, n, ps[1..], i - 1, x);
    }
  }

  /** A walk passes through the walk of every node it feeds. */
  lemma FeedsWalk(outs: map<Name, set<Name>>, edges: seq<Edge>, rk: Ranking, n: Name, m: Name, x: Name)
    requires Ranked(edges, rk) && SourcesDeclared(outs, edges)
    requires Feeds(edges, n, m) && x in Walk(outs, edges, rk, m)
    ensures x in Walk(outs, edges, rk, n)
  {
    var e :| e in edges && e.source.OutputSrc? && e.source.node == n && e.dest.node == m;
    var ps := SortedKeys(OutsOf(outs, n));
    assert e.source.port in ps;
    var i :| 0 <= i < |ps| && ps[i] == e.source.port;
    var ms := NodesFedBy(edges, OutputSrc(n, ps[i]));
    assert m in ms;
    var j :| 0 <= j < |ms| && ms[j] == m;
    WalkFedIncludes(outs, edges, rk, n, ms, j, x);
    WalkPortsIncludes(outs, edges, rk, n, ps, i, x);
  }

  lemma PathTail(edges: seq<Edge>, p: seq<Name>)
    requires Path(edges, p) && |p| > 1
    ensures Path(edges, p[1..])
  {
    var q := p[1..];
    forall i | 0 <= i < |q| - 1 ensures Feeds(edges, q[i], q[i + 1]) {
      assert q[i] == p[i + 1] && q[i + 1] == p[i + 2];
    }
  }

  /** Everything reachable from `n` is visited by the walk from `n`. */
  lemma {:induction false} WalkComplete(outs: map<Name, set<Name>>, edges: seq<Edge>, rk: Ranking, p: seq<Name>)
    requires Ranked(edges, rk) && SourcesDeclared(outs, edges)
    requires Path(edges, p)
    ensures p[|p| - 1] in Walk(outs, edges, rk, p[0])
    decreases |p|
  {
    if |p| > 1 {
      PathTail(edges, p);
      WalkComplete(outs, edges, rk, p[1..]);
      assert Feeds(edges, p[0], p[1]);
      FeedsWalk(outs, edges, rk, p[0], p[1], p[|p| - 1]);
    }
  }

  /** The nodes the walk from `n` visits are exactly those reachable from `n`. */
  lemma WalkVisitsReachable(outs: map<Name, set<Name>>, edges: seq<Edge>, rk: Ranking, n: Name, x: Name)
    requires Ranked(edges, rk) && SourcesDeclared(outs, edges)
    ensures x in Walk(outs, edges, rk, n) <==> Reachable(edges, n, x)
  {
    if x in Walk(outs, edges, rk, n) {
      WalkSound(outs, edges, rk, n, x);
    }
    if Reachable(edges, n, x) {
      var p :| Path(edges, p) && p[0] == n && p[|p| - 1] == x;
      WalkComplete(outs, edges, rk, p);
    }
  }

  lemma {:induction false} WalkListMember(outs: map<Name, set<Name>>, edges: seq<Edge>, rk: Ranking, ms: seq<Name>, x: Name)
    requires Ranked(edges, rk)
    ensures x in WalkList(outs, edges, rk, ms) <==> exists m | m in ms :: x in Walk(outs, edges, rk, m)
  {
    if ms != [] {
      WalkListMember(outs, edges, rk, ms[1..], x);
      if x in WalkList(outs, edges, rk, ms) && x !in Walk(outs, edges, rk, ms[0]) {
        var m :| m in ms[1..] && x in Walk(outs, edges, rk, m);
        assert m in ms;
      }
      if exists m | m in ms :: x in Walk(outs, edges, rk, m) {
        var m :| m in ms && x in Walk(outs, edges, rk, m);
        if m != ms[0] {
          assert m in ms[1..];
        }
      }
    }
  }

  /** The nodes the walk from terminal `t` visits are exactly those reachable
      from the nodes `t` feeds; a terminal that feeds nothing gives no visit. */
  lemma TerminalWalkVisitsReachable(outs: map<Name, set<Name>>, edges: seq<Edge>, rk: Ranking, t: Name, x: Name)
    requires Ranked(edges, rk) && SourcesDeclared(outs, edges)
    ensures x in TerminalWalk(outs, edges, rk, t) <==> ReachableFromTerminal(edges, t, x)
    ensures (forall e | e in edges :: e.source != TerminalSrc(t)) ==> TerminalWalk(outs, edges, rk, t) == []
  {
    var ms := NodesFedBy(edges, TerminalSrc(t));
    WalkListMember(outs, edges, rk, ms, x);
    forall m | m in ms ensures x in Walk(outs, edges, rk, m) <==> Reachable(edges, m, x) {
      WalkVisitsReachable(outs, edges, rk, m, x);
    }
    if x in TerminalWalk(outs, edges, rk, t) {
      var m :| m in ms && x in Walk(outs, edges, rk, m);
      var e :| e in edges && e.source == TerminalSrc(t) && e.dest.node == m;
    }
    if ReachableFromTerminal(edges, t, x) {
      var e :| e in edges && e.source == TerminalSrc(t) && Reachable(edges, e.dest.node, x);
      assert e.dest.node in ms;
      WalkVisitsReachable(outs, edges, rk, e.dest.node, x);
    }
    if forall e | e in edges :: e.source != TerminalSrc(t) {
      if ms != [] {
        HeadIn(ms);
        assert false;
      }
    }
  }
}
