/** The downstream walker (implementation/walker_downstream.py): a pre-order
    depth-first walk that calls back on every node it reaches, once per path.
    The walker returns the sequence of nodes it calls back on, in order; a
    client's callback is then applied to each in turn (see the dirty
    propagator). */
module Walker {
  import opened Names
  import opened Entities
  import opened Nodes
  import opened Graph

  /** What the walker needs of the graph: every edge leaves a declared output
      port and ends at a known node. */
  predicate Walkable(outs: map<Name, set<Name>>, edges: seq<Edge>)
  {
    SourcesDeclared(outs, edges) && forall e | e in edges :: e.dest.node in outs
  }

  lemma FedKnown(outs: map<Name, set<Name>>, edges: seq<Edge>, src: Source, m: Name)
    requires Walkable(outs, edges) && m in NodesFedBy(edges, src)
    ensures m in outs
  {
  }

  /** `walk_from_node`: `n` first, then, for each output port of `n` in
      name order, the walks from the nodes it feeds. */
  method WalkFromNode(nodes: map<Name, Node>, edges: seq<Edge>, n: Name, ghost rk: Ranking)
    returns (visits: seq<Name>)
    requires Ranked(edges, rk) && Walkable(Outs(nodes), edges)
    requires n in nodes
    ensures visits == Walk(Outs(nodes), edges, rk, n)
    decreases Down(rk, n), 1
  {
    ghost var outs := Outs(nodes);
    visits := [n];
    var ports := SortKeys(nodes[n].outputPorts.Keys);
    assert ports == SortedKeys(OutsOf(outs, n));
    var i := 0;
    while i < |ports|
      invariant 0 <= i <= |ports|
      invariant visits + WalkPorts(outs, edges, rk, n, ports[i..]) == Walk(outs, edges, rk, n)
    {
      var fed := NodesFedBy(edges, OutputSrc(n, ports[i]));
      WalkPortsStep(outs, edges, rk, n, ports, i);
      var more := WalkFedNodes(nodes, edges, n, fed, rk);
      WalkPortsSoFar(outs, edges, rk, n, ports, i, visits, more);
      visits := visits + more;
      i := i + 1;
    }
    assert ports[i..] == [];
    assert visits + [] == visits;
  }

  /** The walks through ports `ps[i..]`: those from the nodes port `ps[i]`
      feeds, then the rest. */
  lemma WalkPortsStep(outs: map<Name, set<Name>>, edges: seq<Edge>, rk: Ranking, n: Name, ps: seq<Name>, i: nat)
    requires Ranked(edges, rk) && i < |ps|
    ensures forall m | m in NodesFedBy(edges, OutputSrc(n, ps[i])) :: Feeds(edges, n, m)
    ensures WalkPorts(outs, edges, rk, n, ps[i..])
         == WalkFed(outs, edges, rk, n, NodesFedBy(edges, OutputSrc(n, ps[i]))) + WalkPorts(outs, edges, rk, n, ps[i + 1..])
  {
    assert ps[i..][1..] == ps[i + 1..];
  }

  /** The walks delivered so far, `visits`, followed by those from port
      `ps[i]`, `more`, leave the walks through the ports after it. */
  lemma WalkPortsSoFar(outs: map<Name, set<Name>>, edges: seq<Edge>, rk: Ranking, n: Name, ps: seq<Name>, i: nat,
                       visits: seq<Name>, more: seq<Name>)
    requires Ranked(edges, rk) && i < |ps|
    requires forall m | m in NodesFedBy(edges, OutputSrc(n, ps[i])) :: Feeds(edges, n, m)
    requires more == WalkFed(outs, edges, rk, n, NodesFedBy(edges, OutputSrc(n, ps[i])))
    ensures visits + WalkPorts(outs, edges, rk, n, ps[i..]) == (visits + more) + WalkPorts(outs, edges, rk, n, ps[i + 1..])
  {
    WalkPortsStep(outs, edges, rk, n, ps, i);
  }

  lemma WalkFedSoFar(outs: map<Name, set<Name>>, edges: seq<Edge>, rk: Ranking, n: Name, ms: seq<Name>, j: nat,
                     visits: seq<Name>, more: seq<Name>)
    requires Ranked(edges, rk) && j < |ms|
    requires forall m | m in ms :: Feeds(edges, n, m)
    requires more == Walk(outs, edges, rk, ms[j])
    ensures visits + WalkFed(outs, edges, rk, n, ms[j..]) == (visits + more) + WalkFed(outs, edges, rk, n, ms[j + 1..])
  {
    assert ms[j..][1..] == ms[j + 1..];
  }

  lemma WalkListSoFar(outs: map<Name, set<Name>>, edges: seq<Edge>, rk: Ranking, ms: seq<Name>, j: nat,
                      visits: seq<Name>, more: seq<Name>)
    requires Ranked(edges, rk) && j < |ms|
    requires more == Walk(outs, edges, rk, ms[j])
    ensures visits + WalkList(outs, edges, rk, ms[j..]) == (visits + more) + WalkList(outs, edges, rk, ms[j + 1..])
  {
    assert ms[j..][1..] == ms[j + 1..];
  }

  /** The inner loop of `walk_from_node`: the walks from the nodes `fed`,
      all fed by `n`, in order. */
  method WalkFedNodes(nodes: map<Name, Node>, edges: seq<Edge>, n: Name, fed: seq<Name>, ghost rk: Ranking)
    returns (visits: seq<Name>)
    requires Ranked(edges, rk) && Walkable(Outs(nodes), edges)
    requires forall m | m in fed :: Feeds(edges, n, m)
    ensures visits == WalkFed(Outs(nodes), edges, rk, n, fed)
    decreases Down(rk, n), 0
  {
    ghost var outs := Outs(nodes);
    visits := [];
    var j := 0;
    while j < |fed|
      invariant 0 <= j <= |fed|
      invariant visits + WalkFed(outs, edges, rk, n, fed[j..]) == WalkFed(outs, edges, rk, n, fed)
    {
      var m := fed[j];
      FeedsRank(edges, rk, n, m);
      var e :| e in edges && e.source.OutputSrc? && e.source.node == n && e.dest.node == m;
      assert m in outs;
      var more := WalkFromNode(nodes, edges, m, rk);
      WalkFedSoFar(outs, edges, rk, n, fed, j, visits, more);
      visits := visits + more;
      j := j + 1;
    }
  }

  /** `walk_from_terminal`: the walks from the nodes the terminal feeds, in
      name order; the terminal itself is never visited. */
  method WalkFromTerminal(nodes: map<Name, Node>, edges: seq<Edge>, t: Name, ghost rk: Ranking)
    returns (visits: seq<Name>)
    requires Ranked(edges, rk) && Walkable(Outs(nodes), edges)
    ensures visits == TerminalWalk(Outs(nodes), edges, rk, t)
  {
    ghost var outs := Outs(nodes);
    var fed := NodesFedBy(edges, TerminalSrc(t));
    visits := [];
    assert fed[0..] == fed;
    var j := 0;
    while j < |fed|
      invariant 0 <= j <= |fed|
      invariant visits + WalkList(outs, edges, rk, fed[j..]) == TerminalWalk(outs, edges, rk, t)
    {
      assert fed[j] in fed;
      FedKnown(outs, edges, TerminalSrc(t), fed[j]);
      assert fed[j] in nodes;
      var more := WalkFromNode(nodes, edges, fed[j], rk);
      WalkListSoFar(outs, edges, rk, fed, j, visits, more);
      visits := visits + more;
      j := j + 1;
    }
    assert fed[j..] == [] && visits + [] == visits;
  }
}
