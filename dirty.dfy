/** The dirty propagator (implementation/dirty_propagator.py): walks
    downstream from a terminal and sets the dirty flag of every node the
    walker calls back on. */
module Dirty {
  import opened Names
  import opened Entities
  import opened Nodes
  import opened Graph
  import opened Walker
  import opened Evaluation

  /** The node map after propagation from terminal `t`: every node reachable
      from `t` is dirty; every other node, and every other field, is as
      before. */
  ghost function Dirtied(nodes: map<Name, Node>, edges: seq<Edge>, t: Name): (r: map<Name, Node>)
    ensures r.Keys == nodes.Keys
    ensures forall m | m in nodes :: r[m].isDirty == (nodes[m].isDirty || ReachableFromTerminal(edges, t, m))
    ensures forall m | m in nodes :: r[m].(isDirty := nodes[m].isDirty) == nodes[m]
  {
    map m | m in nodes :: if ReachableFromTerminal(edges, t, m) then nodes[m].(isDirty := true) else nodes[m]
  }

  /** `propagate`: the walker's callback sets `is_dirty` on each node it is
      called with, in visit order. */
  method Propagate(nodes: map<Name, Node>, edges: seq<Edge>, t: Name) returns (after: map<Name, Node>)
    requires Walkable(Outs(nodes), edges) && Acyclic(edges)
    ensures after == Dirtied(nodes, edges, t)
  {
    ghost var rk := RankingOf(edges);
    var visits := WalkFromTerminal(nodes, edges, t, rk);
    after := MarkVisited(nodes, visits);
    MarkedIsDirtied(nodes, edges, t, rk, visits, after);
  }

  /** The propagator's callback, `is_dirty = True`, applied to each visited
      node in turn. */
  method MarkVisited(nodes: map<Name, Node>, visits: seq<Name>) returns (after: map<Name, Node>)
    ensures after.Keys == nodes.Keys
    ensures forall m | m in nodes :: after[m] == if m in visits then nodes[m].(isDirty := true) else nodes[m]
  {
    after := nodes;
    var i := 0;
    while i < |visits|
      invariant 0 <= i <= |visits|
      invariant after.Keys == nodes.Keys
      invariant forall m | m in nodes :: after[m] == if m in visits[..i] then nodes[m].(isDirty := true) else nodes[m]
    {
      var m := visits[i];
      ghost var before := after;
      if m in after {
        after := after[m := after[m].(isDirty := true)];
      }
      assert visits[..i + 1] == visits[..i] + [m];
      forall k | k in nodes
        ensures after[k] == if k in visits[..i + 1] then nodes[k].(isDirty := true) else nodes[k]
      {
        if k == m {
          assert after[k] == nodes[k].(isDirty := true);
        } else {
          assert after[k] == before[k];
          assert k in visits[..i + 1] <==> k in visits[..i];
        }
      }
      i := i + 1;
    }
    assert visits[..i] == visits;
  }

  /** Marking the nodes of the walk from `t` marks exactly the nodes
      reachable from `t`. */
  lemma MarkedIsDirtied(nodes: map<Name, Node>, edges: seq<Edge>, t: Name, rk: Ranking, visits: seq<Name>, after: map<Name, Node>)
    requires Ranked(edges, rk) && Walkable(Outs(nodes), edges)
    requires visits == TerminalWalk(Outs(nodes), edges, rk, t)
    requires after.Keys == nodes.Keys
    requires forall m | m in nodes :: after[m] == if m in visits then nodes[m].(isDirty := true) else nodes[m]
    ensures after == Dirtied(nodes, edges, t)
  {
    var d := Dirtied(nodes, edges, t);
    forall m | m in nodes
      ensures after[m] == d[m]
    {
      TerminalWalkVisitsReachable(Outs(nodes), edges, rk, t, m);
    }
  }

  /** Propagating twice from the same terminal has the effect of once. */
  lemma DirtiedIdempotent(nodes: map<Name, Node>, edges: seq<Edge>, t: Name)
    ensures Dirtied(Dirtied(nodes, edges, t), edges, t) == Dirtied(nodes, edges, t)
  {
    var once := Dirtied(nodes, edges, t);
    var twice := Dirtied(once, edges, t);
    forall m | m in nodes ensures twice[m] == once[m] {
      if ReachableFromTerminal(edges, t, m) {
        assert twice[m] == once[m].(isDirty := true);
      }
    }
  }

  /** Propagation changes dirty flags only. */
  lemma DirtiedShape(nodes: map<Name, Node>, edges: seq<Edge>, t: Name)
    ensures SameShape(nodes, Dirtied(nodes, edges, t))
  {
    var d := Dirtied(nodes, edges, t);
    forall m | m in nodes ensures SameNodeShape(nodes[m], d[m]) {
      assert d[m].(isDirty := nodes[m].isDirty) == nodes[m];
    }
  }

  /** Propagation keeps coherence: a node that stays clean is not reachable
      from the terminal, so neither is anything feeding it. */
  lemma DirtiedCoherent(nodes: map<Name, Node>, edges: seq<Edge>, t: Name)
    requires Coherent(nodes, edges)
    ensures Coherent(Dirtied(nodes, edges, t), edges)
  {
    var d := Dirtied(nodes, edges, t);
    forall m, q | m in d && q in d[m].inputPorts && !d[m].isDirty
      ensures var f := FirstFeederNode(edges, PortRef(m, q)); f.Some? ==> f.value in d && !d[f.value].isDirty
    {
      var f := FirstFeederNode(edges, PortRef(m, q));
      assert d[m].(isDirty := nodes[m].isDirty) == nodes[m];
      if f.Some? {
        var e := FirstEdgeInto(edges, PortRef(m, q)).value;
        assert Feeds(edges, f.value, m);
        if ReachableFromTerminal(edges, t, f.value) {
          ReachableExtend(edges, t, f.value, m);
          assert false;
        }
      }
    }
  }
}
