/** The network (api/network.py): the public API that builds the graph of
    nodes, terminals and edges, writes terminals and reads output ports. The
    node, terminal and edge tables are fields of the `Network` object; nodes
    and terminals are records held by name, and edges refer to their ends by
    name. */
module NetworkApi {
  import opened Names
  import opened Outcomes
  import opened Entities
  import opened Nodes
  import opened Graph
  import opened Walker
  import opened Dirty
  import opened Integrity
  import opened Evaluation

  /** Every terminal is stored under its own name. */
  ghost predicate TerminalsWf(terminals: map<Name, Terminal>)
  {
    forall t | t in terminals :: terminals[t].name == t
  }

  /** The network's tables are well formed: the insertion orders list the
      keys, every record sits under its own name, and every edge joins
      entities that exist. */
  ghost predicate NetWf(nodes: map<Name, Node>, nodeOrder: seq<Name>, terminals: map<Name, Terminal>,
                        terminalOrder: seq<Name>, edges: seq<Edge>)
  {
    && ListsKeys(nodeOrder, nodes) && ListsKeys(terminalOrder, terminals)
    && NodesWf(nodes) && TerminalsWf(terminals)
    && EdgesWf(nodes, terminals.Keys, edges)
  }

  /** Well-formed edges give the walker all it needs. */
  lemma WfWalkable(nodes: map<Name, Node>, terminals: set<Name>, edges: seq<Edge>)
    requires EdgesWf(nodes, terminals, edges)
    ensures Walkable(Outs(nodes), edges)
  {
  }

  lemma AppendDistinct(order: seq<Name>, x: Name)
    requires Distinct(order) && x !in order
    ensures Distinct(order + [x])
  {
    var s := order + [x];
    forall i, j | 0 <= i < j < |s| ensures s[i] != s[j] {
      if j == |order| { assert s[i] in order; }
    }
  }

  /** Node maps of the same shape are equally well formed. */
  lemma ShapeKeepsWf(a: map<Name, Node>, b: map<Name, Node>, order: seq<Name>, terminals: map<Name, Terminal>,
                     terminalOrder: seq<Name>, edges: seq<Edge>)
    requires SameShape(a, b) && NetWf(a, order, terminals, terminalOrder, edges)
    ensures NetWf(b, order, terminals, terminalOrder, edges)
    ensures AllXfns(a) ==> AllXfns(b)
  {
    forall m | m in b ensures b[m].name == m && PortsOwned(b[m]) {
      assert SameNodeShape(a[m], b[m]);
    }
  }

  /** A new node keeps the tables well formed and coherent: it is dirty. */
  lemma AddNodeWf(nodes: map<Name, Node>, order: seq<Name>, terminals: map<Name, Terminal>,
                  terminalOrder: seq<Name>, edges: seq<Edge>, name: Name)
    requires NetWf(nodes, order, terminals, terminalOrder, edges) && name !in nodes
    ensures NetWf(nodes[name := NewNode(name)], order + [name], terminals, terminalOrder, edges)
    ensures Coherent(nodes, edges) ==> Coherent(nodes[name := NewNode(name)], edges)
  {
    AppendDistinct(order, name);
  }

  lemma AddTerminalWf(nodes: map<Name, Node>, order: seq<Name>, terminals: map<Name, Terminal>,
                      terminalOrder: seq<Name>, edges: seq<Edge>, name: Name)
    requires NetWf(nodes, order, terminals, terminalOrder, edges) && name !in terminals
    ensures NetWf(nodes, order, terminals[name := NewTerminal(name)], terminalOrder + [name], edges)
  {
    AppendDistinct(terminalOrder, name);
  }

  /** Coherence only looks at the keys, the input port names and the dirty
      flags, so a change that keeps them keeps coherence. */
  lemma FlagsKeepCoherent(a: map<Name, Node>, b: map<Name, Node>, edges: seq<Edge>)
    requires a.Keys == b.Keys
    requires forall m | m in a :: b[m].inputPorts.Keys == a[m].inputPorts.Keys && b[m].isDirty == a[m].isDirty
    ensures Coherent(a, edges) ==> Coherent(b, edges)
  {
  }

  /** Replacing one node by one with the same name, owned ports and at least
      the same ports keeps the tables well formed. */
  lemma ReplaceNodeWf(nodes: map<Name, Node>, order: seq<Name>, terminals: map<Name, Terminal>,
                      terminalOrder: seq<Name>, edges: seq<Edge>, n: Name, r: Node)
    requires NetWf(nodes, order, terminals, terminalOrder, edges) && n in nodes
    requires r.name == n && PortsOwned(r)
    requires nodes[n].inputPorts.Keys <= r.inputPorts.Keys && nodes[n].outputPorts.Keys <= r.outputPorts.Keys
    ensures NetWf(nodes[n := r], order, terminals, terminalOrder, edges)
  {
    var b := nodes[n := r];
    assert forall x :: x in order <==> x in b;
    assert NodesWf(b);
    assert EdgesWf(b, terminals.Keys, edges);
  }

  /** Registering an input port keeps the tables well formed and coherent:
      a new port has no edge into it yet. */
  lemma AddInputPortWf(nodes: map<Name, Node>, order: seq<Name>, terminals: map<Name, Terminal>,
                       terminalOrder: seq<Name>, edges: seq<Edge>, n: Name, p: Name)
    requires NetWf(nodes, order, terminals, terminalOrder, edges) && n in nodes
    ensures var b := nodes[n := RegisterInputPort(nodes[n], p)];
      NetWf(b, order, terminals, terminalOrder, edges) && (Coherent(nodes, edges) ==> Coherent(b, edges))
  {
    var r := RegisterInputPort(nodes[n], p);
    ReplaceNodeWf(nodes, order, terminals, terminalOrder, edges, n, r);
    if p !in nodes[n].inputPorts {
      assert FirstEdgeInto(edges, PortRef(n, p)).None?;
    }
  }

  lemma AddOutputPortWf(nodes: map<Name, Node>, order: seq<Name>, terminals: map<Name, Terminal>,
                        terminalOrder: seq<Name>, edges: seq<Edge>, n: Name, p: Name)
    requires NetWf(nodes, order, terminals, terminalOrder, edges) && n in nodes
    ensures var b := nodes[n := RegisterOutputPort(nodes[n], p)];
      NetWf(b, order, terminals, terminalOrder, edges) && (Coherent(nodes, edges) ==> Coherent(b, edges))
  {
    var r := RegisterOutputPort(nodes[n], p);
    ReplaceNodeWf(nodes, order, terminals, terminalOrder, edges, n, r);
    FlagsKeepCoherent(nodes, nodes[n := r], edges);
  }

  lemma SetXfnWf(nodes: map<Name, Node>, order: seq<Name>, terminals: map<Name, Terminal>,
                 terminalOrder: seq<Name>, edges: seq<Edge>, n: Name, f: Option<Xfn>)
    requires NetWf(nodes, order, terminals, terminalOrder, edges) && n in nodes
    ensures var b := nodes[n := SetXfn(nodes[n], f)];
      NetWf(b, order, terminals, terminalOrder, edges) && (Coherent(nodes, edges) ==> Coherent(b, edges))
  {
    var r := SetXfn(nodes[n], f);
    ReplaceNodeWf(nodes, order, terminals, terminalOrder, edges, n, r);
    FlagsKeepCoherent(nodes, nodes[n := r], edges);
  }

  /** Writing a terminal and propagating from it keeps the tables well
      formed and coherent. */
  lemma WriteTerminalWf(nodes: map<Name, Node>, order: seq<Name>, terminals: map<Name, Terminal>,
                        terminalOrder: seq<Name>, edges: seq<Edge>, t: Name, v: Option<Value>)
    requires NetWf(nodes, order, terminals, terminalOrder, edges) && t in terminals
    ensures terminals[t := terminals[t].(value := v)] == terminals[t := Terminal(t, v)]
    ensures NetWf(Dirtied(nodes, edges, t), order, terminals[t := Terminal(t, v)], terminalOrder, edges)
    ensures Coherent(nodes, edges) ==> Coherent(Dirtied(nodes, edges, t), edges)
  {
    var ts := terminals[t := Terminal(t, v)];
    assert NetWf(nodes, order, ts, terminalOrder, edges);
    DirtiedShape(nodes, edges, t);
    ShapeKeepsWf(nodes, Dirtied(nodes, edges, t), order, ts, terminalOrder, edges);
    if Coherent(nodes, edges) {
      DirtiedCoherent(nodes, edges, t);
    }
  }

  /** Appending an edge between existing entities keeps the tables well
      formed. */
  lemma AppendEdgeWf(nodes: map<Name, Node>, order: seq<Name>, terminals: map<Name, Terminal>,
                     terminalOrder: seq<Name>, edges: seq<Edge>, e: Edge)
    requires NetWf(nodes, order, terminals, terminalOrder, edges)
    requires EdgesWf(nodes, terminals.Keys, [e])
    ensures NetWf(nodes, order, terminals, terminalOrder, edges + [e])
  {
    assert forall x | x in edges + [e] :: x in edges || x == e;
  }

  /** A new edge keeps coherence unless it gives a clean node a dirty first
      feeder on a port that had none. */
  lemma AppendKeepsCoherent(nodes: map<Name, Node>, edges: seq<Edge>, e: Edge)
    requires Coherent(nodes, edges)
    requires e.source.OutputSrc? ==>
      || FirstEdgeInto(edges, e.dest).Some?
      || e.dest.node !in nodes || nodes[e.dest.node].isDirty
      || (e.source.node in nodes && !nodes[e.source.node].isDirty)
    ensures Coherent(nodes, edges + [e])
  {
    forall m, q | m in nodes && q in nodes[m].inputPorts && !nodes[m].isDirty
      ensures var f := FirstFeederNode(edges + [e], PortRef(m, q)); f.Some? ==> f.value in nodes && !nodes[f.value].isDirty
    {
      FirstEdgeIntoAppend(edges, e, PortRef(m, q));
    }
  }

  /** What the recursive read needs of the tables. */
  ghost predicate Readable(nodes: map<Name, Node>, terminals: map<Name, Terminal>, edges: seq<Edge>, rk: Ranking)
  {
    EdgesWf(nodes, terminals.Keys, edges) && AllXfns(nodes) && Ranked(edges, rk)
  }

  lemma ShapeKeepsReadable(a: map<Name, Node>, b: map<Name, Node>, terminals: map<Name, Terminal>, edges: seq<Edge>, rk: Ranking)
    requires SameShape(a, b) && Readable(a, terminals, edges, rk)
    ensures Readable(b, terminals, edges, rk)
  {
    forall m | m in b ensures b[m].xfn.Some? {
      assert SameNodeShape(a[m], b[m]);
    }
  }

  /** A passed integrity check leaves the tables fit for the read. */
  lemma CheckPassed(nodes: map<Name, Node>, order: seq<Name>, terminals: map<Name, Terminal>,
                    terminalOrder: seq<Name>, edges: seq<Edge>, rk: Ranking)
    requires NetWf(nodes, order, terminals, terminalOrder, edges) && Ranked(edges, rk)
    requires CheckNow(nodes, order, terminals, terminalOrder).None?
    ensures Readable(nodes, terminals, edges, rk)
  {
  }

  /** What `set_terminal_value` promises: an unknown terminal is reported
      and changes nothing; otherwise the terminal holds `v` and every node
      downstream of it is dirty, and nothing else changes. Coherence is
      kept. */
  ghost predicate TerminalWritten(a: map<Name, Node>, b: map<Name, Node>, ts: map<Name, Terminal>,
                                  ts': map<Name, Terminal>, edges: seq<Edge>, t: Name, v: Option<Value>,
                                  err: Option<Error>)
  {
    && (t !in ts ==> err == Some(UnknownTerminal(t)) && ts' == ts && b == a)
    && (t in ts ==> err.None? && ts' == ts[t := Terminal(t, v)] && b == Dirtied(a, edges, t))
    && (Coherent(a, edges) ==> Coherent(b, edges))
  }

  /** `set_terminal_value` on the tables. */
  method WriteTerminal(nodes: map<Name, Node>, nodeOrder: seq<Name>, terminals: map<Name, Terminal>,
                       terminalOrder: seq<Name>, edges: seq<Edge>, t: Name, v: Option<Value>)
    returns (err: Option<Error>, written: map<Name, Terminal>, dirtied: map<Name, Node>)
    requires NetWf(nodes, nodeOrder, terminals, terminalOrder, edges) && Acyclic(edges)
    ensures NetWf(dirtied, nodeOrder, written, terminalOrder, edges)
    ensures TerminalWritten(nodes, dirtied, terminals, written, edges, t, v, err)
  {
    if t !in terminals {
      return Some(UnknownTerminal(t)), terminals, nodes;
    }
    WriteTerminalWf(nodes, nodeOrder, terminals, terminalOrder, edges, t, v);
    WfWalkable(nodes, terminals.Keys, edges);
    written := terminals[t := terminals[t].(value := v)];
    dirtied := Propagate(nodes, edges, t);
    err := None;
  }

  /** What `get_output_port_value` promises: a failed integrity check is
      reported and changes nothing; otherwise the read's outcome. */
  ghost predicate CheckedOutcome(a: map<Name, Node>, b: map<Name, Node>, nodeOrder: seq<Name>,
                                 terminals: map<Name, Terminal>, terminalOrder: seq<Name>, edges: seq<Edge>,
                                 n: Name, p: Name, r: Result<Option<Value>, Error>, fires: seq<Name>)
    requires ListsKeys(nodeOrder, a) && ListsKeys(terminalOrder, terminals) && Acyclic(edges)
  {
    && (CheckNow(a, nodeOrder, terminals, terminalOrder).Some? ==>
          r == Err(CheckNow(a, nodeOrder, terminals, terminalOrder).value) && b == a && fires == [])
    && (CheckNow(a, nodeOrder, terminals, terminalOrder).None? ==>
          PullOutcome(a, b, terminals, edges, RankingOf(edges), n, p, r, fires))
  }

  /** `get_output_port_value` on the tables: the integrity check first, then
      the read. */
  method CheckedRead(nodes: map<Name, Node>, nodeOrder: seq<Name>, terminals: map<Name, Terminal>,
                     terminalOrder: seq<Name>, edges: seq<Edge>, n: Name, p: Name)
    returns (r: Result<Option<Value>, Error>, after: map<Name, Node>, ghost fires: seq<Name>)
    requires NetWf(nodes, nodeOrder, terminals, terminalOrder, edges) && Acyclic(edges)
    ensures NetWf(after, nodeOrder, terminals, terminalOrder, edges)
    ensures CheckedOutcome(nodes, after, nodeOrder, terminals, terminalOrder, edges, n, p, r, fires)
  {
    var check := CheckNow(nodes, nodeOrder, terminals, terminalOrder);
    if check.Some? {
      return Err(check.value), nodes, [];
    }
    ghost var rk := RankingOf(edges);
    CheckPassed(nodes, nodeOrder, terminals, terminalOrder, edges, rk);
    r, after, fires := ReadPort(nodes, terminals, edges, n, p, rk);
    ShapeKeepsWf(nodes, after, nodeOrder, terminals, terminalOrder, edges);
  }

  /** `_get_output_port_value` on the node table: an unknown node or port is
      an error, and a clean node answers from its port; a dirty node is
      refreshed first. The table after the read is returned, with the nodes
      whose transfer functions were called, in call order. */
  method ReadPort(nodes: map<Name, Node>, terminals: map<Name, Terminal>, edges: seq<Edge>, n: Name, p: Name, ghost rk: Ranking)
    returns (r: Result<Option<Value>, Error>, after: map<Name, Node>, ghost fires: seq<Name>)
    requires Readable(nodes, terminals, edges, rk)
    ensures PullOutcome(nodes, after, terminals, edges, rk, n, p, r, fires)
    decreases Up(rk, n), 3
  {
    if n !in nodes || p !in nodes[n].outputPorts || !nodes[n].isDirty {
      PullDirect(nodes, terminals, edges, rk, n, p);
      after, fires := nodes, [];
      if n !in nodes {
        r := Err(UnknownNode(n));
      } else if p !in nodes[n].outputPorts {
        r := Err(UnknownOutputPort(n, p));
      } else {
        r := Ok(GetValue(nodes[n].outputPorts[p]));
      }
    } else {
      r, after, fires := ReadDirty(nodes, terminals, edges, n, p, rk);
    }
  }

  /** The rest of `_get_output_port_value` for a dirty node: refresh its
      inputs, fire its transfer function, answer from its port. */
  method ReadDirty(nodes: map<Name, Node>, terminals: map<Name, Terminal>, edges: seq<Edge>, n: Name, p: Name, ghost rk: Ranking)
    returns (r: Result<Option<Value>, Error>, after: map<Name, Node>, ghost fires: seq<Name>)
    requires Readable(nodes, terminals, edges, rk)
    requires n in nodes && p in nodes[n].outputPorts && nodes[n].isDirty
    ensures PullOutcome(nodes, after, terminals, edges, rk, n, p, r, fires)
    decreases Up(rk, n), 2
  {
    var err, refreshed, f1 := RefreshInputs(nodes, terminals, edges, n, rk);
    if err.Some? {
      PullRefreshFailed(nodes, refreshed, terminals, edges, rk, n, p, f1, err.value);
      return Err(err.value), refreshed, f1;
    }
    assert refreshed[n].xfn == nodes[n].xfn;
    var node, e := ExecuteTransferFunction(refreshed[n]);
    after := refreshed[n := node];
    fires := f1 + [n];
    PullFired(nodes, refreshed, after, terminals, edges, rk, n, p, f1, node, e);
    if e.Some? {
      r := Err(e.value);
    } else {
      r := Ok(GetValue(node.outputPorts[p]));
    }
  }

  /** `_refresh_inputs_recursively`: each input port of `n`, in name order,
      takes the value its earliest edge offers: the terminal's value, or a
      read of the upstream output port. */
  method RefreshInputs(nodes: map<Name, Node>, terminals: map<Name, Terminal>, edges: seq<Edge>, n: Name, ghost rk: Ranking)
    returns (err: Option<Error>, after: map<Name, Node>, ghost fires: seq<Name>)
    requires Readable(nodes, terminals, edges, rk)
    requires n in nodes && nodes[n].isDirty
    ensures RefreshOutcome(nodes, after, terminals, edges, rk, n, err, fires)
    decreases Up(rk, n), 1
  {
    var ps := SortedInputPorts(nodes[n]);
    ProgressStart(nodes, terminals, edges, rk, n);
    after, fires := nodes, [];
    ghost var done: seq<Name> := [];
    var i := 0;
    while i < |ps|
      invariant 0 <= i <= |ps| && done == ps[..i]
      invariant RefreshProgress(nodes, after, terminals, edges, rk, n, done, fires, true)
    {
      var q := ps[i];
      var edge := FindEdgeFor(edges, PortRef(n, q));
      if edge.Err? {
        ProgressMissingEdge(nodes, after, terminals, edges, rk, n, done, fires, q);
        return Some(edge.error), after, fires;
      }
      ShapeKeepsReadable(nodes, after, terminals, edges, rk);
      var v, next, more := RefreshOne(nodes, after, terminals, edges, n, q, edge.value, rk, done, fires);
      after, fires := next, fires + more;
      if v.Err? {
        return Some(v.error), after, fires;
      }
      PrefixStep(ps, i);
      done := done + [q];
      i := i + 1;
    }
    PrefixAll(ps);
    ProgressDone(nodes, after, terminals, edges, rk, n, ps, fires);
    err := None;
  }

  /** One step of `_refresh_inputs_recursively` on the table `cur`: input
      port `q` of `n` takes the value offered along `edge`, its earliest
      edge. */
  method RefreshOne(start: map<Name, Node>, cur: map<Name, Node>, terminals: map<Name, Terminal>, edges: seq<Edge>,
                    n: Name, q: Name, edge: Edge, ghost rk: Ranking, ghost done: seq<Name>, ghost f: seq<Name>)
    returns (v: Result<Option<Value>, Error>, after: map<Name, Node>, ghost more: seq<Name>)
    requires Readable(cur, terminals, edges, rk)
    requires n in start && start[n].isDirty && q in start[n].inputPorts
    requires FirstEdgeInto(edges, PortRef(n, q)) == Some(edge)
    requires RefreshProgress(start, cur, terminals, edges, rk, n, done, f, true)
    ensures v.Ok? ==> RefreshProgress(start, after, terminals, edges, rk, n, done + [q], f + more, true)
    ensures v.Err? ==> RefreshOutcome(start, after, terminals, edges, rk, n, Some(v.error), f + more)
    decreases Up(rk, n), 0
  {
    assert edge in edges;
    var value;
    match edge.source {
      case TerminalSrc(t) =>
        value, more := terminals[t].value, [];
        after := cur;
        assert f + more == f;
      case OutputSrc(u, o) =>
        assert FeedsFirst(Ins(start), edges, u, n);
        var res;
        res, after, more := ReadPort(cur, terminals, edges, u, o, rk);
        if res.Err? {
          ProgressPullFailed(start, cur, after, terminals, edges, rk, n, done, f, u, o, res, more);
          return Err(res.error), after, more;
        }
        ProgressPull(start, cur, after, terminals, edges, rk, n, done, f, u, o, res, more);
        value := res.value;
        assert u in after && o in after[u].outputPorts && !after[u].isDirty && value == GetValue(after[u].outputPorts[o]);
    }
    ghost var c := after;
    after := after[n := after[n].(inputPorts := after[n].inputPorts[q := after[n].inputPorts[q].(value := value)])];
    ProgressSet(start, c, after, terminals, edges, rk, n, done, f + more, q, edge, value);
    v := Ok(value);
  }

  /** `edge_for_input`: the earliest edge into the input port, or an error
      when there is none. */
  method FindEdgeFor(edges: seq<Edge>, dest: PortRef) returns (r: Result<Edge, Error>)
    ensures r.Ok? <==> FirstEdgeInto(edges, dest).Some?
    ensures r.Ok? ==> r.value == FirstEdgeInto(edges, dest).value
    ensures r.Err? ==> r.error == MissingFeederEdge(dest)
  {
    var i := 0;
    while i < |edges|
      invariant 0 <= i <= |edges|
      invariant FirstEdgeInto(edges, dest) == FirstEdgeInto(edges[i..], dest)
    {
      if edges[i].dest == dest {
        return Ok(edges[i]);
      }
      assert edges[i..][1..] == edges[i + 1..];
      i := i + 1;
    }
    r := Err(MissingFeederEdge(dest));
  }

  /** The network's tables as one value. */
  datatype Tables = Tables(nodes: map<Name, Node>, nodeOrder: seq<Name>, terminals: map<Name, Terminal>,
                           terminalOrder: seq<Name>, edges: seq<Edge>)

  /** The tables after `register_node`: a new name gets a new node at the
      end of the insertion order; a known one is kept. */
  function WithNode(t: Tables, n: Name): (r: Tables)
    ensures n in r.nodes && r.nodes.Keys == t.nodes.Keys + {n}
    ensures forall m | m in t.nodes :: r.nodes[m] == t.nodes[m]
    ensures r.terminals == t.terminals && r.terminalOrder == t.terminalOrder && r.edges == t.edges
  {
    if n in t.nodes then t else t.(nodes := t.nodes[n := NewNode(n)], nodeOrder := t.nodeOrder + [n])
  }

  /** The tables after `register_terminal`: a known terminal keeps its
      value. */
  function WithTerminal(t: Tables, x: Name): (r: Tables)
    ensures x in r.terminals && r.terminals.Keys == t.terminals.Keys + {x}
    ensures forall y | y in t.terminals :: r.terminals[y] == t.terminals[y]
    ensures r.nodes == t.nodes && r.nodeOrder == t.nodeOrder && r.edges == t.edges
  {
    if x in t.terminals then t
    else t.(terminals := t.terminals[x := NewTerminal(x)], terminalOrder := t.terminalOrder + [x])
  }

  /** The tables after `register_input_port` on a known node. */
  function WithInputPort(t: Tables, n: Name, p: Name): (r: Tables)
    requires n in t.nodes
    ensures r.nodes.Keys == t.nodes.Keys && p in r.nodes[n].inputPorts
    ensures r.terminals == t.terminals && r.terminalOrder == t.terminalOrder && r.edges == t.edges
  {
    t.(nodes := t.nodes[n := RegisterInputPort(t.nodes[n], p)])
  }

  /** The tables after `register_output_port` on a known node. */
  function WithOutputPort(t: Tables, n: Name, p: Name): (r: Tables)
    requires n in t.nodes
    ensures r.nodes.Keys == t.nodes.Keys && p in r.nodes[n].outputPorts
    ensures r.terminals == t.terminals && r.terminalOrder == t.terminalOrder && r.edges == t.edges
  {
    t.(nodes := t.nodes[n := RegisterOutputPort(t.nodes[n], p)])
  }

  /** The tables after carrying out a command, and the error it raised. */
  datatype Applied = Applied(err: Option<Error>, tables: Tables)

  /** The duplicate check, then the append. */
  function WithEdge(t: Tables, e: Edge): (a: Applied)
    ensures a.err.None? <==> e !in t.edges
    ensures a.err.Some? ==> a.err.value == DuplicateEdge(e.source, e.dest) && a.tables == t
    ensures a.err.None? ==> a.tables == t.(edges := t.edges + [e])
  {
    if e in t.edges then Applied(Some(DuplicateEdge(e.source, e.dest)), t)
    else Applied(None, t.(edges := t.edges + [e]))
  }

  class Network {
    /** The node table, and the order in which its names were first
        registered (dict insertion order). */
    var nodes: map<Name, Node>
    var nodeOrder: seq<Name>
    /** The terminal table and its insertion order. */
    var terminals: map<Name, Terminal>
    var terminalOrder: seq<Name>
    /** The edges, in creation order. */
    var edges: seq<Edge>
    /** Every transfer-function call so far, by node name. */
    ghost var fired: seq<Name>

    ghost predicate Valid()
      reads this
    {
      NetWf(nodes, nodeOrder, terminals, terminalOrder, edges)
    }

    ghost function Snapshot(): Tables
      reads this
    {
      Tables(nodes, nodeOrder, terminals, terminalOrder, edges)
    }

    /** An empty network. */
    constructor ()
      ensures Valid()
      ensures nodes == map[] && nodeOrder == [] && terminals == map[] && terminalOrder == []
      ensures edges == [] && fired == []
    {
      nodes, nodeOrder := map[], [];
      terminals, terminalOrder := map[], [];
      edges, fired := [], [];
    }

    /** `register_node`: `setdefault` on the node table. */
    method RegisterNode(name: Name)
      requires Valid()
      modifies this`nodes, this`nodeOrder
      ensures Valid()
      ensures name in old(nodes) ==> nodes == old(nodes) && nodeOrder == old(nodeOrder)
      ensures name !in old(nodes) ==> nodes == old(nodes)[name := NewNode(name)] && nodeOrder == old(nodeOrder) + [name]
      ensures Snapshot() == WithNode(old(Snapshot()), name)
      ensures Coherent(old(nodes), edges) ==> Coherent(nodes, edges)
    {
      if name !in nodes {
        AddNodeWf(nodes, nodeOrder, terminals, terminalOrder, edges, name);
        nodes := nodes[name := NewNode(name)];
        nodeOrder := nodeOrder + [name];
      }
    }

    /** `register_terminal`: the existing terminal is returned and kept; a
        new one is stored with no value, and nothing is returned. */
    method RegisterTerminal(name: Name) returns (r: Option<Terminal>)
      requires Valid()
      modifies this`terminals, this`terminalOrder
      ensures Valid()
      ensures name in old(terminals) ==>
        r == Some(old(terminals)[name]) && terminals == old(terminals) && terminalOrder == old(terminalOrder)
      ensures name !in old(terminals) ==>
        r.None? && terminals == old(terminals)[name := NewTerminal(name)] && terminalOrder == old(terminalOrder) + [name]
      ensures Snapshot() == WithTerminal(old(Snapshot()), name)
    {
      if name in terminals {
        return Some(terminals[name]);
      }
      AddTerminalWf(nodes, nodeOrder, terminals, terminalOrder, edges, name);
      terminals := terminals[name := NewTerminal(name)];
      terminalOrder := terminalOrder + [name];
      r := None;
    }

    /** `register_input_port`: the node is looked up first. */
    method RegisterInputPort(nodeName: Name, portName: Name) returns (err: Option<Error>)
      requires Valid()
      modifies this`nodes
      ensures Valid()
      ensures nodeName !in old(nodes) ==> err == Some(UnknownNode(nodeName)) && nodes == old(nodes)
      ensures nodeName in old(nodes) ==>
        err.None? && nodes == old(nodes)[nodeName := Nodes.RegisterInputPort(old(nodes)[nodeName], portName)]
      ensures nodeName in old(nodes) ==> Snapshot() == WithInputPort(old(Snapshot()), nodeName, portName)
      ensures Coherent(old(nodes), edges) ==> Coherent(nodes, edges)
    {
      if nodeName !in nodes {
        return Some(UnknownNode(nodeName));
      }
      AddInputPortWf(nodes, nodeOrder, terminals, terminalOrder, edges, nodeName, portName);
      nodes := nodes[nodeName := Nodes.RegisterInputPort(nodes[nodeName], portName)];
      err := None;
    }

    /** `register_output_port`: the node is looked up first. */
    method RegisterOutputPort(nodeName: Name, portName: Name) returns (err: Option<Error>)
      requires Valid()
      modifies this`nodes
      ensures Valid()
      ensures nodeName !in old(nodes) ==> err == Some(UnknownNode(nodeName)) && nodes == old(nodes)
      ensures nodeName in old(nodes) ==>
        err.None? && nodes == old(nodes)[nodeName := Nodes.RegisterOutputPort(old(nodes)[nodeName], portName)]
      ensures nodeName in old(nodes) ==> Snapshot() == WithOutputPort(old(Snapshot()), nodeName, portName)
      ensures Coherent(old(nodes), edges) ==> Coherent(nodes, edges)
    {
      if nodeName !in nodes {
        return Some(UnknownNode(nodeName));
      }
      AddOutputPortWf(nodes, nodeOrder, terminals, terminalOrder, edges, nodeName, portName);
      nodes := nodes[nodeName := Nodes.RegisterOutputPort(nodes[nodeName], portName)];
      err := None;
    }

    /** `_assert_not_duplicate_edge`: fails on an edge with the same source
        and destination. */
    method AssertNotDuplicateEdge(source: Source, dest: PortRef) returns (err: Option<Error>)
      ensures err.None? <==> Edge(source, dest) !in edges
      ensures err.Some? ==> err.value == DuplicateEdge(source, dest)
    {
      var i := 0;
      while i < |edges|
        invariant 0 <= i <= |edges|
        invariant Edge(source, dest) !in edges[..i]
      {
        if edges[i].source == source && edges[i].dest == dest {
          return Some(DuplicateEdge(source, dest));
        }
        assert edges[..i + 1] == edges[..i] + [edges[i]];
        i := i + 1;
      }
      assert edges[..i] == edges;
      err := None;
    }

    /** `edge_for_input` on this network's edges. */
    method EdgeForInput(dest: PortRef) returns (r: Result<Edge, Error>)
      ensures r.Ok? <==> FirstEdgeInto(edges, dest).Some?
      ensures r.Ok? ==> r.value == FirstEdgeInto(edges, dest).value
      ensures r.Err? ==> r.error == MissingFeederEdge(dest)
    {
      r := FindEdgeFor(edges, dest);
    }

    /** Appends an edge after the duplicate check; shared by both kinds of
        edge creation once their ends are found. */
    method AppendEdge(source: Source, dest: PortRef) returns (err: Option<Error>)
      requires Valid() && EdgesWf(nodes, terminals.Keys, [Edge(source, dest)])
      modifies this`edges
      ensures Valid()
      ensures err.None? <==> Edge(source, dest) !in old(edges)
      ensures err.Some? ==> err == Some(DuplicateEdge(source, dest)) && edges == old(edges)
      ensures err.None? ==> edges == old(edges) + [Edge(source, dest)]
      ensures Coherent(nodes, old(edges)) &&
        (source.OutputSrc? ==> FirstEdgeInto(old(edges), dest).Some? || nodes[dest.node].isDirty || !nodes[source.node].isDirty)
        ==> Coherent(nodes, edges)
    {
      err := AssertNotDuplicateEdge(source, dest);
      if err.Some? {
        return;
      }
      AppendEdgeWf(nodes, nodeOrder, terminals, terminalOrder, edges, Edge(source, dest));
      if Coherent(nodes, edges) &&
        (source.OutputSrc? ==> FirstEdgeInto(edges, dest).Some? || nodes[dest.node].isDirty || !nodes[source.node].isDirty) {
        AppendKeepsCoherent(nodes, edges, Edge(source, dest));
      }
      edges := edges + [Edge(source, dest)];
    }

    /** `create_terminal_edge`: terminal, node and input port are looked up
        in that order, then the duplicate check runs, then the edge is
        appended. */
    method CreateTerminalEdge(t: Name, n: Name, p: Name) returns (err: Option<Error>)
      requires Valid()
      modifies this`edges
      ensures Valid()
      ensures t !in terminals ==> err == Some(UnknownTerminal(t))
      ensures t in terminals && n !in nodes ==> err == Some(UnknownNode(n))
      ensures t in terminals && n in nodes && p !in nodes[n].inputPorts ==> err == Some(UnknownInputPort(n, p))
      ensures (t in terminals && n in nodes && p in nodes[n].inputPorts &&
               Edge(TerminalSrc(t), PortRef(n, p)) in old(edges)) ==>
        err == Some(DuplicateEdge(TerminalSrc(t), PortRef(n, p)))
      ensures err.Some? ==> edges == old(edges)
      ensures err.None? <==>
        t in terminals && n in nodes && p in nodes[n].inputPorts && Edge(TerminalSrc(t), PortRef(n, p)) !in old(edges)
      ensures err.None? ==> edges == old(edges) + [Edge(TerminalSrc(t), PortRef(n, p))]
      ensures t in terminals && n in nodes && p in nodes[n].inputPorts ==>
        Applied(err, Snapshot()) == WithEdge(old(Snapshot()), Edge(TerminalSrc(t), PortRef(n, p)))
      ensures Coherent(nodes, old(edges)) ==> Coherent(nodes, edges)
    {
      if t !in terminals {
        return Some(UnknownTerminal(t));
      }
      if n !in nodes {
        return Some(UnknownNode(n));
      }
      if p !in nodes[n].inputPorts {
        return Some(UnknownInputPort(n, p));
      }
      err := AppendEdge(TerminalSrc(t), PortRef(n, p));
    }

    /** `create_output_to_input_edge`: upstream node and output port, then
        downstream node and input port are looked up, then the duplicate
        check runs, then the edge is appended. */
    method CreateOutputToInputEdge(u: Name, o: Name, n: Name, p: Name) returns (err: Option<Error>)
      requires Valid()
      modifies this`edges
      ensures Valid()
      ensures u !in nodes ==> err == Some(UnknownNode(u))
      ensures u in nodes && o !in nodes[u].outputPorts ==> err == Some(UnknownOutputPort(u, o))
      ensures u in nodes && o in nodes[u].outputPorts && n !in nodes ==> err == Some(UnknownNode(n))
      ensures u in nodes && o in nodes[u].outputPorts && n in nodes && p !in nodes[n].inputPorts ==>
        err == Some(UnknownInputPort(n, p))
      ensures (u in nodes && o in nodes[u].outputPorts && n in nodes && p in nodes[n].inputPorts &&
               Edge(OutputSrc(u, o), PortRef(n, p)) in old(edges)) ==>
        err == Some(DuplicateEdge(OutputSrc(u, o), PortRef(n, p)))
      ensures err.Some? ==> edges == old(edges)
      ensures err.None? <==>
        u in nodes && o in nodes[u].outputPorts && n in nodes && p in nodes[n].inputPorts &&
        Edge(OutputSrc(u, o), PortRef(n, p)) !in old(edges)
      ensures err.None? ==> edges == old(edges) + [Edge(OutputSrc(u, o), PortRef(n, p))]
      ensures u in nodes && o in nodes[u].outputPorts && n in nodes && p in nodes[n].inputPorts ==>
        Applied(err, Snapshot()) == WithEdge(old(Snapshot()), Edge(OutputSrc(u, o), PortRef(n, p)))
      ensures Coherent(nodes, old(edges)) &&
        (FirstEdgeInto(old(edges), PortRef(n, p)).Some? || n !in nodes || nodes[n].isDirty || (u in nodes && !nodes[u].isDirty))
        ==> Coherent(nodes, edges)
    {
      if u !in nodes {
        return Some(UnknownNode(u));
      }
      if o !in nodes[u].outputPorts {
        return Some(UnknownOutputPort(u, o));
      }
      if n !in nodes {
        return Some(UnknownNode(n));
      }
      if p !in nodes[n].inputPorts {
        return Some(UnknownInputPort(n, p));
      }
      err := AppendEdge(OutputSrc(u, o), PortRef(n, p));
    }

    /** `set_xfn`: replaces the node's transfer function. */
    method SetXfn(n: Name, f: Option<Xfn>) returns (err: Option<Error>)
      requires Valid()
      modifies this`nodes
      ensures Valid()
      ensures n !in old(nodes) ==> err == Some(UnknownNode(n)) && nodes == old(nodes)
      ensures n in old(nodes) ==> err.None? && nodes == old(nodes)[n := Nodes.SetXfn(old(nodes)[n], f)]
      ensures Coherent(old(nodes), edges) ==> Coherent(nodes, edges)
    {
      if n !in nodes {
        return Some(UnknownNode(n));
      }
      SetXfnWf(nodes, nodeOrder, terminals, terminalOrder, edges, n, f);
      nodes := nodes[n := Nodes.SetXfn(nodes[n], f)];
      err := None;
    }

    /** `set_terminal_value`: stores the value, then marks every node
        downstream of the terminal dirty, whether or not the value changed. */
    method SetTerminalValue(t: Name, v: Option<Value>) returns (err: Option<Error>)
      requires Valid() && Acyclic(edges)
      modifies this`terminals, this`nodes
      ensures Valid()
      ensures TerminalWritten(old(nodes), nodes, old(terminals), terminals, edges, t, v, err)
    {
      var written, dirtied;
      err, written, dirtied := WriteTerminal(nodes, nodeOrder, terminals, terminalOrder, edges, t, v);
      terminals, nodes := written, dirtied;
    }

    /** `get_output_port_value`: the integrity check first; then the
        recursive read. */
    method GetOutputPortValue(n: Name, p: Name) returns (r: Result<Option<Value>, Error>, ghost fires: seq<Name>)
      requires Valid() && Acyclic(edges)
      modifies this`nodes, this`fired
      ensures Valid()
      ensures fired == old(fired) + fires
      ensures CheckedOutcome(old(nodes), nodes, nodeOrder, terminals, terminalOrder, edges, n, p, r, fires)
    {
      var after;
      r, after, fires := CheckedRead(nodes, nodeOrder, terminals, terminalOrder, edges, n, p);
      nodes := after;
      fired := fired + fires;
    }
  }
}
