/** What a read of an output port (api/network.py, `_get_output_port_value`
    and `_refresh_inputs_recursively`) guarantees, stated over the node map
    before and after the read. */
module Evaluation {
  import opened Names
  import opened Outcomes
  import opened Entities
  import opened Nodes
  import opened Graph

  /** Every node is stored under its own name and owns its ports. */
  ghost predicate NodesWf(nodes: map<Name, Node>)
  {
    forall m | m in nodes :: nodes[m].name == m && PortsOwned(nodes[m])
  }

  /** Every node has a transfer function: what the integrity check ensures
      before a read recurses. */
  ghost predicate AllXfns(nodes: map<Name, Node>)
  {
    forall m | m in nodes :: nodes[m].xfn.Some?
  }

  /** The node feeding input port `d` through its first feeder edge, if that
      edge comes from an output port. */
  function FirstFeederNode(edges: seq<Edge>, d: PortRef): Option<Name>
  {
    match FirstEdgeInto(edges, d)
    case Some(Edge(OutputSrc(u, _), _)) => Some(u)
    case _ => None
  }

  /** Input port `q` of `n` holds what its first feeder currently offers: the
      terminal's value, or the output port's value of a clean upstream node. */
  ghost predicate InputFresh(nodes: map<Name, Node>, terminals: map<Name, Terminal>, edges: seq<Edge>, n: Name, q: Name)
    requires n in nodes && q in nodes[n].inputPorts
  {
    match FirstEdgeInto(edges, PortRef(n, q))
    case None => false
    case Some(Edge(TerminalSrc(t), _)) =>
      t in terminals && nodes[n].inputPorts[q].value == terminals[t].value
    case Some(Edge(OutputSrc(u, o), _)) =>
      && u in nodes && o in nodes[u].outputPorts && !nodes[u].isDirty
      && nodes[n].inputPorts[q].value == GetValue(nodes[u].outputPorts[o])
  }

  ghost predicate InputsFresh(nodes: map<Name, Node>, terminals: map<Name, Terminal>, edges: seq<Edge>, n: Name)
    requires n in nodes
  {
    forall q | q in nodes[n].inputPorts :: InputFresh(nodes, terminals, edges, n, q)
  }

  /** A clean node's first feeders are clean: the invariant under which
      "clean" means "up to date with everything upstream". */
  ghost predicate Coherent(nodes: map<Name, Node>, edges: seq<Edge>)
  {
    forall m, q | m in nodes && q in nodes[m].inputPorts && !nodes[m].isDirty ::
      var f := FirstFeederNode(edges, PortRef(m, q));
      f.Some? ==> f.value in nodes && !nodes[f.value].isDirty
  }

  /** The input port names of each node: all that the first-feeder relation
      looks at besides the edges. */
  function Ins(nodes: map<Name, Node>): (ins: map<Name, set<Name>>)
    ensures ins.Keys == nodes.Keys
    ensures forall m | m in nodes :: ins[m] == nodes[m].inputPorts.Keys
  {
    map m | m in nodes :: nodes[m].inputPorts.Keys
  }

  /** `u` feeds `m` through the first feeder edge of one of `m`'s inputs. */
  ghost predicate FeedsFirst(ins: map<Name, set<Name>>, edges: seq<Edge>, u: Name, m: Name)
  {
    m in ins && exists q | q in ins[m] :: FirstFeederNode(edges, PortRef(m, q)) == Some(u)
  }

  /** A chain of first feeders, upstream first. */
  ghost predicate UpPath(ins: map<Name, set<Name>>, edges: seq<Edge>, p: seq<Name>)
  {
    |p| >= 1 && forall i | 0 <= i < |p| - 1 :: FeedsFirst(ins, edges, p[i], p[i + 1])
  }

  /** `m` is `n` or transitively feeds it through first feeders: the nodes a
      read of `n` may reach. */
  ghost predicate Upstream(ins: map<Name, set<Name>>, edges: seq<Edge>, m: Name, n: Name)
  {
    exists p :: UpPath(ins, edges, p) && p[0] == m && p[|p| - 1] == n
  }

  /** A chain of first feeders whose nodes are all dirty in `nodes`. */
  ghost predicate DirtyPath(nodes: map<Name, Node>, edges: seq<Edge>, p: seq<Name>)
  {
    UpPath(Ins(nodes), edges, p) && forall i | 0 <= i < |p| :: p[i] in nodes && nodes[p[i]].isDirty
  }

  /** `m` is `n` or transitively feeds it through first feeders, along a
      chain of dirty nodes: the nodes a read of `n` actually reaches, since
      the read stops at a clean node and answers from its cached outputs. */
  ghost predicate DirtyUpstream(nodes: map<Name, Node>, edges: seq<Edge>, m: Name, n: Name)
  {
    exists p :: DirtyPath(nodes, edges, p) && p[0] == m && p[|p| - 1] == n
  }

  lemma DirtyUpstreamSelf(nodes: map<Name, Node>, edges: seq<Edge>, n: Name)
    requires n in nodes && nodes[n].isDirty
    ensures DirtyUpstream(nodes, edges, n, n)
  {
    assert DirtyPath(nodes, edges, [n]);
  }

  lemma DirtyUpstreamExtend(nodes: map<Name, Node>, edges: seq<Edge>, m: Name, u: Name, n: Name)
    requires DirtyUpstream(nodes, edges, m, u) && FeedsFirst(Ins(nodes), edges, u, n)
    requires n in nodes && nodes[n].isDirty
    ensures DirtyUpstream(nodes, edges, m, n)
  {
    var p :| DirtyPath(nodes, edges, p) && p[0] == m && p[|p| - 1] == u;
    var p' := p + [n];
    forall i | 0 <= i < |p'| - 1 ensures FeedsFirst(Ins(nodes), edges, p'[i], p'[i + 1]) {
      if i < |p| - 1 {
        assert p'[i] == p[i] && p'[i + 1] == p[i + 1];
      }
    }
    forall i | 0 <= i < |p'| ensures p'[i] in nodes && nodes[p'[i]].isDirty {
      if i < |p| { assert p'[i] == p[i]; }
    }
    assert DirtyPath(nodes, edges, p');
  }

  /** A node dirty after some reads was dirty before them, so a dirty chain
      then was one before. */
  lemma DirtyUpstreamRebase(a: map<Name, Node>, b: map<Name, Node>, edges: seq<Edge>, m: Name, n: Name)
    requires SameShape(a, b) && CleanKept(a, b)
    requires DirtyUpstream(b, edges, m, n)
    ensures DirtyUpstream(a, edges, m, n)
  {
    assert Ins(b) == Ins(a);
    var p :| DirtyPath(b, edges, p) && p[0] == m && p[|p| - 1] == n;
    forall i | 0 <= i < |p| ensures p[i] in a && a[p[i]].isDirty {
      assert p[i] in b && b[p[i]].isDirty;
    }
    assert DirtyPath(a, edges, p);
  }

  lemma UpstreamSelf(ins: map<Name, set<Name>>, edges: seq<Edge>, n: Name)
    ensures Upstream(ins, edges, n, n)
  {
    assert UpPath(ins, edges, [n]);
  }

  lemma UpstreamExtend(ins: map<Name, set<Name>>, edges: seq<Edge>, m: Name, u: Name, n: Name)
    requires Upstream(ins, edges, m, u) && FeedsFirst(ins, edges, u, n)
    ensures Upstream(ins, edges, m, n)
  {
    var p :| UpPath(ins, edges, p) && p[0] == m && p[|p| - 1] == u;
    var p' := p + [n];
    forall i | 0 <= i < |p'| - 1 ensures FeedsFirst(ins, edges, p'[i], p'[i + 1]) {
      if i < |p| - 1 {
        assert p'[i] == p[i] && p'[i + 1] == p[i + 1];
      }
    }
    assert UpPath(ins, edges, p');
  }

  /** Under coherence, a clean node has every node transitively feeding it
      clean. */
  lemma {:induction false} CleanUpstream(nodes: map<Name, Node>, edges: seq<Edge>, p: seq<Name>)
    requires Coherent(nodes, edges) && UpPath(Ins(nodes), edges, p)
    requires p[|p| - 1] in nodes && !nodes[p[|p| - 1]].isDirty
    ensures forall i | 0 <= i < |p| :: p[i] in nodes && !nodes[p[i]].isDirty
    decreases |p|
  {
    if |p| > 1 {
      var before := p[..|p| - 1];
      CoherentStep(nodes, edges, p[|p| - 2], p[|p| - 1]);
      UpPathInit(Ins(nodes), edges, p);
      CleanUpstream(nodes, edges, before);
      forall i | 0 <= i < |p| ensures p[i] in nodes && !nodes[p[i]].isDirty {
        if i < |p| - 1 { assert p[i] == before[i]; }
      }
    }
  }

  /** Under coherence, the first feeder of a clean node is clean. */
  lemma CoherentStep(nodes: map<Name, Node>, edges: seq<Edge>, u: Name, m: Name)
    requires Coherent(nodes, edges) && m in nodes && !nodes[m].isDirty && FeedsFirst(Ins(nodes), edges, u, m)
    ensures u in nodes && !nodes[u].isDirty
  {
    var q :| q in nodes[m].inputPorts && FirstFeederNode(edges, PortRef(m, q)) == Some(u);
  }

  /** A chain of first feeders without its last node is one still. */
  lemma UpPathInit(ins: map<Name, set<Name>>, edges: seq<Edge>, p: seq<Name>)
    requires UpPath(ins, edges, p) && |p| > 1
    ensures UpPath(ins, edges, p[..|p| - 1])
  {
    var before := p[..|p| - 1];
    forall i | 0 <= i < |before| - 1 ensures FeedsFirst(ins, edges, before[i], before[i + 1]) {
      assert before[i] == p[i] && before[i + 1] == p[i + 1];
    }
  }

  /** Two node maps hold the same nodes with the same names, transfer
      functions and ports; only values and dirty flags may differ. */
  ghost predicate SameNodeShape(x: Node, y: Node)
  {
    && y.name == x.name && y.xfn == x.xfn
    && y.inputPorts.Keys == x.inputPorts.Keys && y.outputPorts.Keys == x.outputPorts.Keys
    && (forall q | q in x.inputPorts :: y.inputPorts[q].name == x.inputPorts[q].name && y.inputPorts[q].node == x.inputPorts[q].node)
    && (forall q | q in x.outputPorts :: y.outputPorts[q].name == x.outputPorts[q].name && y.outputPorts[q].node == x.outputPorts[q].node)
  }

  ghost predicate SameShape(a: map<Name, Node>, b: map<Name, Node>)
  {
    a.Keys == b.Keys && forall m | m in a :: SameNodeShape(a[m], b[m])
  }

  /** Clean nodes are left exactly as they were. */
  ghost predicate CleanKept(a: map<Name, Node>, b: map<Name, Node>)
    requires a.Keys <= b.Keys
  {
    forall m | m in a && !a[m].isDirty :: b[m] == a[m]
  }

  /** Node `m` of table `b` as it stood when its transfer function was
      called: its inputs and transfer function as in `b`, dirty, and the
      output values it had in `a`. */
  function FiredFrom(a: map<Name, Node>, b: map<Name, Node>, m: Name): Node
    requires m in a && m in b
  {
    b[m].(outputPorts := a[m].outputPorts, isDirty := true)
  }

  /** Node `m` was fired on fresh inputs and holds what that call left in
      it, starting from its output values in `a`. */
  ghost predicate Settled(a: map<Name, Node>, b: map<Name, Node>, terminals: map<Name, Terminal>, edges: seq<Edge>, m: Name)
  {
    && m in a && m in b && b[m].xfn.Some?
    && InputsFresh(b, terminals, edges, m)
    && Fire(FiredFrom(a, b, m)).0 == b[m]
  }

  /** Output values change only by firing: a node still dirty in `b` has
      the output ports it had in `a`. */
  ghost predicate OutputsKept(a: map<Name, Node>, b: map<Name, Node>)
  {
    forall m | m in a && m in b && b[m].isDirty :: b[m].outputPorts == a[m].outputPorts
  }

  /** Every node that went from dirty in `a` to clean in `b` was fired on
      fresh inputs and holds the result. */
  ghost predicate Recomputed(a: map<Name, Node>, b: map<Name, Node>, terminals: map<Name, Terminal>, edges: seq<Edge>)
  {
    forall m | m in a && m in b && a[m].isDirty && !b[m].isDirty :: Settled(a, b, terminals, edges, m)
  }

  /** An input of a node reaching `n` through dirty first feeders has no
      edge into it, and `e` is the error that reports it. */
  ghost predicate MissingFeeder(a: map<Name, Node>, edges: seq<Edge>, n: Name, e: Error)
  {
    exists m, q :: && DirtyUpstream(a, edges, m, n) && m in a && q in a[m].inputPorts
                   && FirstEdgeInto(edges, PortRef(m, q)).None? && e == MissingFeederEdge(PortRef(m, q))
  }

  /** The transfer function of a node reaching `n` through dirty first
      feeders, fired on fresh inputs, named an undeclared output port, and
      `e` is the setter's error. */
  ghost predicate FailedFire(a: map<Name, Node>, b: map<Name, Node>, terminals: map<Name, Terminal>, edges: seq<Edge>,
                             n: Name, e: Error)
  {
    exists m :: && DirtyUpstream(a, edges, m, n) && m in a
                && Settled(a, b, terminals, edges, m) && Fire(FiredFrom(a, b, m)).1 == Some(e)
  }

  /** The reasons a read of `n` may fail once its node and port exist. */
  ghost predicate ReadError(a: map<Name, Node>, b: map<Name, Node>, terminals: map<Name, Terminal>, edges: seq<Edge>,
                            n: Name, e: Error)
  {
    MissingFeeder(a, edges, n, e) || FailedFire(a, b, terminals, edges, n, e)
  }

  /** The firing log of a read: each fired node was dirty when the read
      began, ranks no higher than `bound`, fires once, and every node the read
      made clean is among them; on success they are all clean and no output
      value changed except by a firing. */
  ghost predicate FiresOk(a: map<Name, Node>, b: map<Name, Node>, rk: Ranking, bound: nat, fires: seq<Name>, ok: bool)
    requires a.Keys == b.Keys
  {
    && Distinct(fires)
    && (forall m | m in fires :: m in a && a[m].isDirty && Up(rk, m) <= bound)
    && (forall m | m in a && a[m].isDirty && !b[m].isDirty :: m in fires)
    && (ok ==> forall m | m in fires :: !b[m].isDirty)
    && (ok ==> OutputsKept(a, b))
  }

  /** Everything `_get_output_port_value(n, p)` promises, from node map `a`
      to node map `b`, with result `r` and the transfer functions it fired. */
  ghost predicate PullOutcome(a: map<Name, Node>, b: map<Name, Node>, terminals: map<Name, Terminal>, edges: seq<Edge>,
                              rk: Ranking, n: Name, p: Name, r: Result<Option<Value>, Error>, fires: seq<Name>)
  {
    && SameShape(a, b) && CleanKept(a, b)
    && (forall m | m in a && b[m] != a[m] :: Up(rk, m) <= Up(rk, n))
    && FiresOk(a, b, rk, Up(rk, n), fires, r.Ok?)
    && (forall m | m in fires :: DirtyUpstream(a, edges, m, n))
    && (n !in a ==> r == Err(UnknownNode(n)) && b == a && fires == [])
    && (n in a && p !in a[n].outputPorts ==> r == Err(UnknownOutputPort(n, p)) && b == a && fires == [])
    && (n in a && p in a[n].outputPorts && !a[n].isDirty ==> r == Ok(GetValue(a[n].outputPorts[p])) && b == a && fires == [])
    && (r.Ok? ==> n in b && p in b[n].outputPorts && !b[n].isDirty && r.value == GetValue(b[n].outputPorts[p]))
    && (r.Ok? && n in a && a[n].isDirty && b[n].xfn.Some? ==>
          InputsFresh(b, terminals, edges, n) &&
          (b[n], None) == Fire(b[n].(outputPorts := a[n].outputPorts, isDirty := true)))
    && (r.Err? && n in b && p in b[n].outputPorts ==> b[n].isDirty)
    && (forall m | m in fires :: Settled(a, b, terminals, edges, m))
    && (r.Err? && n in a && p in a[n].outputPorts ==> ReadError(a, b, terminals, edges, n, r.error))
    && (Coherent(a, edges) ==> Coherent(b, edges))
  }

  /** Everything `_refresh_inputs_recursively(n)` promises for a dirty node
      `n`: only `n`'s input port values and nodes ranked below `n` change;
      on success every input of `n` is fresh. */
  ghost predicate RefreshOutcome(a: map<Name, Node>, b: map<Name, Node>, terminals: map<Name, Terminal>, edges: seq<Edge>,
                                 rk: Ranking, n: Name, err: Option<Error>, fires: seq<Name>)
    requires n in a
  {
    && SameShape(a, b) && CleanKept(a, b)
    && (forall m | m in a && m != n && b[m] != a[m] :: Up(rk, m) < Up(rk, n))
    && b[n] == a[n].(inputPorts := b[n].inputPorts)
    && FiresOk(a, b, rk, Up(rk, n), fires, err.None?)
    && (forall m | m in fires :: Up(rk, m) < Up(rk, n) && DirtyUpstream(a, edges, m, n))
    && (err.None? ==> InputsFresh(b, terminals, edges, n))
    && (forall m | m in fires :: Settled(a, b, terminals, edges, m))
    && (err.Some? ==> ReadError(a, b, terminals, edges, n, err.value))
    && (Coherent(a, edges) ==> Coherent(b, edges))
  }

  /** Progress of `_refresh_inputs_recursively(n)` after the input ports
      `done`: as `RefreshOutcome`, with those ports fresh when `ok`. */
  ghost predicate RefreshProgress(a: map<Name, Node>, b: map<Name, Node>, terminals: map<Name, Terminal>, edges: seq<Edge>,
                                  rk: Ranking, n: Name, done: seq<Name>, fires: seq<Name>, ok: bool)
    requires n in a
  {
    && SameShape(a, b) && CleanKept(a, b)
    && (forall m | m in a && m != n && b[m] != a[m] :: Up(rk, m) < Up(rk, n))
    && b[n] == a[n].(inputPorts := b[n].inputPorts)
    && FiresOk(a, b, rk, Up(rk, n), fires, ok)
    && (forall m | m in fires :: Up(rk, m) < Up(rk, n) && DirtyUpstream(a, edges, m, n))
    && (ok ==> forall q | q in done :: q in b[n].inputPorts && InputFresh(b, terminals, edges, n, q))
    && (forall m | m in fires :: Settled(a, b, terminals, edges, m))
    && (Coherent(a, edges) ==> Coherent(b, edges))
  }

  lemma DistinctConcat(x: seq<Name>, y: seq<Name>)
    requires Distinct(x) && Distinct(y)
    requires forall m | m in x :: m !in y
    ensures Distinct(x + y)
  {
    var z := x + y;
    forall i, j | 0 <= i < j < |z| ensures z[i] != z[j] {
      if i < |x| && j >= |x| {
        assert z[i] in x && z[j] == y[j - |x|];
      } else if i >= |x| {
        assert z[i] == y[i - |x|] && z[j] == y[j - |x|];
      }
    }
  }

  lemma ProgressStart(a: map<Name, Node>, terminals: map<Name, Terminal>, edges: seq<Edge>, rk: Ranking, n: Name)
    requires n in a
    ensures RefreshProgress(a, a, terminals, edges, rk, n, [], [], true)
  {
  }

  lemma ShapeTrans(a: map<Name, Node>, b: map<Name, Node>, c: map<Name, Node>)
    requires SameShape(a, b) && SameShape(b, c)
    ensures SameShape(a, c)
  {
    forall m | m in a ensures SameNodeShape(a[m], c[m]) {
      assert SameNodeShape(a[m], b[m]) && SameNodeShape(b[m], c[m]);
    }
  }

  lemma KeptTrans(a: map<Name, Node>, b: map<Name, Node>, c: map<Name, Node>)
    requires a.Keys == b.Keys == c.Keys
    requires CleanKept(a, b) && CleanKept(b, c)
    ensures CleanKept(a, c)
  {
  }

  /** Two reads in a row: their firing logs concatenate. */
  lemma FiresCompose(a: map<Name, Node>, b: map<Name, Node>, c: map<Name, Node>, rk: Ranking, bound: nat,
                     f1: seq<Name>, f2: seq<Name>, ok: bool)
    requires a.Keys == b.Keys == c.Keys
    requires CleanKept(a, b) && CleanKept(b, c)
    requires FiresOk(a, b, rk, bound, f1, true)
    requires FiresOk(b, c, rk, bound, f2, ok)
    ensures FiresOk(a, c, rk, bound, f1 + f2, ok)
  {
    forall m | m in f1 ensures m !in f2 {
      assert !b[m].isDirty;
    }
    DistinctConcat(f1, f2);
    forall m | m in f1 + f2 ensures m in a && a[m].isDirty && Up(rk, m) <= bound {
      if m in f2 {
        assert b[m].isDirty;
      }
    }
    forall m | m in a && a[m].isDirty && !c[m].isDirty ensures m in f1 + f2 {
      if !b[m].isDirty { assert m in f1; } else { assert m in f2; }
    }
    if ok {
      forall m | m in f1 + f2 ensures !c[m].isDirty {
        if m in f1 { assert !b[m].isDirty && c[m] == b[m]; }
      }
      forall m | m in a && m in c && c[m].isDirty ensures c[m].outputPorts == a[m].outputPorts {
        assert b[m].isDirty;
      }
    }
  }

  lemma FreshKept(b: map<Name, Node>, c: map<Name, Node>, terminals: map<Name, Terminal>, edges: seq<Edge>,
                  n: Name, done: seq<Name>)
    requires b.Keys == c.Keys && n in b && CleanKept(b, c) && c[n] == b[n]
    requires forall q | q in done :: q in b[n].inputPorts && InputFresh(b, terminals, edges, n, q)
    ensures forall q | q in done :: q in c[n].inputPorts && InputFresh(c, terminals, edges, n, q)
  {
    forall q | q in done ensures q in c[n].inputPorts && InputFresh(c, terminals, edges, n, q) {
      assert InputFresh(b, terminals, edges, n, q);
      match FirstEdgeInto(edges, PortRef(n, q))
      case Some(Edge(OutputSrc(v, _), _)) =>
        assert c[v] == b[v];
      case _ =>
    }
  }

  /** A settled node that is clean stays settled while clean nodes are
      kept: its feeders are clean too. */
  lemma SettledKept(a: map<Name, Node>, b: map<Name, Node>, c: map<Name, Node>, terminals: map<Name, Terminal>,
                    edges: seq<Edge>, m: Name)
    requires Settled(a, b, terminals, edges, m) && !b[m].isDirty
    requires b.Keys == c.Keys && CleanKept(b, c)
    ensures Settled(a, c, terminals, edges, m)
  {
    forall q | q in c[m].inputPorts ensures InputFresh(c, terminals, edges, m, q) {
      assert InputFresh(b, terminals, edges, m, q);
      match FirstEdgeInto(edges, PortRef(m, q))
      case Some(Edge(OutputSrc(u, _), _)) =>
        assert c[u] == b[u];
      case _ =>
    }
  }

  lemma AllSettledKept(a: map<Name, Node>, b: map<Name, Node>, c: map<Name, Node>, terminals: map<Name, Terminal>,
                       edges: seq<Edge>, fires: seq<Name>)
    requires forall m | m in fires :: Settled(a, b, terminals, edges, m) && !b[m].isDirty
    requires b.Keys == c.Keys && CleanKept(b, c)
    ensures forall m | m in fires :: Settled(a, c, terminals, edges, m)
  {
    forall m | m in fires ensures Settled(a, c, terminals, edges, m) {
      SettledKept(a, b, c, terminals, edges, m);
    }
  }

  /** A node settled by a later read, and dirty until then, is settled with
      respect to the start: its output values were still those of `a`. */
  lemma SettledRebase(a: map<Name, Node>, b: map<Name, Node>, c: map<Name, Node>, terminals: map<Name, Terminal>,
                      edges: seq<Edge>, m: Name)
    requires Settled(b, c, terminals, edges, m) && m in a && b[m].isDirty && OutputsKept(a, b)
    ensures Settled(a, c, terminals, edges, m)
  {
    assert FiredFrom(a, c, m) == FiredFrom(b, c, m);
  }

  /** The settled nodes of two reads in a row. */
  lemma SettledCompose(a: map<Name, Node>, b: map<Name, Node>, c: map<Name, Node>, terminals: map<Name, Terminal>,
                       edges: seq<Edge>, f1: seq<Name>, f2: seq<Name>)
    requires a.Keys == b.Keys == c.Keys && CleanKept(b, c) && OutputsKept(a, b)
    requires forall m | m in f1 :: Settled(a, b, terminals, edges, m) && !b[m].isDirty
    requires forall m | m in f2 :: Settled(b, c, terminals, edges, m) && b[m].isDirty
    ensures forall m | m in f1 + f2 :: Settled(a, c, terminals, edges, m)
  {
    AllSettledKept(a, b, c, terminals, edges, f1);
    forall m | m in f2 ensures Settled(a, c, terminals, edges, m) {
      SettledRebase(a, b, c, terminals, edges, m);
    }
  }

  /** The reason a read of `u` failed, seen from the start of a read of `n`
      that `u` feeds (or of `n` itself). */
  lemma ReadErrorRebase(a: map<Name, Node>, b: map<Name, Node>, c: map<Name, Node>, terminals: map<Name, Terminal>,
                        edges: seq<Edge>, u: Name, n: Name, e: Error)
    requires SameShape(a, b) && CleanKept(a, b) && OutputsKept(a, b)
    requires u == n || (FeedsFirst(Ins(a), edges, u, n) && n in a && a[n].isDirty)
    requires ReadError(b, c, terminals, edges, u, e)
    ensures ReadError(a, c, terminals, edges, n, e)
  {
    if MissingFeeder(b, edges, u, e) {
      MissingRebase(a, b, edges, u, n, e);
    } else {
      FailedFireRebase(a, b, c, terminals, edges, u, n, e);
    }
  }

  lemma MissingRebase(a: map<Name, Node>, b: map<Name, Node>, edges: seq<Edge>, u: Name, n: Name, e: Error)
    requires SameShape(a, b) && CleanKept(a, b)
    requires u == n || (FeedsFirst(Ins(a), edges, u, n) && n in a && a[n].isDirty)
    requires MissingFeeder(b, edges, u, e)
    ensures MissingFeeder(a, edges, n, e)
  {
    var m, q :| && DirtyUpstream(b, edges, m, u) && m in b && q in b[m].inputPorts
                && FirstEdgeInto(edges, PortRef(m, q)).None? && e == MissingFeederEdge(PortRef(m, q));
    DirtyUpstreamRebase(a, b, edges, m, u);
    if u != n {
      DirtyUpstreamExtend(a, edges, m, u, n);
    }
    assert SameNodeShape(a[m], b[m]);
  }

  lemma FailedFireRebase(a: map<Name, Node>, b: map<Name, Node>, c: map<Name, Node>, terminals: map<Name, Terminal>,
                         edges: seq<Edge>, u: Name, n: Name, e: Error)
    requires SameShape(a, b) && CleanKept(a, b) && OutputsKept(a, b)
    requires u == n || (FeedsFirst(Ins(a), edges, u, n) && n in a && a[n].isDirty)
    requires FailedFire(b, c, terminals, edges, u, e)
    ensures FailedFire(a, c, terminals, edges, n, e)
  {
    var m :| && DirtyUpstream(b, edges, m, u) && m in b
             && Settled(b, c, terminals, edges, m) && Fire(FiredFrom(b, c, m)).1 == Some(e);
    DirtyUpstreamRebase(a, b, edges, m, u);
    assert b[m].isDirty by {
      var p :| DirtyPath(b, edges, p) && p[0] == m && p[|p| - 1] == u;
    }
    if u != n {
      DirtyUpstreamExtend(a, edges, m, u, n);
    }
    SettledRebase(a, b, c, terminals, edges, m);
    assert FiredFrom(a, c, m) == FiredFrom(b, c, m);
  }

  /** The fires of a read of `u`, which feeds `n`, are upstream of `n` and
      ranked below it. */
  lemma UpstreamCompose(a: map<Name, Node>, b: map<Name, Node>, edges: seq<Edge>, rk: Ranking, u: Name, n: Name,
                        f1: seq<Name>, f2: seq<Name>)
    requires SameShape(a, b) && CleanKept(a, b) && FeedsFirst(Ins(a), edges, u, n) && Up(rk, u) < Up(rk, n)
    requires n in a && a[n].isDirty
    requires forall m | m in f1 :: Up(rk, m) < Up(rk, n) && DirtyUpstream(a, edges, m, n)
    requires forall m | m in f2 :: Up(rk, m) <= Up(rk, u) && DirtyUpstream(b, edges, m, u)
    ensures forall m | m in f1 + f2 :: Up(rk, m) < Up(rk, n) && DirtyUpstream(a, edges, m, n)
  {
    forall m | m in f2 ensures DirtyUpstream(a, edges, m, n) {
      DirtyUpstreamRebase(a, b, edges, m, u);
      DirtyUpstreamExtend(a, edges, m, u, n);
    }
  }

  /** The read of an upstream output port keeps the progress made so far. */
  lemma ProgressPull(a: map<Name, Node>, b: map<Name, Node>, c: map<Name, Node>, terminals: map<Name, Terminal>,
                     edges: seq<Edge>, rk: Ranking, n: Name, done: seq<Name>, f1: seq<Name>,
                     u: Name, o: Name, r: Result<Option<Value>, Error>, f2: seq<Name>)
    requires n in a && a[n].isDirty
    requires RefreshProgress(a, b, terminals, edges, rk, n, done, f1, true)
    requires PullOutcome(b, c, terminals, edges, rk, u, o, r, f2)
    requires Up(rk, u) < Up(rk, n) && FeedsFirst(Ins(a), edges, u, n)
    ensures RefreshProgress(a, c, terminals, edges, rk, n, done, f1 + f2, r.Ok?)
  {
    UpstreamCompose(a, b, edges, rk, u, n, f1, f2);
    ShapeTrans(a, b, c);
    KeptTrans(a, b, c);
    FiresCompose(a, b, c, rk, Up(rk, n), f1, f2, r.Ok?);
    assert c[n] == b[n];
    SettledCompose(a, b, c, terminals, edges, f1, f2);
    if r.Ok? {
      FreshKept(b, c, terminals, edges, n, done);
    }
  }

  /** The read of an upstream output port failed: the refresh stops with
      its error. */
  lemma ProgressPullFailed(a: map<Name, Node>, b: map<Name, Node>, c: map<Name, Node>, terminals: map<Name, Terminal>,
                           edges: seq<Edge>, rk: Ranking, n: Name, done: seq<Name>, f1: seq<Name>,
                           u: Name, o: Name, r: Result<Option<Value>, Error>, f2: seq<Name>)
    requires n in a && a[n].isDirty
    requires RefreshProgress(a, b, terminals, edges, rk, n, done, f1, true)
    requires PullOutcome(b, c, terminals, edges, rk, u, o, r, f2) && r.Err?
    requires u in b && o in b[u].outputPorts
    requires Up(rk, u) < Up(rk, n) && FeedsFirst(Ins(a), edges, u, n)
    ensures RefreshOutcome(a, c, terminals, edges, rk, n, Some(r.error), f1 + f2)
  {
    ProgressPull(a, b, c, terminals, edges, rk, n, done, f1, u, o, r, f2);
    ReadErrorRebase(a, b, c, terminals, edges, u, n, r.error);
  }

  /** Storing a value into one input port changes no shape, no dirty flag
      and no other port. */
  lemma SetPortFacts(c: map<Name, Node>, d: map<Name, Node>, edges: seq<Edge>, n: Name, q: Name, v: Option<Value>)
    requires n in c && q in c[n].inputPorts
    requires d == c[n := c[n].(inputPorts := c[n].inputPorts[q := c[n].inputPorts[q].(value := v)])]
    ensures SameShape(c, d)
    ensures forall m | m in c :: d[m].isDirty == c[m].isDirty
    ensures forall m | m in c && m != n :: d[m] == c[m]
    ensures Coherent(c, edges) ==> Coherent(d, edges)
  {
    assert SameNodeShape(c[n], d[n]);
  }

  lemma FreshAfterSet(c: map<Name, Node>, d: map<Name, Node>, terminals: map<Name, Terminal>, edges: seq<Edge>,
                      n: Name, done: seq<Name>, q: Name, v: Option<Value>)
    requires n in c && c[n].isDirty && q in c[n].inputPorts
    requires d == c[n := c[n].(inputPorts := c[n].inputPorts[q := c[n].inputPorts[q].(value := v)])]
    requires forall q' | q' in done :: q' in c[n].inputPorts && InputFresh(c, terminals, edges, n, q')
    requires InputFresh(d, terminals, edges, n, q)
    ensures forall q' | q' in done + [q] :: q' in d[n].inputPorts && InputFresh(d, terminals, edges, n, q')
  {
    forall q' | q' in done + [q] ensures q' in d[n].inputPorts && InputFresh(d, terminals, edges, n, q') {
      if q' != q {
        assert q' in done;
        assert InputFresh(c, terminals, edges, n, q');
        match FirstEdgeInto(edges, PortRef(n, q'))
        case Some(Edge(OutputSrc(w, _), _)) =>
          assert d[w] == c[w];
        case _ =>
      }
    }
  }

  /** The value offered along edge `e`, taken from table `c`, is fresh once
      stored into the input port `e` feeds first. */
  lemma FreshAfterStore(c: map<Name, Node>, d: map<Name, Node>, terminals: map<Name, Terminal>, edges: seq<Edge>,
                        n: Name, q: Name, e: Edge, v: Option<Value>)
    requires n in c && c[n].isDirty && q in c[n].inputPorts
    requires FirstEdgeInto(edges, PortRef(n, q)) == Some(e)
    requires e.source.TerminalSrc? ==> e.source.terminal in terminals && v == terminals[e.source.terminal].value
    requires e.source.OutputSrc? ==>
      && e.source.node in c && e.source.port in c[e.source.node].outputPorts && !c[e.source.node].isDirty
      && v == GetValue(c[e.source.node].outputPorts[e.source.port])
    requires d == c[n := c[n].(inputPorts := c[n].inputPorts[q := c[n].inputPorts[q].(value := v)])]
    ensures InputFresh(d, terminals, edges, n, q)
  {
    if e.source.OutputSrc? {
      assert e.source.node != n;
    }
  }

  /** Storing the value offered along `q`'s first edge into input port `q`
      of `n`. */
  lemma ProgressSet(a: map<Name, Node>, c: map<Name, Node>, d: map<Name, Node>, terminals: map<Name, Terminal>,
                    edges: seq<Edge>, rk: Ranking, n: Name, done: seq<Name>, f: seq<Name>, q: Name, e: Edge, v: Option<Value>)
    requires n in a && a[n].isDirty
    requires RefreshProgress(a, c, terminals, edges, rk, n, done, f, true)
    requires q in a[n].inputPorts
    requires FirstEdgeInto(edges, PortRef(n, q)) == Some(e)
    requires e.source.TerminalSrc? ==> e.source.terminal in terminals && v == terminals[e.source.terminal].value
    requires e.source.OutputSrc? ==>
      && e.source.node in c && e.source.port in c[e.source.node].outputPorts && !c[e.source.node].isDirty
      && v == GetValue(c[e.source.node].outputPorts[e.source.port])
    requires d == c[n := c[n].(inputPorts := c[n].inputPorts[q := c[n].inputPorts[q].(value := v)])]
    ensures RefreshProgress(a, d, terminals, edges, rk, n, done + [q], f, true)
  {
    assert SameNodeShape(a[n], c[n]);
    FreshAfterStore(c, d, terminals, edges, n, q, e, v);
    SetPortFacts(c, d, edges, n, q, v);
    ShapeTrans(a, c, d);
    FreshAfterSet(c, d, terminals, edges, n, done, q, v);
    assert d[n] == a[n].(inputPorts := d[n].inputPorts);
    SetKeepsFires(a, c, d, terminals, edges, rk, n, f, q, v);
  }

  /** Storing into an input port of the dirty node `n` keeps the firing
      log and the settled nodes. */
  lemma SetKeepsFires(a: map<Name, Node>, c: map<Name, Node>, d: map<Name, Node>, terminals: map<Name, Terminal>,
                      edges: seq<Edge>, rk: Ranking, n: Name, f: seq<Name>, q: Name, v: Option<Value>)
    requires n in a && a.Keys == c.Keys && CleanKept(a, c) && FiresOk(a, c, rk, Up(rk, n), f, true)
    requires forall m | m in f :: Settled(a, c, terminals, edges, m)
    requires n in c && c[n].isDirty && q in c[n].inputPorts
    requires d == c[n := c[n].(inputPorts := c[n].inputPorts[q := c[n].inputPorts[q].(value := v)])]
    ensures CleanKept(a, d) && FiresOk(a, d, rk, Up(rk, n), f, true)
    ensures forall m | m in f :: Settled(a, d, terminals, edges, m)
  {
    assert d[n].outputPorts == c[n].outputPorts;
    AllSettledKept(a, c, d, terminals, edges, f);
  }

  /** An input port of `n` with no edge into it: the refresh stops with
      the missing-feeder error. */
  lemma ProgressMissingEdge(a: map<Name, Node>, b: map<Name, Node>, terminals: map<Name, Terminal>, edges: seq<Edge>,
                            rk: Ranking, n: Name, done: seq<Name>, f: seq<Name>, q: Name)
    requires n in a && a[n].isDirty && q in a[n].inputPorts && FirstEdgeInto(edges, PortRef(n, q)).None?
    requires RefreshProgress(a, b, terminals, edges, rk, n, done, f, true)
    ensures RefreshOutcome(a, b, terminals, edges, rk, n, Some(MissingFeederEdge(PortRef(n, q))), f)
  {
    DirtyUpstreamSelf(a, edges, n);
  }

  /** A refresh that went through every input port. */
  lemma ProgressDone(a: map<Name, Node>, b: map<Name, Node>, terminals: map<Name, Terminal>, edges: seq<Edge>,
                     rk: Ranking, n: Name, done: seq<Name>, f: seq<Name>)
    requires n in a
    requires RefreshProgress(a, b, terminals, edges, rk, n, done, f, true)
    requires forall q | q in a[n].inputPorts :: q in done
    ensures RefreshOutcome(a, b, terminals, edges, rk, n, None, f)
  {
  }

  /** Firing a transfer function keeps the node's name, inputs, transfer
      function and port shape; it cleans the node exactly when the call
      returns normally. */
  lemma FireFacts(n: Node)
    requires n.xfn.Some?
    ensures var (m, e) := Fire(n);
      && m.name == n.name && m.inputPorts == n.inputPorts && m.xfn == n.xfn
      && SameNodeShape(n, m)
      && (e.None? ==> !m.isDirty)
      && (e.Some? ==> m.isDirty == n.isDirty)
  {
    ReplayOutcome(n, n.xfn.value(InputValues(n)));
  }

  /** Replacing a dirty node whose inputs are fresh by its fired version
      keeps coherence and the freshness of its inputs. */
  lemma CoherentAfterFire(c: map<Name, Node>, d: map<Name, Node>, terminals: map<Name, Terminal>, edges: seq<Edge>,
                          n: Name, m: Node)
    requires n in c && c[n].isDirty && InputsFresh(c, terminals, edges, n)
    requires d == c[n := m] && m.inputPorts == c[n].inputPorts
    ensures InputsFresh(d, terminals, edges, n)
    ensures Coherent(c, edges) ==> Coherent(d, edges)
  {
    forall q | q in d[n].inputPorts ensures InputFresh(d, terminals, edges, n, q) {
      assert InputFresh(c, terminals, edges, n, q);
      match FirstEdgeInto(edges, PortRef(n, q))
      case Some(Edge(OutputSrc(u, _), _)) =>
        assert d[u] == c[u];
      case _ =>
    }
    if Coherent(c, edges) {
      forall x, q | x in d && q in d[x].inputPorts && !d[x].isDirty
        ensures var f := FirstFeederNode(edges, PortRef(x, q)); f.Some? ==> f.value in d && !d[f.value].isDirty
      {
        var f := FirstFeederNode(edges, PortRef(x, q));
        if x == n {
          assert InputFresh(d, terminals, edges, n, q);
        } else if f.Some? {
          assert d[x] == c[x];
          assert f.value != n;
        }
      }
    }
  }

  /** The firing log after a refresh that succeeded and the firing of `n`. */
  lemma FiresAfterFire(a: map<Name, Node>, c: map<Name, Node>, d: map<Name, Node>, rk: Ranking, n: Name, f1: seq<Name>, m: Node)
    requires n in a && a[n].isDirty && a.Keys == c.Keys && CleanKept(a, c)
    requires FiresOk(a, c, rk, Up(rk, n), f1, true)
    requires forall x | x in f1 :: Up(rk, x) < Up(rk, n)
    requires d == c[n := m]
    ensures FiresOk(a, d, rk, Up(rk, n), f1 + [n], !m.isDirty)
  {
    assert n !in f1;
    DistinctConcat(f1, [n]);
    forall x | x in a && a[x].isDirty && !d[x].isDirty ensures x in f1 + [n] {
      if x != n { assert d[x] == c[x]; }
    }
    if !m.isDirty {
      forall x | x in a && x in d && d[x].isDirty ensures d[x].outputPorts == a[x].outputPorts {
        assert d[x] == c[x];
      }
    }
  }

  /** The frame part of firing `n` after its refresh. */
  lemma FiredFrame(a: map<Name, Node>, c: map<Name, Node>, d: map<Name, Node>, rk: Ranking, n: Name, m: Node)
    requires n in a && a[n].isDirty && SameShape(a, c) && CleanKept(a, c)
    requires forall x | x in a && x != n && c[x] != a[x] :: Up(rk, x) < Up(rk, n)
    requires SameNodeShape(c[n], m) && d == c[n := m]
    ensures SameShape(a, d) && CleanKept(a, d)
    ensures forall x | x in a && d[x] != a[x] :: Up(rk, x) <= Up(rk, n)
  {
    assert SameShape(c, d);
    ShapeTrans(a, c, d);
  }

  /** What firing `n` after its refresh does to the node tables: only `n`
      and nodes ranked below it changed, and `n` joins the firing log. */
  lemma FiredFrameParts(a: map<Name, Node>, c: map<Name, Node>, d: map<Name, Node>, terminals: map<Name, Terminal>,
                        edges: seq<Edge>, rk: Ranking, n: Name, f1: seq<Name>, m: Node, e: Option<Error>)
    requires n in a && a[n].isDirty && a[n].xfn.Some?
    requires RefreshOutcome(a, c, terminals, edges, rk, n, None, f1)
    requires (m, e) == Fire(c[n])
    requires d == c[n := m]
    ensures SameShape(a, d) && CleanKept(a, d)
    ensures forall x | x in a && d[x] != a[x] :: Up(rk, x) <= Up(rk, n)
    ensures FiresOk(a, d, rk, Up(rk, n), f1 + [n], e.None?)
    ensures forall x | x in f1 + [n] :: DirtyUpstream(a, edges, x, n)
  {
    FireFacts(c[n]);
    FiredFrame(a, c, d, rk, n, m);
    FiresAfterFire(a, c, d, rk, n, f1, m);
    DirtyUpstreamSelf(a, edges, n);
  }

  /** What firing `n` after its refresh gives `n` itself: clean exactly
      when the function succeeded, with fresh inputs, and coherence kept. */
  lemma FiredNodeParts(a: map<Name, Node>, c: map<Name, Node>, d: map<Name, Node>, terminals: map<Name, Terminal>,
                       edges: seq<Edge>, rk: Ranking, n: Name, f1: seq<Name>, m: Node, e: Option<Error>)
    requires n in a && a[n].isDirty && a[n].xfn.Some?
    requires RefreshOutcome(a, c, terminals, edges, rk, n, None, f1)
    requires (m, e) == Fire(c[n])
    requires d == c[n := m]
    ensures e.None? <==> !m.isDirty
    ensures InputsFresh(d, terminals, edges, n)
    ensures m.xfn.Some? && (m, e) == Fire(m.(outputPorts := a[n].outputPorts, isDirty := true))
    ensures Coherent(a, edges) ==> Coherent(d, edges)
  {
    FireFacts(c[n]);
    CoherentAfterFire(c, d, terminals, edges, n, m);
    assert m.(outputPorts := a[n].outputPorts, isDirty := true) == c[n];
  }

  /** `_get_output_port_value` on a dirty node: refresh its inputs, then
      fire its transfer function and answer from the requested port. */
  lemma PullFired(a: map<Name, Node>, c: map<Name, Node>, d: map<Name, Node>, terminals: map<Name, Terminal>,
                  edges: seq<Edge>, rk: Ranking, n: Name, p: Name, f1: seq<Name>, m: Node, e: Option<Error>)
    requires n in a && a[n].isDirty && a[n].xfn.Some? && p in a[n].outputPorts
    requires RefreshOutcome(a, c, terminals, edges, rk, n, None, f1)
    requires (m, e) == Fire(c[n]) && p in m.outputPorts
    requires d == c[n := m]
    ensures PullOutcome(a, d, terminals, edges, rk, n, p,
                        if e.None? then Ok(GetValue(m.outputPorts[p])) else Err(e.value), f1 + [n])
  {
    FiredFrameParts(a, c, d, terminals, edges, rk, n, f1, m, e);
    FiredNodeParts(a, c, d, terminals, edges, rk, n, f1, m, e);
    FiredSettled(a, c, d, terminals, edges, rk, n, f1, m, e);
  }

  /** After firing `n`, the nodes its refresh fired and `n` itself are
      settled; a failing call is the read's error. */
  lemma FiredSettled(a: map<Name, Node>, c: map<Name, Node>, d: map<Name, Node>, terminals: map<Name, Terminal>,
                     edges: seq<Edge>, rk: Ranking, n: Name, f1: seq<Name>, m: Node, e: Option<Error>)
    requires n in a && a[n].isDirty && a[n].xfn.Some?
    requires RefreshOutcome(a, c, terminals, edges, rk, n, None, f1)
    requires (m, e) == Fire(c[n])
    requires d == c[n := m]
    ensures forall x | x in f1 + [n] :: Settled(a, d, terminals, edges, x)
    ensures e.Some? ==> ReadError(a, d, terminals, edges, n, e.value)
  {
    FiredNodeParts(a, c, d, terminals, edges, rk, n, f1, m, e);
    AllSettledKept(a, c, d, terminals, edges, f1);
    assert FiredFrom(a, d, n) == m.(outputPorts := a[n].outputPorts, isDirty := true);
    assert Settled(a, d, terminals, edges, n);
    if e.Some? {
      DirtyUpstreamSelf(a, edges, n);
    }
  }

  /** `_get_output_port_value` on a dirty node whose refresh failed: the
      error is passed on and the node stays dirty. */
  lemma PullRefreshFailed(a: map<Name, Node>, c: map<Name, Node>, terminals: map<Name, Terminal>,
                          edges: seq<Edge>, rk: Ranking, n: Name, p: Name, f1: seq<Name>, e: Error)
    requires n in a && a[n].isDirty && p in a[n].outputPorts
    requires RefreshOutcome(a, c, terminals, edges, rk, n, Some(e), f1)
    ensures PullOutcome(a, c, terminals, edges, rk, n, p, Err(e), f1)
  {
  }

  /** `_get_output_port_value` when it answers without recursing: an unknown
      node or port, or a clean node. */
  lemma PullDirect(a: map<Name, Node>, terminals: map<Name, Terminal>, edges: seq<Edge>, rk: Ranking, n: Name, p: Name)
    requires n !in a || p !in a[n].outputPorts || !a[n].isDirty
    ensures PullOutcome(a, a, terminals, edges, rk, n, p,
                        if n !in a then Err(UnknownNode(n))
                        else if p !in a[n].outputPorts then Err(UnknownOutputPort(n, p))
                        else Ok(GetValue(a[n].outputPorts[p])), [])
  {
  }

  /** A read that returns normally fires exactly the nodes that were dirty
      and feed the read node, itself included, through a chain of dirty
      first feeders; afterwards each of them is clean. Chains through a
      clean node are not followed, whether or not the network is
      coherent. */
  lemma ReadFiresExactly(a: map<Name, Node>, b: map<Name, Node>, terminals: map<Name, Terminal>, edges: seq<Edge>,
                         rk: Ranking, n: Name, p: Name, r: Result<Option<Value>, Error>, fires: seq<Name>)
    requires PullOutcome(a, b, terminals, edges, rk, n, p, r, fires) && r.Ok?
    ensures forall m :: m in fires <==> m in a && a[m].isDirty && DirtyUpstream(a, edges, m, n)
    ensures forall m | DirtyUpstream(a, edges, m, n) :: m in b && !b[m].isDirty
  {
    forall m | DirtyUpstream(a, edges, m, n) ensures m in fires {
      var path :| DirtyPath(a, edges, path) && path[0] == m && path[|path| - 1] == n;
      DirtyPathFired(a, b, terminals, edges, rk, n, p, r, fires, path);
    }
    forall m | m in fires ensures m in a && a[m].isDirty {
    }
  }

  /** The head of a dirty chain of first feeders ending at the read node
      was fired by a read that returned normally: by induction from the
      read node back, each node on the chain was fired, so its inputs were
      fresh and its feeder on the chain clean. */
  lemma {:induction false} DirtyPathFired(a: map<Name, Node>, b: map<Name, Node>, terminals: map<Name, Terminal>,
                                         edges: seq<Edge>, rk: Ranking, n: Name, p: Name,
                                         r: Result<Option<Value>, Error>, fires: seq<Name>, path: seq<Name>)
    requires PullOutcome(a, b, terminals, edges, rk, n, p, r, fires) && r.Ok?
    requires DirtyPath(a, edges, path) && path[|path| - 1] == n
    ensures path[0] in fires
    decreases |path|
  {
    if |path| > 1 {
      var rest := path[1..];
      forall i | 0 <= i < |rest| - 1 ensures FeedsFirst(Ins(a), edges, rest[i], rest[i + 1]) {
        assert rest[i] == path[i + 1] && rest[i + 1] == path[i + 2];
      }
      forall i | 0 <= i < |rest| ensures rest[i] in a && a[rest[i]].isDirty {
        assert rest[i] == path[i + 1];
      }
      DirtyPathFired(a, b, terminals, edges, rk, n, p, r, fires, rest);
      FeederCleaned(a, b, terminals, edges, path[0], path[1]);
    }
  }

  /** A settled node's first feeders are clean afterwards; a feeder that
      was dirty before was therefore cleaned. */
  lemma FeederCleaned(a: map<Name, Node>, b: map<Name, Node>, terminals: map<Name, Terminal>, edges: seq<Edge>,
                      u: Name, m: Name)
    requires SameShape(a, b) && Settled(a, b, terminals, edges, m) && FeedsFirst(Ins(a), edges, u, m)
    ensures u in b && !b[u].isDirty
  {
    var q :| q in Ins(a)[m] && FirstFeederNode(edges, PortRef(m, q)) == Some(u);
    assert SameNodeShape(a[m], b[m]);
    assert InputFresh(b, terminals, edges, m, q);
  }

  /** In a coherent network a read that returns normally leaves the read
      node and everything feeding it through first feeders clean. */
  lemma CoherentReadCleansUpstream(a: map<Name, Node>, b: map<Name, Node>, terminals: map<Name, Terminal>,
                                   edges: seq<Edge>, rk: Ranking, n: Name, p: Name,
                                   r: Result<Option<Value>, Error>, fires: seq<Name>)
    requires PullOutcome(a, b, terminals, edges, rk, n, p, r, fires)
    requires r.Ok? && Coherent(a, edges)
    ensures forall m | Upstream(Ins(b), edges, m, n) :: m in b && !b[m].isDirty
  {
    forall m | Upstream(Ins(b), edges, m, n) ensures m in b && !b[m].isDirty {
      var path :| UpPath(Ins(b), edges, path) && path[0] == m && path[|path| - 1] == n;
      CleanUpstream(b, edges, path);
    }
  }

  /** A second read of the same port, with nothing written in between,
      fires nothing and returns the same value. */
  lemma SecondReadFiresNothing(a: map<Name, Node>, b: map<Name, Node>, c: map<Name, Node>, terminals: map<Name, Terminal>,
                               edges: seq<Edge>, rk: Ranking, n: Name, p: Name,
                               r1: Result<Option<Value>, Error>, f1: seq<Name>,
                               r2: Result<Option<Value>, Error>, f2: seq<Name>)
    requires PullOutcome(a, b, terminals, edges, rk, n, p, r1, f1) && r1.Ok?
    requires PullOutcome(b, c, terminals, edges, rk, n, p, r2, f2)
    ensures r2 == r1 && f2 == [] && c == b
  {
  }

  /** After a read that returned normally, every node it fired holds what
      its transfer function returned without error, and each of its inputs
      holds the value its first feeder offers: a terminal's value, or the
      output of a node that the read fired too or that was clean and left
      untouched. The value of a read is thereby fixed along the whole chain
      of nodes it fired. */
  lemma FiredInputFed(a: map<Name, Node>, b: map<Name, Node>, terminals: map<Name, Terminal>, edges: seq<Edge>,
                      rk: Ranking, n: Name, p: Name, r: Result<Option<Value>, Error>, fires: seq<Name>,
                      m: Name, q: Name)
    requires PullOutcome(a, b, terminals, edges, rk, n, p, r, fires) && r.Ok?
    requires m in fires && m in a && q in a[m].inputPorts
    ensures m in b && b[m].xfn.Some? && Fire(FiredFrom(a, b, m)) == (b[m], None)
    ensures q in b[m].inputPorts
    ensures match FirstEdgeInto(edges, PortRef(m, q))
      case Some(Edge(OutputSrc(u, o), _)) =>
        && u in b && o in b[u].outputPorts && b[m].inputPorts[q].value == GetValue(b[u].outputPorts[o])
        && (u in fires || (u in a && !a[u].isDirty && b[u] == a[u]))
      case Some(Edge(TerminalSrc(t), _)) =>
        t in terminals && b[m].inputPorts[q].value == terminals[t].value
      case None => false
  {
    assert Settled(a, b, terminals, edges, m);
    assert SameNodeShape(a[m], b[m]);
    assert InputFresh(b, terminals, edges, m, q);
    FireFacts(FiredFrom(a, b, m));
  }

  /** Every call of `x`'s transfer function writes only ports `x`
      declares. */
  ghost predicate WritesDeclared(x: Node)
    requires x.xfn.Some?
  {
    forall vals :: FirstUndeclared(x.outputPorts.Keys, x.xfn.value(vals)) == |x.xfn.value(vals)|
  }

  /** The converse of the failure cases: a read of a declared port returns
      normally when every node reaching it through dirty first feeders has an
      edge into each input and a transfer function that writes only declared
      ports. Nodes behind a clean node are never read. */
  lemma ReadSucceeds(a: map<Name, Node>, b: map<Name, Node>, terminals: map<Name, Terminal>, edges: seq<Edge>,
                     rk: Ranking, n: Name, p: Name, r: Result<Option<Value>, Error>, fires: seq<Name>)
    requires PullOutcome(a, b, terminals, edges, rk, n, p, r, fires)
    requires n in a && p in a[n].outputPorts
    requires forall m, q | DirtyUpstream(a, edges, m, n) && m in a && q in a[m].inputPorts ::
      FirstEdgeInto(edges, PortRef(m, q)).Some?
    requires forall m | DirtyUpstream(a, edges, m, n) && m in a ::
      a[m].xfn.Some? && WritesDeclared(a[m])
    ensures r.Ok?
  {
    if r.Err? {
      if MissingFeeder(a, edges, n, r.error) {
        assert false;
      } else {
        var m :| && DirtyUpstream(a, edges, m, n) && m in a
                 && Settled(a, b, terminals, edges, m) && Fire(FiredFrom(a, b, m)).1 == Some(r.error);
        assert SameNodeShape(a[m], b[m]);
        FireDeclaredSucceeds(a, b, m);
        assert false;
      }
    }
  }

  /** A transfer function that writes only declared ports returns
      normally when fired. */
  lemma FireDeclaredSucceeds(a: map<Name, Node>, b: map<Name, Node>, m: Name)
    requires m in a && m in b && SameNodeShape(a[m], b[m])
    requires a[m].xfn.Some? && WritesDeclared(a[m])
    ensures Fire(FiredFrom(a, b, m)).1.None?
  {
    var x := FiredFrom(a, b, m);
    var ws := x.xfn.value(InputValues(x));
    assert FirstUndeclared(a[m].outputPorts.Keys, a[m].xfn.value(InputValues(x))) == |ws|;
    ReplayOutcome(x, ws);
  }

}
