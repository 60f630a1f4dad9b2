/** The network-as-transfer-function adapter (api/network_to_xfn.py): an
    existing network wrapped so that a node of a super network can use it as
    its transfer function. A call writes the super node's input values to
    mapped terminals of the wrapped network, then reads mapped output ports
    of the wrapped network and hands each value to the super node's output
    setter under a mapped name. */
module NetworkXfn {
  import opened Names
  import opened Outcomes
  import opened Entities
  import opened Nodes
  import opened Graph
  import opened Dirty
  import opened Integrity
  import opened Evaluation
  import opened NetworkApi

  /** One entry of the output mapping: the wrapped network's node and output
      port, and the super node's output port that receives its value. */
  datatype OutputMapping = OutputMapping(node: Name, port: Name, superPort: Name)

  /** The wrapped network's tables after the input phase, and the error that
      stopped it, if any. */
  datatype Written = Written(err: Option<Error>, nodes: map<Name, Node>, terminals: map<Name, Terminal>)

  /** The input port `x` has a mapped terminal that exists. */
  predicate Writable(mapping: map<Name, Name>, terminals: set<Name>, x: Name)
  {
    x in mapping && mapping[x] in terminals
  }

  /** The position in `ports` of the first input port that cannot be
      written, or `|ports|`. */
  function FirstUnwritable(mapping: map<Name, Name>, terminals: set<Name>, ports: seq<Name>): (i: nat)
    ensures i <= |ports|
    ensures forall j | 0 <= j < i :: Writable(mapping, terminals, ports[j])
    ensures i < |ports| ==> !Writable(mapping, terminals, ports[i])
  {
    if ports == [] || !Writable(mapping, terminals, ports[0]) then 0
    else 1 + FirstUnwritable(mapping, terminals, ports[1..])
  }

  /** The input phase over the input ports `ports`, in order: each port's
      terminal is looked up in the mapping (an unmapped port fails), then
      written through `set_terminal_value` (an unknown terminal fails).
      Writes before the failing port stay in effect. */
  ghost function WriteInputs(nodes: map<Name, Node>, terminals: map<Name, Terminal>, edges: seq<Edge>,
                             mapping: map<Name, Name>, inputs: map<Name, Option<Value>>, ports: seq<Name>): (w: Written)
    requires forall x | x in ports :: x in inputs
    ensures w.nodes.Keys == nodes.Keys && w.terminals.Keys == terminals.Keys
    ensures w.err.None? <==> forall x | x in ports :: Writable(mapping, terminals.Keys, x)
    decreases |ports|
  {
    if ports == [] then Written(None, nodes, terminals)
    else if !Writable(mapping, terminals.Keys, ports[0]) then
      assert ports[0] in ports;
      Written(Some(if ports[0] !in mapping then UnmappedInput(ports[0]) else UnknownTerminal(mapping[ports[0]])),
              nodes, terminals)
    else
      var t := mapping[ports[0]];
      assert forall x | x in ports[1..] :: x in ports;
      assert forall x :: x in ports <==> x == ports[0] || x in ports[1..];
      WriteInputs(Dirtied(nodes, edges, t), terminals[t := Terminal(t, inputs[ports[0]])], edges,
                  mapping, inputs, ports[1..])
  }

  /** A failed input phase reports the first input port, in order, that has
      no mapped terminal or whose mapped terminal is unknown. */
  lemma {:induction false} WriteInputsError(nodes: map<Name, Node>, terminals: map<Name, Terminal>, edges: seq<Edge>,
                                            mapping: map<Name, Name>, inputs: map<Name, Option<Value>>,
                                            ports: seq<Name>)
    requires forall x | x in ports :: x in inputs
    ensures var w := WriteInputs(nodes, terminals, edges, mapping, inputs, ports);
      var i := FirstUnwritable(mapping, terminals.Keys, ports);
      w.err.Some? ==>
        i < |ports| &&
        w.err.value == (if ports[i] !in mapping then UnmappedInput(ports[i]) else UnknownTerminal(mapping[ports[i]]))
    decreases |ports|
  {
    if ports != [] && Writable(mapping, terminals.Keys, ports[0]) {
      var t := mapping[ports[0]];
      var ts := terminals[t := Terminal(t, inputs[ports[0]])];
      assert ts.Keys == terminals.Keys;
      assert forall x | x in ports[1..] :: x in ports;
      WriteInputsError(Dirtied(nodes, edges, t), ts, edges, mapping, inputs, ports[1..]);
      var k := FirstUnwritable(mapping, terminals.Keys, ports[1..]);
      if k < |ports[1..]| {
        assert ports[k + 1] == ports[1..][k];
      }
    }
  }

  /** The input phase changes only the terminals it writes and dirty flags:
      every other terminal is kept, every node keeps its shape, a dirty node
      stays dirty, and coherence is kept. */
  lemma {:induction false} WriteInputsFrame(nodes: map<Name, Node>, terminals: map<Name, Terminal>, edges: seq<Edge>,
                                            mapping: map<Name, Name>, inputs: map<Name, Option<Value>>,
                                            ports: seq<Name>)
    requires forall x | x in ports :: x in inputs
    ensures var w := WriteInputs(nodes, terminals, edges, mapping, inputs, ports);
      && (forall t | t in terminals && (forall x | x in ports && x in mapping :: mapping[x] != t) ::
            w.terminals[t] == terminals[t])
      && (forall m | m in nodes && nodes[m].isDirty :: w.nodes[m].isDirty)
      && SameShape(nodes, w.nodes)
      && (Coherent(nodes, edges) ==> Coherent(w.nodes, edges))
    decreases |ports|
  {
    if ports != [] && Writable(mapping, terminals.Keys, ports[0]) {
      var t := mapping[ports[0]];
      var d := Dirtied(nodes, edges, t);
      var ts := terminals[t := Terminal(t, inputs[ports[0]])];
      assert forall x | x in ports[1..] :: x in ports;
      WriteInputsFrame(d, ts, edges, mapping, inputs, ports[1..]);
      DirtiedShape(nodes, edges, t);
      var w := WriteInputs(d, ts, edges, mapping, inputs, ports[1..]);
      ShapeTrans(nodes, d, w.nodes);
      if Coherent(nodes, edges) {
        DirtiedCoherent(nodes, edges, t);
      }
    } else {
      if ports != [] {
        assert WriteInputs(nodes, terminals, edges, mapping, inputs, ports).nodes == nodes;
      }
      forall m | m in nodes ensures SameNodeShape(nodes[m], nodes[m]) {}
    }
  }

  /** The position in `ports` of the last input port mapped to terminal
      `t`, or -1 when there is none. */
  function LastMappedTo(mapping: map<Name, Name>, ports: seq<Name>, t: Name): (k: int)
    ensures -1 <= k < |ports|
    ensures k >= 0 ==> ports[k] in mapping && mapping[ports[k]] == t
    ensures forall j | k < j < |ports| :: !(ports[j] in mapping && mapping[ports[j]] == t)
    decreases |ports|
  {
    if ports == [] then -1
    else
      var k := LastMappedTo(mapping, ports[1..], t);
      if k >= 0 then k + 1
      else if ports[0] in mapping && mapping[ports[0]] == t then 0
      else -1
  }

  /** Last write wins: after a successful input phase the terminal mapped
      from input port `x` holds the value of the last input port, in order,
      mapped to that terminal; when no other input port shares it, that is
      `x`'s own value. */
  lemma {:induction false} WrittenValue(nodes: map<Name, Node>, terminals: map<Name, Terminal>, edges: seq<Edge>,
                                        mapping: map<Name, Name>, inputs: map<Name, Option<Value>>,
                                        ports: seq<Name>, x: Name)
    requires forall y | y in ports :: y in inputs
    requires x in ports
    requires WriteInputs(nodes, terminals, edges, mapping, inputs, ports).err.None?
    ensures x in mapping
    ensures var t := mapping[x]; var k := LastMappedTo(mapping, ports, t);
      && 0 <= k
      && WriteInputs(nodes, terminals, edges, mapping, inputs, ports).terminals[t] == Terminal(t, inputs[ports[k]])
    ensures (forall y | y in ports && y in mapping && mapping[y] == mapping[x] :: y == x) ==>
      WriteInputs(nodes, terminals, edges, mapping, inputs, ports).terminals[mapping[x]] == Terminal(mapping[x], inputs[x])
    decreases |ports|
  {
    assert Writable(mapping, terminals.Keys, x);
    var t := mapping[x];
    var t0 := mapping[ports[0]];
    var ts := terminals[t0 := Terminal(t0, inputs[ports[0]])];
    var rest := ports[1..];
    assert forall y | y in rest :: y in ports;
    var d := Dirtied(nodes, edges, t0);
    var k' := LastMappedTo(mapping, rest, t);
    if k' >= 0 {
      WrittenValue(d, ts, edges, mapping, inputs, rest, rest[k']);
      assert ports[k' + 1] == rest[k'];
    } else {
      assert forall y | y in rest && y in mapping :: mapping[y] != t by {
        forall y | y in rest && y in mapping ensures mapping[y] != t {
          var j :| 0 <= j < |rest| && rest[j] == y;
        }
      }
      assert x == ports[0] || x in rest;
      WriteInputsFrame(d, ts, edges, mapping, inputs, rest);
    }
    var k := LastMappedTo(mapping, ports, t);
    assert ports[k] in ports;
  }

  /** Every node downstream of a terminal the input phase wrote is dirty
      afterwards. */
  lemma {:induction false} WrittenDirty(nodes: map<Name, Node>, terminals: map<Name, Terminal>, edges: seq<Edge>,
                                        mapping: map<Name, Name>, inputs: map<Name, Option<Value>>,
                                        ports: seq<Name>, x: Name, m: Name)
    requires forall y | y in ports :: y in inputs
    requires x in ports && m in nodes && x in mapping && ReachableFromTerminal(edges, mapping[x], m)
    requires WriteInputs(nodes, terminals, edges, mapping, inputs, ports).err.None?
    ensures WriteInputs(nodes, terminals, edges, mapping, inputs, ports).nodes[m].isDirty
    decreases |ports|
  {
    var t := mapping[ports[0]];
    var d := Dirtied(nodes, edges, t);
    var ts := terminals[t := Terminal(t, inputs[ports[0]])];
    assert forall y | y in ports[1..] :: y in ports;
    if ports[0] != x {
      assert x in ports[1..];
      WrittenDirty(d, ts, edges, mapping, inputs, ports[1..], x, m);
    } else {
      assert d[m].isDirty;
      WriteInputsFrame(d, ts, edges, mapping, inputs, ports[1..]);
    }
  }

  /** The value the super node's setter receives for mapping entry `o`: the
      entry names a declared output port of a node that is now clean, and the
      write carries that port's value under the super port's name. */
  ghost predicate Delivered(nodes: map<Name, Node>, o: OutputMapping, w: Write)
  {
    && o.node in nodes && o.port in nodes[o.node].outputPorts && !nodes[o.node].isDirty
    && w == Write(o.superPort, GetValue(nodes[o.node].outputPorts[o.port]))
  }

  /** The mapping entry names a declared output port. */
  ghost predicate Declared(nodes: map<Name, Node>, o: OutputMapping)
  {
    o.node in nodes && o.port in nodes[o.node].outputPorts
  }

  /** What the output phase promises, from node table `a` to `b`: one setter
      call per mapping entry, in order, each with the value the mapped port
      now holds; a failed integrity check stops the phase at its first read;
      otherwise a failure is reported at some entry `i` whose predecessors
      were all read, and is that entry's unknown node or port, or the reason
      its read failed. Clean nodes stay as they were, every node the phase
      cleaned holds what its transfer function made of its fresh inputs, and
      the shape of every node is kept. */
  ghost predicate ReadsOutcome(a: map<Name, Node>, b: map<Name, Node>, nodeOrder: seq<Name>,
                               terminals: map<Name, Terminal>, terminalOrder: seq<Name>, edges: seq<Edge>,
                               om: seq<OutputMapping>, r: Result<seq<Write>, Error>)
    requires ListsKeys(nodeOrder, a) && ListsKeys(terminalOrder, terminals)
  {
    && SameShape(a, b) && CleanKept(a, b)
    && (Coherent(a, edges) ==> Coherent(b, edges))
    && (om == [] ==> r == Ok([]) && b == a)
    && (CheckNow(a, nodeOrder, terminals, terminalOrder).Some? && om != [] ==>
          r == Err(CheckNow(a, nodeOrder, terminals, terminalOrder).value) && b == a)
    && Recomputed(a, b, terminals, edges)
    && (r.Ok? ==> |r.value| == |om| && forall i | 0 <= i < |om| :: Delivered(b, om[i], r.value[i]))
    && (r.Err? && CheckNow(a, nodeOrder, terminals, terminalOrder).None? ==>
          exists i | 0 <= i < |om| :: FailedAt(a, b, terminals, edges, om, i, r.error))
  }

  /** The output phase stopped at entry `i` with error `e`: every earlier
      entry names a declared port whose node was read clean, and `e` is
      entry `i`'s unknown node or port, or the reason its read failed. */
  ghost predicate FailedAt(a: map<Name, Node>, b: map<Name, Node>, terminals: map<Name, Terminal>, edges: seq<Edge>,
                           om: seq<OutputMapping>, i: int, e: Error)
    requires 0 <= i < |om|
  {
    && (forall j | 0 <= j < i :: Declared(a, om[j]) && om[j].node in b && !b[om[j].node].isDirty)
    && (om[i].node !in a ==> e == UnknownNode(om[i].node))
    && (om[i].node in a && om[i].port !in a[om[i].node].outputPorts ==> e == UnknownOutputPort(om[i].node, om[i].port))
    && (Declared(a, om[i]) ==> ReadError(a, b, terminals, edges, om[i].node, e))
  }

  /** The integrity check looks only at transfer functions and terminals, so
      a read, which keeps every node's shape, does not change its verdict. */
  lemma CheckSameShape(a: map<Name, Node>, b: map<Name, Node>, nodeOrder: seq<Name>,
                       terminals: map<Name, Terminal>, terminalOrder: seq<Name>)
    requires ListsKeys(nodeOrder, a) && ListsKeys(terminalOrder, terminals) && SameShape(a, b)
    ensures CheckNow(a, nodeOrder, terminals, terminalOrder) == CheckNow(b, nodeOrder, terminals, terminalOrder)
  {
    MissingXfnSameShape(nodeOrder, a, b);
  }

  lemma {:induction false} MissingXfnSameShape(order: seq<Name>, a: map<Name, Node>, b: map<Name, Node>)
    requires forall x | x in order :: x in a
    requires SameShape(a, b)
    ensures FirstMissingXfn(order, a) == FirstMissingXfn(order, b)
  {
    if order != [] {
      assert SameNodeShape(a[order[0]], b[order[0]]);
      assert forall x | x in order[1..] :: x in order;
      MissingXfnSameShape(order[1..], a, b);
    }
  }

  /** `Network2Xfn`: the wrapped network and the two name mappings. */
  class Network2Xfn {
    const net: Network
    /** Super node input port name to wrapped terminal name. */
    const inputMapping: map<Name, Name>
    /** The output mapping's entries, in dict order. */
    const outputMapping: seq<OutputMapping>

    constructor (existingNet: Network, inputMapping: map<Name, Name>, outputMapping: seq<OutputMapping>)
      ensures net == existingNet && this.inputMapping == inputMapping && this.outputMapping == outputMapping
    {
      net := existingNet;
      this.inputMapping := inputMapping;
      this.outputMapping := outputMapping;
    }

    /** The output phase is under way from node table `start`, having
        delivered `out`. */
    ghost predicate Reading(start: map<Name, Node>, out: seq<Write>)
      reads net
    {
      && net.Valid() && Acyclic(net.edges) && ListsKeys(net.nodeOrder, start)
      && ReadsSoFar(start, net.nodes, net.nodeOrder, net.terminals, net.terminalOrder, net.edges, outputMapping, out)
    }

    /** `xfn`: the input phase over the super node's input values, in the
        order its snapshot lists them (sorted port names), then the output
        phase. Returns the output-setter calls in order. */
    method Xfn(inputs: map<Name, Option<Value>>) returns (r: Result<seq<Write>, Error>)
      requires net.Valid() && Acyclic(net.edges)
      modifies net
      ensures net.Valid()
      ensures net.edges == old(net.edges) && net.nodeOrder == old(net.nodeOrder)
      ensures net.terminalOrder == old(net.terminalOrder)
      ensures
        var w := WriteInputs(old(net.nodes), old(net.terminals), net.edges, inputMapping, inputs,
                             SortedKeys(inputs.Keys));
        && net.terminals == w.terminals
        && (w.err.Some? ==> r == Err(w.err.value) && net.nodes == w.nodes)
        && (w.err.None? ==> ReadsOutcome(w.nodes, net.nodes, net.nodeOrder, net.terminals, net.terminalOrder,
                                         net.edges, outputMapping, r))
    {
      var err := WriteMappedInputs(inputs);
      if err.Some? {
        return Err(err.value);
      }
      r := ReadMappedOutputs();
    }

    /** The first loop of `xfn`: each input value to its mapped terminal. */
    method WriteMappedInputs(inputs: map<Name, Option<Value>>) returns (err: Option<Error>)
      requires net.Valid() && Acyclic(net.edges)
      modifies net`nodes, net`terminals
      ensures net.Valid()
      ensures
        WriteInputs(old(net.nodes), old(net.terminals), net.edges, inputMapping, inputs, SortedKeys(inputs.Keys))
          == Written(err, net.nodes, net.terminals)
    {
      var ports := SortKeys(inputs.Keys);
      ghost var whole := WriteInputs(net.nodes, net.terminals, net.edges, inputMapping, inputs, ports);
      var i := 0;
      while i < |ports|
        invariant 0 <= i <= |ports|
        invariant net.Valid() && Acyclic(net.edges)
        invariant WriteInputs(net.nodes, net.terminals, net.edges, inputMapping, inputs, ports[i..]) == whole
      {
        var x := ports[i];
        assert ports[i..][0] == x && ports[i..][1..] == ports[i + 1..];
        if x !in inputMapping {
          return Some(UnmappedInput(x));
        }
        var e := net.SetTerminalValue(inputMapping[x], inputs[x]);
        if e.Some? {
          return e;
        }
        i := i + 1;
      }
      err := None;
    }

    /** The second loop of `xfn`: each mapped output port read through the
        public read, and its value handed on under the super port's name. */
    method ReadMappedOutputs() returns (r: Result<seq<Write>, Error>)
      requires net.Valid() && Acyclic(net.edges)
      modifies net`nodes, net`fired
      ensures net.Valid()
      ensures ReadsOutcome(old(net.nodes), net.nodes, net.nodeOrder, net.terminals, net.terminalOrder, net.edges,
                           outputMapping, r)
    {
      ghost var start := net.nodes;
      SoFarStart(start, net.nodeOrder, net.terminals, net.terminalOrder, net.edges, outputMapping);
      var out: seq<Write> := [];
      var i := 0;
      while i < |outputMapping|
        invariant 0 <= i <= |outputMapping| && |out| == i
        invariant Reading(start, out)
      {
        var v;
        v, out := ReadStep(start, out);
        if v.Err? {
          return Err(v.error);
        }
        i := i + 1;
      }
      ReadsDone(start, net.nodes, net.nodeOrder, net.terminals, net.terminalOrder, net.edges, outputMapping, out);
      r := Ok(out);
    }

    /** One round of the output phase: the public read of the next mapped
        port, and its value handed on. */
    method ReadStep(ghost start: map<Name, Node>, out: seq<Write>) returns (v: Result<Option<Value>, Error>, out': seq<Write>)
      requires |out| < |outputMapping| && Reading(start, out)
      modifies net`nodes, net`fired
      ensures net.Valid() && net.nodeOrder == old(net.nodeOrder)
      ensures v.Err? ==>
        ReadsOutcome(start, net.nodes, net.nodeOrder, net.terminals, net.terminalOrder, net.edges, outputMapping, Err(v.error))
      ensures v.Ok? ==>
        && out' == out + [Write(outputMapping[|out|].superPort, v.value)]
        && Reading(start, out')
    {
      var o := outputMapping[|out|];
      ghost var before := net.nodes;
      ghost var fires;
      v, fires := net.GetOutputPortValue(o.node, o.port);
      ReadFacts(before, net.nodes, net.nodeOrder, net.terminals, net.terminalOrder, net.edges, o, v, fires);
      if v.Err? {
        ReadFailed(start, before, net.nodes, net.nodeOrder, net.terminals, net.terminalOrder, net.edges,
                   outputMapping, out, |out|, v);
        out' := out;
      } else {
        ReadDelivered(start, before, net.nodes, net.nodeOrder, net.terminals, net.terminalOrder, net.edges,
                      outputMapping, out, |out|, v);
        out' := out + [Write(o.superPort, v.value)];
      }
    }
  }

  /** What one read of the output phase, for mapping entry `o`, establishes
      about the tables before and after it. */
  ghost predicate ReadStepFacts(a: map<Name, Node>, b: map<Name, Node>, nodeOrder: seq<Name>,
                                terminals: map<Name, Terminal>, terminalOrder: seq<Name>, edges: seq<Edge>,
                                o: OutputMapping, r: Result<Option<Value>, Error>)
    requires ListsKeys(nodeOrder, a) && ListsKeys(terminalOrder, terminals)
  {
    && SameShape(a, b) && CleanKept(a, b) && (Coherent(a, edges) ==> Coherent(b, edges))
    && (CheckNow(a, nodeOrder, terminals, terminalOrder).Some? ==>
          r == Err(CheckNow(a, nodeOrder, terminals, terminalOrder).value) && b == a)
    && (CheckNow(a, nodeOrder, terminals, terminalOrder).None? && o.node !in a ==> r == Err(UnknownNode(o.node)))
    && (CheckNow(a, nodeOrder, terminals, terminalOrder).None? && o.node in a && o.port !in a[o.node].outputPorts ==>
          r == Err(UnknownOutputPort(o.node, o.port)))
    && (r.Ok? ==> Delivered(b, o, Write(o.superPort, r.value)) && OutputsKept(a, b))
    && Recomputed(a, b, terminals, edges)
    && (r.Err? && CheckNow(a, nodeOrder, terminals, terminalOrder).None? && Declared(a, o) ==>
          ReadError(a, b, terminals, edges, o.node, r.error))
  }

  /** The facts drawn from the read's outcome. */
  lemma ReadFacts(a: map<Name, Node>, b: map<Name, Node>, nodeOrder: seq<Name>, terminals: map<Name, Terminal>,
                  terminalOrder: seq<Name>, edges: seq<Edge>, o: OutputMapping,
                  r: Result<Option<Value>, Error>, fires: seq<Name>)
    requires ListsKeys(nodeOrder, a) && ListsKeys(terminalOrder, terminals) && Acyclic(edges)
    requires CheckedOutcome(a, b, nodeOrder, terminals, terminalOrder, edges, o.node, o.port, r, fires)
    ensures ReadStepFacts(a, b, nodeOrder, terminals, terminalOrder, edges, o, r)
  {
    if CheckNow(a, nodeOrder, terminals, terminalOrder).Some? {
      forall m | m in a ensures SameNodeShape(a[m], b[m]) {}
    } else {
      forall m | m in a && m in b && a[m].isDirty && !b[m].isDirty ensures Settled(a, b, terminals, edges, m) {
        assert m in fires;
      }
    }
  }

  /** What the output phase has established after delivering `out`, one
      write per mapping entry so far. */
  ghost predicate ReadsSoFar(start: map<Name, Node>, b: map<Name, Node>, nodeOrder: seq<Name>,
                             terminals: map<Name, Terminal>, terminalOrder: seq<Name>, edges: seq<Edge>,
                             om: seq<OutputMapping>, out: seq<Write>)
    requires ListsKeys(nodeOrder, start) && ListsKeys(terminalOrder, terminals)
  {
    && |out| <= |om|
    && SameShape(start, b) && CleanKept(start, b)
    && (Coherent(start, edges) ==> Coherent(b, edges))
    && (out == [] ==> b == start)
    && (out != [] ==> CheckNow(start, nodeOrder, terminals, terminalOrder).None?)
    && OutputsKept(start, b) && Recomputed(start, b, terminals, edges)
    && forall j | 0 <= j < |out| :: Delivered(b, om[j], out[j])
  }

  lemma SoFarStart(start: map<Name, Node>, nodeOrder: seq<Name>, terminals: map<Name, Terminal>,
                   terminalOrder: seq<Name>, edges: seq<Edge>, om: seq<OutputMapping>)
    requires ListsKeys(nodeOrder, start) && ListsKeys(terminalOrder, terminals)
    ensures ReadsSoFar(start, start, nodeOrder, terminals, terminalOrder, edges, om, [])
  {
    forall m | m in start ensures SameNodeShape(start[m], start[m]) {}
  }

  /** Every mapping entry delivered: the phase succeeds. */
  lemma ReadsDone(start: map<Name, Node>, b: map<Name, Node>, nodeOrder: seq<Name>,
                  terminals: map<Name, Terminal>, terminalOrder: seq<Name>, edges: seq<Edge>,
                  om: seq<OutputMapping>, out: seq<Write>)
    requires ListsKeys(nodeOrder, start) && ListsKeys(terminalOrder, terminals)
    requires ReadsSoFar(start, b, nodeOrder, terminals, terminalOrder, edges, om, out) && |out| == |om|
    ensures ReadsOutcome(start, b, nodeOrder, terminals, terminalOrder, edges, om, Ok(out))
  {
  }

  /** A successful read of the output phase delivers one more write. */
  lemma ReadDelivered(start: map<Name, Node>, before: map<Name, Node>, after: map<Name, Node>, nodeOrder: seq<Name>,
                      terminals: map<Name, Terminal>, terminalOrder: seq<Name>, edges: seq<Edge>,
                      om: seq<OutputMapping>, out: seq<Write>, i: nat, v: Result<Option<Value>, Error>)
    requires ListsKeys(nodeOrder, start) && ListsKeys(terminalOrder, terminals)
    requires i == |out| < |om| && ReadsSoFar(start, before, nodeOrder, terminals, terminalOrder, edges, om, out)
    requires ReadStepFacts(before, after, nodeOrder, terminals, terminalOrder, edges, om[i], v) && v.Ok?
    ensures ReadsSoFar(start, after, nodeOrder, terminals, terminalOrder, edges, om,
                       out + [Write(om[i].superPort, v.value)])
  {
    CheckSameShape(start, before, nodeOrder, terminals, terminalOrder);
    ReadStepFrame(start, before, after, nodeOrder, terminals, terminalOrder, edges);
    ReadStepOk(start, before, after, om, out, i, Write(om[i].superPort, v.value));
    RecomputedTrans(start, before, after, terminals, edges);
    OutputsKeptTrans(start, before, after);
  }

  /** The nodes two reads in a row made clean were recomputed. */
  lemma RecomputedTrans(a: map<Name, Node>, b: map<Name, Node>, c: map<Name, Node>,
                        terminals: map<Name, Terminal>, edges: seq<Edge>)
    requires a.Keys == b.Keys == c.Keys && CleanKept(a, b) && CleanKept(b, c) && OutputsKept(a, b)
    requires Recomputed(a, b, terminals, edges) && Recomputed(b, c, terminals, edges)
    ensures Recomputed(a, c, terminals, edges)
  {
    forall m | m in a && m in c && a[m].isDirty && !c[m].isDirty ensures Settled(a, c, terminals, edges, m) {
      if !b[m].isDirty {
        SettledKept(a, b, c, terminals, edges, m);
      } else {
        SettledRebase(a, b, c, terminals, edges, m);
      }
    }
  }

  lemma OutputsKeptTrans(a: map<Name, Node>, b: map<Name, Node>, c: map<Name, Node>)
    requires a.Keys == b.Keys == c.Keys && CleanKept(b, c)
    requires OutputsKept(a, b) && OutputsKept(b, c)
    ensures OutputsKept(a, c)
  {
    forall m | m in a && m in c && c[m].isDirty ensures c[m].outputPorts == a[m].outputPorts {
      assert b[m].isDirty;
    }
  }

  /** A failed read ends the output phase with the outcome it promises. */
  lemma ReadFailed(start: map<Name, Node>, before: map<Name, Node>, after: map<Name, Node>, nodeOrder: seq<Name>,
                   terminals: map<Name, Terminal>, terminalOrder: seq<Name>, edges: seq<Edge>,
                   om: seq<OutputMapping>, out: seq<Write>, i: nat, v: Result<Option<Value>, Error>)
    requires ListsKeys(nodeOrder, start) && ListsKeys(terminalOrder, terminals)
    requires i == |out| < |om| && ReadsSoFar(start, before, nodeOrder, terminals, terminalOrder, edges, om, out)
    requires ReadStepFacts(before, after, nodeOrder, terminals, terminalOrder, edges, om[i], v) && v.Err?
    ensures ReadsOutcome(start, after, nodeOrder, terminals, terminalOrder, edges, om, Err(v.error))
  {
    ReadStepFrame(start, before, after, nodeOrder, terminals, terminalOrder, edges);
    RecomputedTrans(start, before, after, terminals, edges);
    if CheckNow(start, nodeOrder, terminals, terminalOrder).None? && Declared(start, om[i]) {
      assert SameNodeShape(start[om[i].node], before[om[i].node]);
      ReadErrorRebase(start, before, after, terminals, edges, om[i].node, om[i].node, v.error);
    }
    ReadStepErr(start, before, after, nodeOrder, terminals, terminalOrder, edges, om, out, i, v.error);
  }

  /** One read of the output phase, from `before` to `after`, keeps what
      the phase has established since `start` about shapes, clean nodes and
      coherence, and the check's verdict. */
  lemma ReadStepFrame(start: map<Name, Node>, before: map<Name, Node>, after: map<Name, Node>, nodeOrder: seq<Name>,
                      terminals: map<Name, Terminal>, terminalOrder: seq<Name>, edges: seq<Edge>)
    requires ListsKeys(nodeOrder, start) && ListsKeys(terminalOrder, terminals)
    requires SameShape(start, before) && CleanKept(start, before)
    requires Coherent(start, edges) ==> Coherent(before, edges)
    requires SameShape(before, after) && CleanKept(before, after) && (Coherent(before, edges) ==> Coherent(after, edges))
    ensures SameShape(start, after) && CleanKept(start, after)
    ensures Coherent(start, edges) ==> Coherent(after, edges)
    ensures CheckNow(start, nodeOrder, terminals, terminalOrder) == CheckNow(before, nodeOrder, terminals, terminalOrder)
  {
    CheckSameShape(start, before, nodeOrder, terminals, terminalOrder);
    ShapeTrans(start, before, after);
    KeptTrans(start, before, after);
  }

  /** A successful read extends the delivered writes by one. */
  lemma ReadStepOk(start: map<Name, Node>, before: map<Name, Node>, after: map<Name, Node>,
                   om: seq<OutputMapping>, out: seq<Write>, i: nat, w: Write)
    requires i < |om| && |out| == i
    requires before.Keys <= after.Keys && CleanKept(before, after)
    requires forall j | 0 <= j < i :: Delivered(before, om[j], out[j])
    requires Delivered(after, om[i], w)
    ensures forall j | 0 <= j < i + 1 :: Delivered(after, om[j], (out + [w])[j])
  {
    forall j | 0 <= j < i + 1 ensures Delivered(after, om[j], (out + [w])[j]) {
      if j < i {
        assert Delivered(before, om[j], out[j]);
      }
    }
  }

  /** A failed read ends the output phase with the outcome it promises. */
  lemma ReadStepErr(start: map<Name, Node>, before: map<Name, Node>, after: map<Name, Node>, nodeOrder: seq<Name>,
                    terminals: map<Name, Terminal>, terminalOrder: seq<Name>, edges: seq<Edge>,
                    om: seq<OutputMapping>, out: seq<Write>, i: nat, e: Error)
    requires ListsKeys(nodeOrder, start) && ListsKeys(terminalOrder, terminals)
    requires i < |om| && |out| == i
    requires SameShape(start, after) && CleanKept(start, after) && (Coherent(start, edges) ==> Coherent(after, edges))
    requires SameShape(start, before)
    requires i == 0 ==> before == start
    requires i > 0 ==> CheckNow(start, nodeOrder, terminals, terminalOrder).None?
    requires forall j | 0 <= j < i :: Delivered(before, om[j], out[j])
    requires CheckNow(start, nodeOrder, terminals, terminalOrder).Some? ==>
      e == CheckNow(start, nodeOrder, terminals, terminalOrder).value && after == before
    requires CheckNow(start, nodeOrder, terminals, terminalOrder).None? && om[i].node !in start ==>
      e == UnknownNode(om[i].node)
    requires (CheckNow(start, nodeOrder, terminals, terminalOrder).None? && om[i].node in start &&
              om[i].port !in start[om[i].node].outputPorts) ==> e == UnknownOutputPort(om[i].node, om[i].port)
    requires CheckNow(start, nodeOrder, terminals, terminalOrder).None? && Declared(start, om[i]) ==>
      ReadError(start, after, terminals, edges, om[i].node, e)
    requires CleanKept(before, after) && Recomputed(start, after, terminals, edges)
    ensures ReadsOutcome(start, after, nodeOrder, terminals, terminalOrder, edges, om, Err(e))
  {
    forall j | 0 <= j < i ensures Declared(start, om[j]) && om[j].node in after && !after[om[j].node].isDirty {
      assert Delivered(before, om[j], out[j]);
      assert SameNodeShape(start[om[j].node], before[om[j].node]);
    }
    assert CheckNow(start, nodeOrder, terminals, terminalOrder).None? ==> FailedAt(start, after, terminals, edges, om, i, e);
  }
}
