/** A node of the network: named input and output ports, an optional client
    transfer function and the dirty flag (implementation/node.py). A node is a
    record held in the network's node map; the operations that update it in
    place in the source return the updated record here. */
module Nodes {
  import opened Names
  import opened Outcomes
  import opened Entities

  datatype Node = Node(
    name: Name,
    inputPorts: map<Name, InputPort>,
    outputPorts: map<Name, OutputPort>,
    xfn: Option<Xfn>,
    isDirty: bool)

  /** Every port is stored under its own name and records this node. */
  predicate PortsOwned(n: Node)
  {
    (forall p | p in n.inputPorts :: n.inputPorts[p].name == p && n.inputPorts[p].node == n.name) &&
    (forall p | p in n.outputPorts :: n.outputPorts[p].name == p && n.outputPorts[p].node == n.name)
  }

  /** A new node is dirty, has no transfer function and no ports. */
  function NewNode(name: Name): (n: Node)
    ensures n.name == name && n.isDirty && n.xfn.None?
    ensures n.inputPorts == map[] && n.outputPorts == map[]
    ensures PortsOwned(n)
  {
    Node(name, map[], map[], None, true)
  }

  /** `setdefault` on the input ports: an existing port is kept as it is, a
      missing one is added holding no value; nothing else changes. */
  function RegisterInputPort(n: Node, p: Name): (r: Node)
    ensures p in n.inputPorts ==> r == n
    ensures r.inputPorts.Keys == n.inputPorts.Keys + {p}
    ensures forall q | q in n.inputPorts :: r.inputPorts[q] == n.inputPorts[q]
    ensures p !in n.inputPorts ==> r.inputPorts[p].value.None?
    ensures r.name == n.name && r.outputPorts == n.outputPorts && r.xfn == n.xfn && r.isDirty == n.isDirty
    ensures PortsOwned(n) ==> PortsOwned(r)
  {
    if p in n.inputPorts then n
    else n.(inputPorts := n.inputPorts[p := InputPort(p, n.name, None)])
  }

  /** `setdefault` on the output ports: an existing port is kept as it is, a
      missing one is added holding no value; nothing else changes. */
  function RegisterOutputPort(n: Node, p: Name): (r: Node)
    ensures p in n.outputPorts ==> r == n
    ensures r.outputPorts.Keys == n.outputPorts.Keys + {p}
    ensures forall q | q in n.outputPorts :: r.outputPorts[q] == n.outputPorts[q]
    ensures p !in n.outputPorts ==> GetValue(r.outputPorts[p]).None?
    ensures r.name == n.name && r.inputPorts == n.inputPorts && r.xfn == n.xfn && r.isDirty == n.isDirty
    ensures PortsOwned(n) ==> PortsOwned(r)
  {
    if p in n.outputPorts then n
    else n.(outputPorts := n.outputPorts[p := NewOutputPort(p, n.name)])
  }

  /** Replaces the transfer function unconditionally (None included). */
  function SetXfn(n: Node, f: Option<Xfn>): (r: Node)
    ensures r.xfn == f
    ensures r.name == n.name && r.inputPorts == n.inputPorts && r.outputPorts == n.outputPorts
    ensures r.isDirty == n.isDirty
  {
    n.(xfn := f)
  }

  /** The input port names in increasing order. */
  method SortedInputPorts(n: Node) returns (r: seq<Name>)
    ensures StrictlySorted(r)
    ensures forall p :: p in r <==> p in n.inputPorts
    ensures r == SortedKeys(n.inputPorts.Keys)
  {
    r := SortKeys(n.inputPorts.Keys);
  }

  /** The snapshot handed to a transfer function: each input port's value,
      keyed by port name. */
  function InputValues(n: Node): map<Name, Option<Value>>
  {
    map p | p in n.inputPorts :: n.inputPorts[p].value
  }

  /** Builds the snapshot port by port. */
  method SnapshotInputValues(n: Node) returns (s: map<Name, Option<Value>>)
    ensures s.Keys == n.inputPorts.Keys
    ensures forall p | p in s :: s[p] == n.inputPorts[p].value
    ensures s == InputValues(n)
  {
    s := map[];
    var rest := n.inputPorts.Keys;
    while rest != {}
      invariant rest <= n.inputPorts.Keys
      invariant s.Keys == n.inputPorts.Keys - rest
      invariant forall p | p in s :: s[p] == n.inputPorts[p].value
      decreases rest
    {
      var p :| p in rest;
      s := s[p := n.inputPorts[p].value];
      rest := rest - {p};
    }
  }

  /** The output setter given to the transfer function: writes the named
      output port, or fails for a name the node does not declare. */
  function OutputSetter(n: Node, port: Name, v: Option<Value>): (r: Result<Node, Error>)
    ensures r.Err? <==> port !in n.outputPorts
    ensures r.Err? ==> r.error == UnknownSetterPort(port, n.name)
    ensures r.Ok? ==> r.value.outputPorts.Keys == n.outputPorts.Keys
    ensures r.Ok? ==> GetValue(r.value.outputPorts[port]) == v
    ensures r.Ok? ==> forall q | q in n.outputPorts && q != port :: r.value.outputPorts[q] == n.outputPorts[q]
    ensures r.Ok? ==> r.value.outputPorts[port].name == n.outputPorts[port].name
    ensures r.Ok? ==> r.value.outputPorts[port].node == n.outputPorts[port].node
    ensures r.Ok? ==> r.value.(outputPorts := n.outputPorts) == n
  {
    if port !in n.outputPorts then Err(UnknownSetterPort(port, n.name))
    else Ok(n.(outputPorts := n.outputPorts[port := SetValue(n.outputPorts[port], v)]))
  }

  /** The writes of one transfer-function call replayed through the output
      setter in order; the first undeclared port name stops the call with its
      error, and the writes before it stay. */
  function Replay(n: Node, ws: seq<Write>): (Node, Option<Error>)
    decreases |ws|
  {
    if ws == [] then (n, None)
    else match OutputSetter(n, ws[0].port, ws[0].value)
      case Err(e) => (n, Some(e))
      case Ok(m) => Replay(m, ws[1..])
  }

  /** The position of the first write to a port outside `ports`, or `|ws|`. */
  function FirstUndeclared(ports: set<Name>, ws: seq<Write>): (k: nat)
    ensures k <= |ws|
    ensures forall i | 0 <= i < k :: ws[i].port in ports
    ensures k < |ws| ==> ws[k].port !in ports
  {
    if ws == [] || ws[0].port !in ports then 0 else 1 + FirstUndeclared(ports, ws[1..])
  }

  /** The value port `q` holds after the writes `ws`, read from the last
      write to `q`, or `dflt` when nothing writes it. */
  function LastWritten(ws: seq<Write>, q: Name, dflt: Option<Value>): Option<Value>
  {
    if ws == [] then dflt
    else if ws[|ws| - 1].port == q then ws[|ws| - 1].value
    else LastWritten(ws[..|ws| - 1], q, dflt)
  }

  lemma {:induction false} LastWrittenCons(w: Write, ws: seq<Write>, q: Name, dflt: Option<Value>)
    ensures LastWritten([w] + ws, q, dflt) == LastWritten(ws, q, if w.port == q then w.value else dflt)
    decreases |ws|
  {
    if ws != [] {
      assert ([w] + ws)[..|ws|] == [w] + ws[..|ws| - 1];
      LastWrittenCons(w, ws[..|ws| - 1], q, dflt);
    } else {
      assert [w][..0] == [];
    }
  }

  /** Replaying a transfer function's writes fails exactly at the first
      undeclared port name, with that name; only output port values change. */
  lemma {:induction false} ReplayOutcome(n: Node, ws: seq<Write>)
    ensures var (m, e) := Replay(n, ws);
      var k := FirstUndeclared(n.outputPorts.Keys, ws);
      && (e.Some? <==> k < |ws|)
      && (k < |ws| ==> e == Some(UnknownSetterPort(ws[k].port, n.name)))
      && m.(outputPorts := n.outputPorts) == n
      && m.outputPorts.Keys == n.outputPorts.Keys
      && (forall q | q in n.outputPorts ::
            m.outputPorts[q].name == n.outputPorts[q].name && m.outputPorts[q].node == n.outputPorts[q].node)
    decreases |ws|
  {
    if ws != [] && ws[0].port in n.outputPorts {
      var m1 := OutputSetter(n, ws[0].port, ws[0].value).value;
      ReplayOutcome(m1, ws[1..]);
      assert FirstUndeclared(n.outputPorts.Keys, ws) == 1 + FirstUndeclared(m1.outputPorts.Keys, ws[1..]);
    }
  }

  /** Last write wins: after the replay, every declared port holds the last
      value written to it before the first undeclared name, and a port
      nothing wrote keeps its value. */
  lemma {:induction false} ReplayValues(n: Node, ws: seq<Write>, q: Name)
    requires q in n.outputPorts
    ensures var m := Replay(n, ws).0;
      var k := FirstUndeclared(n.outputPorts.Keys, ws);
      q in m.outputPorts &&
      GetValue(m.outputPorts[q]) == LastWritten(ws[..k], q, GetValue(n.outputPorts[q]))
    decreases |ws|
  {
    var keys := n.outputPorts.Keys;
    if ws == [] {
    } else if ws[0].port !in keys {
      assert ws[..0] == [];
    } else {
      var m1 := OutputSetter(n, ws[0].port, ws[0].value).value;
      ReplayValues(m1, ws[1..], q);
      var k1 := FirstUndeclared(keys, ws[1..]);
      assert FirstUndeclared(keys, ws) == 1 + k1;
      assert ws[..1 + k1] == [ws[0]] + ws[1..][..k1];
      LastWrittenCons(ws[0], ws[1..][..k1], q, GetValue(n.outputPorts[q]));
    }
  }

  /** What `execute_transfer_function` does to a node with a transfer
      function: replay its writes on the current input snapshot, and mark the
      node clean only when the call returned normally. */
  function Fire(n: Node): (Node, Option<Error>)
    requires n.xfn.Some?
  {
    var (m, e) := Replay(n, n.xfn.value(InputValues(n)));
    (if e.None? then m.(isDirty := false) else m, e)
  }

  /** Calls the transfer function on the snapshot, then applies its writes
      one by one through the output setter. */
  method ExecuteTransferFunction(n: Node) returns (r: Node, err: Option<Error>)
    requires n.xfn.Some?
    ensures (r, err) == Fire(n)
    ensures err.None? ==> !r.isDirty
    ensures err.Some? ==> r.isDirty == n.isDirty
    ensures r.name == n.name && r.inputPorts == n.inputPorts && r.xfn == n.xfn
    ensures r.outputPorts.Keys == n.outputPorts.Keys
  {
    var snapshot := SnapshotInputValues(n);
    var ws := n.xfn.value(snapshot);
    r, err := n, None;
    var i := 0;
    while i < |ws|
      invariant 0 <= i <= |ws|
      invariant Replay(n, ws) == Replay(r, ws[i..])
      invariant r.(outputPorts := n.outputPorts) == n
      invariant r.outputPorts.Keys == n.outputPorts.Keys
      invariant err.None?
      decreases |ws| - i
    {
      assert ws[i..][1..] == ws[i + 1..];
      var s := OutputSetter(r, ws[i].port, ws[i].value);
      if s.Err? {
        err := Some(s.error);
        break;
      }
      r := s.value;
      i := i + 1;
    }
    if err.None? {
      r := r.(isDirty := false);
    }
  }
}
