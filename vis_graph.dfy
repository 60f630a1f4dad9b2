/** The graph the script editor draws (dsl_vis/script/graph.js): its own
    reading of the script language, into a table of nodes with ports and a
    list of connections, and the export of that table as ELK JSON for the
    layout engine.

    A JavaScript object keeps its keys in insertion order; the node table is
    a map plus the list of its keys in that order, and a node's port table a
    list of ports (looked up by key). A port refers to its node, and a
    connection to two ports: both are written here as handles (node id,
    port key), which name the same objects since no node or port is ever
    removed or replaced. */
module VisGraph {
  import opened Outcomes
  import opened Text
  import opened JsText
  import Names

  /** The side of a connection a port is on. */
  datatype PortType = Input | Output

  /** The word for a port type, as stored in `type` and in port keys. */
  function PortWord(t: PortType): string
  {
    match t
    case Input => "input"
    case Output => "output"
  }

  /** The three kinds of node the drawing tells apart. */
  datatype NodeType = PlainNode | TerminalNode | DanglingNode

  /** A port: its key in the node's port table, its side and its caption. */
  datatype VisPort = VisPort(id: string, kind: PortType, caption: string)

  /** A node: its id, caption, type and ports, in insertion order. */
  datatype VisNode = VisNode(id: string, caption: string, kind: NodeType, ports: seq<VisPort>)

  /** One end of a connection: the node's id and the port's key. */
  datatype PortHandle = PortHandle(node: string, port: string)

  datatype Connection = Connection(source: PortHandle, target: PortHandle)

  /** The whole graph: `_nodes` (a map and its keys in insertion order) and
      `_connections`. */
  datatype VisState = VisState(nodes: map<string, VisNode>, order: seq<string>, connections: seq<Connection>)

  /** A graph with no nodes and no connections. */
  const Cleared: VisState := VisState(map[], [], [])

  const TermId: string := "TERM"
  const DanglingId: string := "DANGLING"

  /** The keys of a port table, in order. */
  function Keys(ports: seq<VisPort>): seq<string>
  {
    seq(|ports|, j requires 0 <= j < |ports| => ports[j].id)
  }

  // ---------------------------------------------------------------------
  // touchNode and connect
  // ---------------------------------------------------------------------

  /** A port's key: its name, `_`, and its side. */
  function PortKey(name: string, t: PortType): string
  {
    name + "_" + PortWord(t)
  }

  /** The character `j` places into the word after `a` and `_`. */
  lemma SuffixAt(a: string, w: string, j: nat)
    requires j < |w|
    ensures (a + "_" + w)[|a| + 1 + j] == w[j]
  {
  }

  /** A key names one port only: the same name can be an input and an
      output of one node, as two ports. */
  lemma PortKeyInjective(a: string, t: PortType, b: string, u: PortType)
    requires PortKey(a, t) == PortKey(b, u)
    ensures a == b && t == u
  {
    var k := PortKey(a, t);
    if t == u {
      assert a == k[..|a|] == b;
    } else if t == Input {
      SuffixAt(a, "input", 1);
      assert false;
    } else {
      SuffixAt(b, "input", 1);
      assert false;
    }
  }

  /** The node an id given to `touchNode` stands for. */
  datatype Resolved = Resolved(key: string, kind: NodeType, caption: string)

  /** `TERM` and `DANGLING` stand for a terminal or dangling node per
      first port, labelled by that port; any other id for itself. */
  function ResolveId(id: string, ports: seq<string>): Resolved
    requires id == TermId || id == DanglingId ==> ports != []
  {
    if id == TermId then Resolved("TERM_" + ports[0], TerminalNode, ports[0])
    else if id == DanglingId then Resolved("DANG_" + ports[0], DanglingNode, ports[0])
    else Resolved(id, PlainNode, id)
  }

  /** The kinds of id: `TERM` gives the terminal `TERM_<port>`, `DANGLING`
      the dangling node `DANG_<port>`, both labelled by the port; any other
      id is a plain node labelled by itself. */
  lemma ResolveCases(id: string, ports: seq<string>)
    requires id == TermId || id == DanglingId ==> ports != []
    ensures var r := ResolveId(id, ports);
      && (r.kind == TerminalNode <==> id == TermId)
      && (r.kind == DanglingNode <==> id == DanglingId)
      && (id == TermId ==> r.key == "TERM_" + ports[0] && r.caption == ports[0])
      && (id == DanglingId ==> r.key == "DANG_" + ports[0] && r.caption == ports[0])
      && (r.kind == PlainNode ==> r.key == id && r.caption == id)
  {
  }

  /** The node `touchNode` creates for an id it has not seen. */
  function NewVisNode(r: Resolved): VisNode
  {
    VisNode(r.key, r.caption, r.kind, [])
  }

  /** One pass of `touchNode`'s port loop: the port is added unless its
      key is present. */
  function AddPort(n: VisNode, name: string, t: PortType): VisNode
  {
    var key := PortKey(name, t);
    if key in Keys(n.ports) then n else n.(ports := n.ports + [VisPort(key, t, name)])
  }

  /** `touchNode`'s port loop over `names`. */
  function AddPorts(n: VisNode, names: seq<string>, t: PortType): VisNode
    decreases |names|
  {
    if names == [] then n
    else AddPort(AddPorts(n, names[..|names| - 1], t), names[|names| - 1], t)
  }

  /** The port loop one port further. */
  lemma AddPortsSnoc(n: VisNode, names: seq<string>, i: nat, t: PortType)
    requires i < |names|
    ensures AddPorts(n, names[..i + 1], t) == AddPort(AddPorts(n, names[..i], t), names[i], t)
  {
    assert names[..i + 1][..i] == names[..i];
  }

  /** `touchNode(id, ports, t)`: the node is created when its key is
      absent, and then gets each missing port. */
  function Touch(s: VisState, id: string, ports: seq<string>, t: PortType): VisState
    requires id == TermId || id == DanglingId ==> ports != []
  {
    var r := ResolveId(id, ports);
    var base := if r.key in s.nodes then s.nodes[r.key] else NewVisNode(r);
    VisState(s.nodes[r.key := AddPorts(base, ports, t)],
             if r.key in s.nodes then s.order else s.order + [r.key],
             s.connections)
  }

  /** A node's ports are well formed: distinct keys, each key made from
      the port's caption and side. */
  predicate NodeWf(n: VisNode)
  {
    && Names.Distinct(Keys(n.ports))
    && forall j | 0 <= j < |n.ports| :: n.ports[j].id == PortKey(n.ports[j].caption, n.ports[j].kind)
  }

  /** `h` names a port of a node of `s`. */
  predicate HasPort(s: VisState, h: PortHandle)
  {
    h.node in s.nodes && h.port in Keys(s.nodes[h.node].ports)
  }

  /** The invariant of the graph: each node is stored under its own id,
      the key order lists each node once, and every connection joins two
      existing ports. */
  predicate Wf(s: VisState)
  {
    && (forall k | k in s.nodes :: s.nodes[k].id == k && NodeWf(s.nodes[k]))
    && (forall k | k in s.order :: k in s.nodes)
    && (forall k | k in s.nodes :: k in s.order)
    && Names.Distinct(s.order)
    && (forall c | c in s.connections :: HasPort(s, c.source) && HasPort(s, c.target))
  }

  /** The port loop keeps the node's id, caption, type and every port it
      had, in place; afterwards every port asked for is present, and each
      port added is on side `t` and named in `names`. */
  lemma {:induction false} AddPortsKeeps(n: VisNode, names: seq<string>, t: PortType)
    ensures var r := AddPorts(n, names, t);
      && r.id == n.id && r.caption == n.caption && r.kind == n.kind
      && |n.ports| <= |r.ports| && r.ports[..|n.ports|] == n.ports
      && (forall p | p in names :: PortKey(p, t) in Keys(r.ports))
      && (forall j | |n.ports| <= j < |r.ports| :: r.ports[j].kind == t && r.ports[j].caption in names)
  {
    if names != [] {
      var init := names[..|names| - 1];
      var last := names[|names| - 1];
      AddPortsKeeps(n, init, t);
      var m := AddPorts(n, init, t);
      var key := PortKey(last, t);
      if key !in Keys(m.ports) {
        var r := AddPort(m, last, t);
        assert Keys(r.ports) == Keys(m.ports) + [key];
        assert r.ports[..|n.ports|] == m.ports[..|n.ports|];
      }
      assert forall p | p in names :: p in init || p == last;
    }
  }

  /** The port loop keeps a node's ports well formed. */
  lemma {:induction false} AddPortsWf(n: VisNode, names: seq<string>, t: PortType)
    requires NodeWf(n)
    ensures NodeWf(AddPorts(n, names, t))
  {
    if names != [] {
      var m := AddPorts(n, names[..|names| - 1], t);
      AddPortsWf(n, names[..|names| - 1], t);
      var key := PortKey(names[|names| - 1], t);
      if key !in Keys(m.ports) {
        var r := AddPort(m, names[|names| - 1], t);
        assert Keys(r.ports) == Keys(m.ports) + [key];
      }
    }
  }

  /** Touching a node that exists already leaves ports that are present
      alone: touching twice is touching once. */
  lemma {:induction false} AddPortsPresent(n: VisNode, names: seq<string>, t: PortType)
    requires forall p | p in names :: PortKey(p, t) in Keys(n.ports)
    ensures AddPorts(n, names, t) == n
  {
    if names != [] {
      AddPortsPresent(n, names[..|names| - 1], t);
    }
  }

  /** `touchNode` is idempotent. */
  lemma TouchIdempotent(s: VisState, id: string, ports: seq<string>, t: PortType)
    requires id == TermId || id == DanglingId ==> ports != []
    requires Wf(s)
    ensures Touch(Touch(s, id, ports, t), id, ports, t) == Touch(s, id, ports, t)
  {
    var r := ResolveId(id, ports);
    var base := if r.key in s.nodes then s.nodes[r.key] else NewVisNode(r);
    AddPortsKeeps(base, ports, t);
    AddPortsPresent(AddPorts(base, ports, t), ports, t);
  }

  /** Touching changes no other node and no connection, and the key
      order only gains a new node's key at its end. A node that was there
      keeps its id, caption, type and ports, in place; a new node takes
      the caption and type its id stands for. */
  lemma TouchKeeps(s: VisState, id: string, ports: seq<string>, t: PortType)
    requires id == TermId || id == DanglingId ==> ports != []
    ensures var r := ResolveId(id, ports);
      var s' := Touch(s, id, ports, t);
      && s'.nodes.Keys == s.nodes.Keys + {r.key}
      && (forall k | k in s.nodes && k != r.key :: s'.nodes[k] == s.nodes[k])
      && s'.connections == s.connections
      && s'.order == (if r.key in s.nodes then s.order else s.order + [r.key])
      && (r.key in s.nodes ==>
            var before := s.nodes[r.key];
            var after := s'.nodes[r.key];
            && after.id == before.id && after.caption == before.caption && after.kind == before.kind
            && |before.ports| <= |after.ports| && after.ports[..|before.ports|] == before.ports)
      && (r.key !in s.nodes ==>
            s'.nodes[r.key].id == r.key && s'.nodes[r.key].caption == r.caption && s'.nodes[r.key].kind == r.kind)
  {
    var r := ResolveId(id, ports);
    var base := if r.key in s.nodes then s.nodes[r.key] else NewVisNode(r);
    AddPortsKeeps(base, ports, t);
  }

  /** After touching, the node has every port asked for, and every port
      that was there still is. */
  lemma TouchHasPorts(s: VisState, id: string, ports: seq<string>, t: PortType)
    requires id == TermId || id == DanglingId ==> ports != []
    ensures var s' := Touch(s, id, ports, t);
      && (forall p | p in ports :: HasPort(s', PortHandle(ResolveId(id, ports).key, PortKey(p, t))))
      && (forall h | HasPort(s, h) :: HasPort(s', h))
  {
    var r := ResolveId(id, ports);
    var base := if r.key in s.nodes then s.nodes[r.key] else NewVisNode(r);
    AddPortsKeeps(base, ports, t);
    var s' := Touch(s, id, ports, t);
    var after := s'.nodes[r.key];
    forall h | HasPort(s, h)
      ensures HasPort(s', h)
    {
      if h.node == r.key {
        var j :| 0 <= j < |base.ports| && Keys(base.ports)[j] == h.port;
        assert after.ports[j] == base.ports[j];
        assert Keys(after.ports)[j] == h.port;
      }
    }
  }

  /** Touching keeps the graph well formed. */
  lemma TouchWf(s: VisState, id: string, ports: seq<string>, t: PortType)
    requires id == TermId || id == DanglingId ==> ports != []
    requires Wf(s)
    ensures Wf(Touch(s, id, ports, t))
  {
    var r := ResolveId(id, ports);
    var base := if r.key in s.nodes then s.nodes[r.key] else NewVisNode(r);
    AddPortsWf(base, ports, t);
    TouchKeeps(s, id, ports, t);
    TouchHasPorts(s, id, ports, t);
    var s' := Touch(s, id, ports, t);
    forall c | c in s'.connections
      ensures HasPort(s', c.source) && HasPort(s', c.target)
    {
      assert HasPort(s, c.source) && HasPort(s, c.target);
    }
    if r.key !in s.nodes {
      forall i, j | 0 <= i < j < |s'.order|
        ensures s'.order[i] != s'.order[j]
      {
        if j == |s.order| {
          assert s'.order[i] in s.order;
        }
      }
    }
  }

  /** The connection `connect` appends for a line's two ends. */
  datatype Link = Link(srcNode: string, srcPort: string, dstNode: string, dstPort: string)

  /** `connect`: touch the source with an output port, the target with an
      input port, then append one connection between those two ports. */
  function ConnectStep(s: VisState, l: Link): VisState
  {
    var a := Touch(s, l.srcNode, [l.srcPort], Output);
    var b := Touch(a, l.dstNode, [l.dstPort], Input);
    var from := PortHandle(ResolveId(l.srcNode, [l.srcPort]).key, PortKey(l.srcPort, Output));
    var to := PortHandle(ResolveId(l.dstNode, [l.dstPort]).key, PortKey(l.dstPort, Input));
    b.(connections := b.connections + [Connection(from, to)])
  }

  /** `connect` keeps the graph well formed and always appends exactly one
      connection, from an output port of the source to an input port of
      the target; there is no duplicate check. */
  lemma ConnectEffects(s: VisState, l: Link)
    requires Wf(s)
    ensures var s' := ConnectStep(s, l);
      && Wf(s')
      && s'.connections == s.connections + [Connection(
           PortHandle(ResolveId(l.srcNode, [l.srcPort]).key, PortKey(l.srcPort, Output)),
           PortHandle(ResolveId(l.dstNode, [l.dstPort]).key, PortKey(l.dstPort, Input)))]
      && s.nodes.Keys <= s'.nodes.Keys
  {
    var a := Touch(s, l.srcNode, [l.srcPort], Output);
    var b := Touch(a, l.dstNode, [l.dstPort], Input);
    TouchWf(s, l.srcNode, [l.srcPort], Output);
    TouchWf(a, l.dstNode, [l.dstPort], Input);
    TouchKeeps(s, l.srcNode, [l.srcPort], Output);
    TouchKeeps(a, l.dstNode, [l.dstPort], Input);
    TouchHasPorts(s, l.srcNode, [l.srcPort], Output);
    TouchHasPorts(a, l.dstNode, [l.dstPort], Input);
    var from := PortHandle(ResolveId(l.srcNode, [l.srcPort]).key, PortKey(l.srcPort, Output));
    var to := PortHandle(ResolveId(l.dstNode, [l.dstPort]).key, PortKey(l.dstPort, Input));
    assert HasPort(a, from);
    AppendWf(b, Connection(from, to));
  }

  /** Appending a connection between two existing ports keeps the graph
      well formed. */
  lemma AppendWf(s: VisState, c: Connection)
    requires Wf(s) && HasPort(s, c.source) && HasPort(s, c.target)
    ensures Wf(s.(connections := s.connections + [c]))
  {
    var s' := s.(connections := s.connections + [c]);
    forall d | d in s'.connections
      ensures HasPort(s', d.source) && HasPort(s', d.target)
    {
      if d in s.connections {
        assert HasPort(s, d.source) && HasPort(s, d.target);
      }
    }
  }

  /** `connect` for each link in turn. */
  function ConnectAll(s: VisState, links: seq<Link>): VisState
    decreases |links|
  {
    if links == [] then s
    else ConnectStep(ConnectAll(s, links[..|links| - 1]), links[|links| - 1])
  }

  /** Connecting several links keeps the graph well formed and appends one
      connection per link, keeping the earlier ones. */
  lemma {:induction false} ConnectAllEffects(s: VisState, links: seq<Link>)
    requires Wf(s)
    ensures var s' := ConnectAll(s, links);
      && Wf(s')
      && |s'.connections| == |s.connections| + |links|
      && s'.connections[..|s.connections|] == s.connections
      && s.nodes.Keys <= s'.nodes.Keys
  {
    if links != [] {
      var m := ConnectAll(s, links[..|links| - 1]);
      ConnectAllEffects(s, links[..|links| - 1]);
      ConnectEffects(m, links[|links| - 1]);
      var s' := ConnectAll(s, links);
      assert s'.connections[..|m.connections|] == m.connections;
      assert s'.connections[..|s.connections|] == m.connections[..|s.connections|];
    }
  }

  // ---------------------------------------------------------------------
  // parse
  // ---------------------------------------------------------------------

  /** Why a line fails. */
  datatype Complaint =
    | NotTwoParts | SourceMissing | InvalidSource(source: string) | InvalidTarget(target: string)
    | NoSourceNode | NoSourcePort | NoTargetNode | NoTargetPort

  /** The message `error_callback` gets for a complaint. */
  function Message(c: Complaint): string
  {
    match c
    case NotTwoParts => "Expected two parts seperated by single > character"
    case SourceMissing => "Source node is missing"
    case InvalidSource(src) => "Invalid source identifier: " + src
    case InvalidTarget(dst) => "Invalid destination identifier: " + dst
    case NoSourceNode => "Expected source node identifier"
    case NoSourcePort => "Expected source node output port identifier"
    case NoTargetNode => "Expected destination node identifier"
    case NoTargetPort => "Expected destination node port identifier"
  }

  /** What one line of the script does. */
  datatype LineRead = Skipped | Linked(link: Link) | Failed(complaint: Complaint)

  /** The source end of a line: an empty left side continues the last
      source, which must exist; any other must split on `:` in two. */
  function SourceOf(left: string, last: Option<(string, string)>): Result<(string, string), Complaint>
  {
    if left == [] then
      if last.None? then Err(SourceMissing) else Ok(last.value)
    else
      var parts := Split(left, ':');
      if |parts| != 2 then Err(InvalidSource(left)) else Ok((Trim(parts[0]), Trim(parts[1])))
  }

  /** The target end of a line: `DANGLING` stands for the dangling node of
      the source, whose port is named `<source node>:<source port>`; any
      other must split on `:` in two. */
  function TargetOf(right: string, from: (string, string)): Result<(string, string), Complaint>
  {
    if right == DanglingId then Ok((DanglingId, from.0 + ":" + from.1))
    else
      var parts := Split(right, ':');
      if |parts| != 2 then Err(InvalidTarget(right)) else Ok((Trim(parts[0]), Trim(parts[1])))
  }

  /** The four emptiness checks, in order. */
  function Checked(l: Link): LineRead
  {
    if l.srcNode == [] then Failed(NoSourceNode)
    else if l.srcPort == [] then Failed(NoSourcePort)
    else if l.dstNode == [] then Failed(NoTargetNode)
    else if l.dstPort == [] then Failed(NoTargetPort)
    else Linked(l)
  }

  /** One pass of `parse`'s loop: a trimmed line that is empty or starts
      with `#` is skipped; any other must split on `>` in two. */
  function ReadVisLine(raw: string, last: Option<(string, string)>): LineRead
  {
    var line := Trim(raw);
    if line == [] || line[0] == '#' then Skipped
    else
      var halves := Split(line, '>');
      if |halves| != 2 then Failed(NotTwoParts) else ReadEnds(Trim(halves[0]), Trim(halves[1]), last)
  }

  /** The two trimmed sides of a line read as a connection. */
  function ReadEnds(left: string, right: string, last: Option<(string, string)>): LineRead
  {
    var from := SourceOf(left, last);
    if from.Err? then Failed(from.error)
    else
      var to := TargetOf(right, from.value);
      if to.Err? then Failed(to.error)
      else Checked(Link(from.value.0, from.value.1, to.value.0, to.value.1))
  }

  lemma EndsNotSkipped(left: string, right: string, last: Option<(string, string)>)
    ensures !ReadEnds(left, right, last).Skipped?
  {
  }

  lemma EndsFilled(left: string, right: string, last: Option<(string, string)>)
    requires ReadEnds(left, right, last).Linked?
    ensures var l := ReadEnds(left, right, last).link;
      l.srcNode != [] && l.srcPort != [] && l.dstNode != [] && l.dstPort != []
  {
  }

  lemma EndsContinue(right: string, last: Option<(string, string)>)
    ensures last.None? ==> ReadEnds([], right, last) == Failed(SourceMissing)
    ensures ReadEnds([], right, last).Linked? ==>
      last.Some? && (ReadEnds([], right, last).link.srcNode, ReadEnds([], right, last).link.srcPort) == last.value
  {
  }

  lemma EndsDangling(left: string, last: Option<(string, string)>)
    requires ReadEnds(left, DanglingId, last).Linked?
    ensures var l := ReadEnds(left, DanglingId, last).link;
      l.dstNode == DanglingId && l.dstPort == l.srcNode + ":" + l.srcPort
  {
  }

  /** A line is skipped exactly when, trimmed, it is empty or starts with
      `#`: a `#` anywhere else is part of the text. A line that is not
      skipped must hold exactly one `>`. */
  lemma ReadSkips(raw: string, last: Option<(string, string)>)
    ensures var line := Trim(raw);
      && (ReadVisLine(raw, last).Skipped? <==> line == [] || line[0] == '#')
      && (line != [] && line[0] != '#' && Count(line, '>') != 1 ==> ReadVisLine(raw, last) == Failed(NotTwoParts))
  {
    var halves := Split(Trim(raw), '>');
    if |halves| == 2 {
      EndsNotSkipped(Trim(halves[0]), Trim(halves[1]), last);
    }
  }

  /** A line read as a connection has a non-empty node and port at both
      ends, and its line holds exactly one `>`. */
  lemma ReadLinkedFilled(raw: string, last: Option<(string, string)>)
    requires ReadVisLine(raw, last).Linked?
    ensures var l := ReadVisLine(raw, last).link;
      && l.srcNode != [] && l.srcPort != [] && l.dstNode != [] && l.dstPort != []
      && Count(Trim(raw), '>') == 1
  {
    var halves := Split(Trim(raw), '>');
    EndsFilled(Trim(halves[0]), Trim(halves[1]), last);
  }

  /** A line with an empty left side continues the last source, and fails
      with "Source node is missing" when there is none. */
  lemma ReadContinuation(raw: string, last: Option<(string, string)>)
    requires Trim(raw) != [] && Trim(raw)[0] != '#' && Count(Trim(raw), '>') == 1
    requires Trim(Split(Trim(raw), '>')[0]) == []
    ensures last.None? ==> ReadVisLine(raw, last) == Failed(SourceMissing)
    ensures ReadVisLine(raw, last).Linked? ==>
      last.Some? && (ReadVisLine(raw, last).link.srcNode, ReadVisLine(raw, last).link.srcPort) == last.value
  {
    var halves := Split(Trim(raw), '>');
    EndsContinue(Trim(halves[1]), last);
  }

  /** A connection to `DANGLING` targets the port `<node>:<port>` of the
      node called `DANGLING`, which touching turns into `DANG_<node>:<port>`. */
  lemma ReadDangling(raw: string, last: Option<(string, string)>)
    requires Trim(raw) != [] && Trim(raw)[0] != '#' && Count(Trim(raw), '>') == 1
    requires Trim(Split(Trim(raw), '>')[1]) == DanglingId
    requires ReadVisLine(raw, last).Linked?
    ensures var l := ReadVisLine(raw, last).link;
      && l.dstNode == DanglingId && l.dstPort == l.srcNode + ":" + l.srcPort
      && ResolveId(l.dstNode, [l.dstPort]) == Resolved("DANG_" + l.dstPort, DanglingNode, l.dstPort)
  {
    var halves := Split(Trim(raw), '>');
    EndsDangling(Trim(halves[0]), last);
  }

  /** The source carried into the next line. */
  function NextSource(last: Option<(string, string)>, read: LineRead): Option<(string, string)>
  {
    if read.Linked? then Some((read.link.srcNode, read.link.srcPort)) else last
  }

  /** The source carried into line `j` when reading starts at line `i`. */
  function Carried(lines: seq<string>, last: Option<(string, string)>, i: nat, j: nat): Option<(string, string)>
    requires i <= j <= |lines|
    decreases j - i
  {
    if i == j then last else Carried(lines, NextSource(last, ReadVisLine(lines[i], last)), i + 1, j)
  }

  /** The line `error_callback` is given, counting from 0, and the message. */
  datatype Report = Report(line: nat, message: string)

  /** What parsing lines does: the connections made, in order, and the
      failure that stopped it, if any. */
  datatype ParseRun = ParseRun(links: seq<Link>, failure: Option<Report>)

  /** `parse` from line `i` on, with `last` the source so far. */
  function ParseFrom(lines: seq<string>, i: nat, last: Option<(string, string)>): ParseRun
    requires i <= |lines|
    decreases |lines| - i
  {
    if i == |lines| then ParseRun([], None)
    else
      var read := ReadVisLine(lines[i], last);
      match read
      case Skipped => ParseFrom(lines, i + 1, last)
      case Failed(c) => ParseRun([], Some(Report(i, Message(c))))
      case Linked(l) =>
        var rest := ParseFrom(lines, i + 1, Some((l.srcNode, l.srcPort)));
        ParseRun([l] + rest.links, rest.failure)
  }

  /** No line from `i` up to `k` fails, reading from line `i` with `last`. */
  predicate ReadsCleanly(lines: seq<string>, last: Option<(string, string)>, i: nat, k: nat)
    requires i <= k <= |lines|
  {
    forall j | i <= j < k :: !ReadVisLine(lines[j], Carried(lines, last, i, j)).Failed?
  }

  /** Reading cleanly extends one line backwards over a line that does not fail. */
  lemma CleanBefore(lines: seq<string>, last: Option<(string, string)>, i: nat, k: nat)
    requires i < k <= |lines|
    requires !ReadVisLine(lines[i], last).Failed?
    requires ReadsCleanly(lines, NextSource(last, ReadVisLine(lines[i], last)), i + 1, k)
    ensures ReadsCleanly(lines, last, i, k)
  {
    var next := NextSource(last, ReadVisLine(lines[i], last));
    forall j | i + 1 <= j < k
      ensures Carried(lines, last, i, j) == Carried(lines, next, i + 1, j)
    {
    }
  }

  /** The source carried to a later line, read through line `i`. */
  lemma CarriedAfter(lines: seq<string>, last: Option<(string, string)>, i: nat, k: nat)
    requires i < k <= |lines|
    ensures Carried(lines, last, i, k) == Carried(lines, NextSource(last, ReadVisLine(lines[i], last)), i + 1, k)
  {
  }

  /** Parsing stops at the first line that fails, and reports it with its
      index and message; it succeeds exactly when no line fails. */
  lemma {:induction false} ParseReportsFirstFailure(lines: seq<string>, i: nat, last: Option<(string, string)>)
    requires i <= |lines|
    ensures var run := ParseFrom(lines, i, last);
      && (run.failure.Some? ==>
            var k := run.failure.value.line;
            && i <= k < |lines|
            && ReadVisLine(lines[k], Carried(lines, last, i, k)).Failed?
            && Message(ReadVisLine(lines[k], Carried(lines, last, i, k)).complaint) == run.failure.value.message
            && ReadsCleanly(lines, last, i, k))
      && (run.failure.None? ==> ReadsCleanly(lines, last, i, |lines|))
  {
    ParseReportsFailure(lines, i, last);
    ParseCleanWithoutFailure(lines, i, last);
  }

  /** A reported failure names a failing line, its message, and a clean
      stretch before it. */
  lemma {:induction false} ParseReportsFailure(lines: seq<string>, i: nat, last: Option<(string, string)>)
    requires i <= |lines|
    decreases |lines| - i
    ensures var run := ParseFrom(lines, i, last);
      run.failure.Some? ==>
        var k := run.failure.value.line;
        && i <= k < |lines|
        && ReadVisLine(lines[k], Carried(lines, last, i, k)).Failed?
        && Message(ReadVisLine(lines[k], Carried(lines, last, i, k)).complaint) == run.failure.value.message
        && ReadsCleanly(lines, last, i, k)
  {
    if i < |lines| {
      var read := ReadVisLine(lines[i], last);
      var next := NextSource(last, read);
      if !read.Failed? {
        ParseReportsFailure(lines, i + 1, next);
        var run := ParseFrom(lines, i + 1, next);
        assert ParseFrom(lines, i, last).failure == run.failure;
        if run.failure.Some? {
          var k := run.failure.value.line;
          CleanBefore(lines, last, i, k);
          CarriedAfter(lines, last, i, k);
        }
      }
    }
  }

  /** A parse that reports no failure read every line cleanly. */
  lemma {:induction false} ParseCleanWithoutFailure(lines: seq<string>, i: nat, last: Option<(string, string)>)
    requires i <= |lines|
    decreases |lines| - i
    ensures ParseFrom(lines, i, last).failure.None? ==> ReadsCleanly(lines, last, i, |lines|)
  {
    if i < |lines| {
      var read := ReadVisLine(lines[i], last);
      var next := NextSource(last, read);
      if !read.Failed? {
        ParseCleanWithoutFailure(lines, i + 1, next);
        assert ParseFrom(lines, i, last).failure == ParseFrom(lines, i + 1, next).failure;
        if ParseFrom(lines, i + 1, next).failure.None? {
          CleanBefore(lines, last, i, |lines|);
        }
      }
    }
  }

  /** A successful parse connects every line that is not skipped: as many
      connections as such lines. */
  lemma {:induction false} ParseLinksEveryLine(lines: seq<string>, i: nat, last: Option<(string, string)>)
    requires i <= |lines|
    requires ParseFrom(lines, i, last).failure.None?
    decreases |lines| - i
    ensures |ParseFrom(lines, i, last).links| == |lines| - i - SkippedCount(lines, i, last)
  {
    if i < |lines| {
      var read := ReadVisLine(lines[i], last);
      ParseLinksEveryLine(lines, i + 1, NextSource(last, read));
    }
  }

  /** The number of skipped lines from line `i` on. */
  function SkippedCount(lines: seq<string>, i: nat, last: Option<(string, string)>): (n: nat)
    requires i <= |lines|
    ensures n <= |lines| - i
    decreases |lines| - i
  {
    if i == |lines| then 0
    else
      var read := ReadVisLine(lines[i], last);
      (if read.Skipped? then 1 else 0) + SkippedCount(lines, i + 1, NextSource(last, read))
  }

  /** Parsing from a line that connects `l`. */
  lemma ParseLinkedStep(lines: seq<string>, i: nat, last: Option<(string, string)>, l: Link)
    requires i < |lines| && ReadVisLine(lines[i], last) == Linked(l)
    ensures var rest := ParseFrom(lines, i + 1, Some((l.srcNode, l.srcPort)));
      ParseFrom(lines, i, last) == ParseRun([l] + rest.links, rest.failure)
  {
  }

  /** A parse that has made `done` so far and reads line `i` as a
      connection goes on having made `done` and that connection. */
  lemma ParseAdvance(lines: seq<string>, i: nat, last: Option<(string, string)>, l: Link,
                     done: seq<Link>, whole: ParseRun)
    requires i < |lines| && ReadVisLine(lines[i], last) == Linked(l)
    requires whole == Prefixed(done, ParseFrom(lines, i, last))
    ensures whole == Prefixed(done + [l], ParseFrom(lines, i + 1, Some((l.srcNode, l.srcPort))))
  {
    var rest := ParseFrom(lines, i + 1, Some((l.srcNode, l.srcPort)));
    ParseLinkedStep(lines, i, last, l);
    assert done + ([l] + rest.links) == (done + [l]) + rest.links;
  }

  /** A parse that has made `done` so far and reads line `i` as a failure
      ends there, reporting it. */
  lemma ParseFailedStep(lines: seq<string>, i: nat, last: Option<(string, string)>, done: seq<Link>, whole: ParseRun)
    requires i < |lines| && ReadVisLine(lines[i], last).Failed?
    requires whole == Prefixed(done, ParseFrom(lines, i, last))
    ensures whole == ParseRun(done, Some(Report(i, Message(ReadVisLine(lines[i], last).complaint))))
  {
    assert done + [] == done;
  }

  /** A skipped line leaves the parse as it was. */
  lemma ParseSkippedStep(lines: seq<string>, i: nat, last: Option<(string, string)>, done: seq<Link>, whole: ParseRun)
    requires i < |lines| && ReadVisLine(lines[i], last).Skipped?
    requires whole == Prefixed(done, ParseFrom(lines, i, last))
    ensures whole == Prefixed(done, ParseFrom(lines, i + 1, last))
  {
  }

  /** Past the last line, the parse has made `done` and succeeded. */
  lemma ParseEnd(lines: seq<string>, i: nat, last: Option<(string, string)>, done: seq<Link>, whole: ParseRun)
    requires i == |lines| && whole == Prefixed(done, ParseFrom(lines, i, last))
    ensures whole == ParseRun(done, None)
  {
    assert done + [] == done;
  }

  /** Connecting `l` after `done`. */
  lemma ConnectedSoFar(s: VisState, done: seq<Link>, l: Link, pre: VisState, post: VisState)
    requires pre == ConnectAll(s, done)
    requires post == ConnectStep(pre, Link(l.srcNode, l.srcPort, l.dstNode, l.dstPort))
    ensures post == ConnectAll(s, done + [l])
  {
    ConnectAllSnoc(s, done, l);
  }

  /** Connecting one more link. */
  lemma ConnectAllSnoc(s: VisState, links: seq<Link>, l: Link)
    ensures ConnectAll(s, links + [l]) == ConnectStep(ConnectAll(s, links), l)
  {
    assert (links + [l])[..|links|] == links;
  }

  /** `run` with `done` made before it. */
  function Prefixed(done: seq<Link>, run: ParseRun): ParseRun
  {
    ParseRun(done + run.links, run.failure)
  }

  // ---------------------------------------------------------------------
  // elkJson
  // ---------------------------------------------------------------------

  datatype ElkLabel = ElkLabel(id: string, text: string)

  datatype ElkPort = ElkPort(id: string, caption: string, kind: PortType, width: int, height: int, labels: seq<ElkLabel>)

  datatype ElkChild = ElkChild(id: string, kind: NodeType, caption: string, width: int, height: int,
                               labels: seq<ElkLabel>, ports: seq<ElkPort>)

  datatype ElkEdge = ElkEdge(id: string, sources: seq<string>, targets: seq<string>)

  /** The JSON handed to the layout engine: the root's id, its layout
      algorithm, one child per node and one edge per connection. */
  datatype ElkGraph = ElkGraph(id: string, algorithm: string, children: seq<ElkChild>, edges: seq<ElkEdge>)

  /** The number of input ports among `ports`. */
  function InputCount(ports: seq<VisPort>): (n: nat)
    ensures n <= |ports|
    decreases |ports|
  {
    if ports == [] then 0
    else InputCount(ports[..|ports| - 1]) + (if ports[|ports| - 1].kind == Input then 1 else 0)
  }

  /** The number of output ports among `ports`. */
  function OutputCount(ports: seq<VisPort>): nat
    decreases |ports|
  {
    if ports == [] then 0
    else OutputCount(ports[..|ports| - 1]) + (if ports[|ports| - 1].kind == Output then 1 else 0)
  }

  /** Every port is an input or an output: the ports that are not inputs
      are the outputs. */
  lemma {:induction false} InputsAndOutputs(ports: seq<VisPort>)
    ensures InputCount(ports) + OutputCount(ports) == |ports|
    decreases |ports|
  {
    if ports != [] {
      InputsAndOutputs(ports[..|ports| - 1]);
    }
  }

  /** A box's height: 20 for a terminal or dangling node, otherwise 30 and
      12 per port on its fuller side. */
  function BoxHeight(kind: NodeType, inputs: nat, outputs: nat): (h: int)
    ensures kind == TerminalNode || kind == DanglingNode ==> h == 20
    ensures kind == PlainNode ==> h >= 30 + 12 * inputs && h >= 30 + 12 * outputs
    ensures kind == PlainNode ==> h == 30 + 12 * inputs || h == 30 + 12 * outputs
  {
    var nPorts := if inputs >= outputs then inputs else outputs;
    if kind == TerminalNode || kind == DanglingNode then 20 else 30 + nPorts * 12
  }

  /** The JSON of a port of the node with id `key`. */
  function PortJson(key: string, p: VisPort): ElkPort
  {
    ElkPort(key + "." + p.id, p.caption, p.kind, 5, 5, [ElkLabel(key + "." + p.id + "_label", p.id)])
  }

  /** The JSON of the first ports of the node with id `key`. */
  function PortsJson(key: string, ports: seq<VisPort>): (r: seq<ElkPort>)
    ensures |r| == |ports|
    decreases |ports|
  {
    if ports == [] then []
    else PortsJson(key, ports[..|ports| - 1]) + [PortJson(key, ports[|ports| - 1])]
  }

  lemma {:induction false} PortsJsonAt(key: string, ports: seq<VisPort>, j: nat)
    requires j < |ports|
    ensures PortsJson(key, ports)[j] == PortJson(key, ports[j])
    decreases |ports|
  {
    if j < |ports| - 1 {
      PortsJsonAt(key, ports[..|ports| - 1], j);
    }
  }

  /** The JSON of the node with id `key`. */
  function ChildJson(key: string, n: VisNode): ElkChild
  {
    var inputs := InputCount(n.ports);
    ElkChild(key, n.kind, n.caption, 40 + 6 * Utf16Length(n.caption),
             BoxHeight(n.kind, inputs, |n.ports| - inputs),
             [ElkLabel(key + "_label", n.caption)], PortsJson(key, n.ports))
  }

  /** The children for the node keys `keys`, in order. */
  function ChildrenJson(s: VisState, keys: seq<string>): (r: seq<ElkChild>)
    requires forall k | k in keys :: k in s.nodes
    ensures |r| == |keys|
    decreases |keys|
  {
    if keys == [] then []
    else ChildrenJson(s, keys[..|keys| - 1]) + [ChildJson(keys[|keys| - 1], s.nodes[keys[|keys| - 1]])]
  }

  lemma ChildrenJsonSnoc(s: VisState, keys: seq<string>, key: string)
    requires forall x | x in keys :: x in s.nodes
    requires key in s.nodes
    ensures ChildrenJson(s, keys + [key]) == ChildrenJson(s, keys) + [ChildJson(key, s.nodes[key])]
  {
    assert (keys + [key])[..|keys|] == keys;
  }

  lemma {:induction false} ChildrenJsonAt(s: VisState, keys: seq<string>, k: nat)
    requires forall x | x in keys :: x in s.nodes
    requires k < |keys|
    ensures ChildrenJson(s, keys)[k] == ChildJson(keys[k], s.nodes[keys[k]])
    decreases |keys|
  {
    if k < |keys| - 1 {
      ChildrenJsonAt(s, keys[..|keys| - 1], k);
    }
  }

  /** The id of a connection end in the JSON: node id, `.`, port key. */
  function EndId(h: PortHandle): string
  {
    h.node + "." + h.port
  }

  /** The JSON of the `i`-th connection. */
  function EdgeJson(i: nat, c: Connection): ElkEdge
  {
    ElkEdge("e" + Decimal(i), [EndId(c.source)], [EndId(c.target)])
  }

  /** The edges for the first connections, in order. */
  function EdgesJson(cs: seq<Connection>): (r: seq<ElkEdge>)
    ensures |r| == |cs|
    decreases |cs|
  {
    if cs == [] then [] else EdgesJson(cs[..|cs| - 1]) + [EdgeJson(|cs| - 1, cs[|cs| - 1])]
  }

  lemma EdgesJsonSnoc(cs: seq<Connection>, c: Connection)
    ensures EdgesJson(cs + [c]) == EdgesJson(cs) + [EdgeJson(|cs|, c)]
  {
    assert (cs + [c])[..|cs|] == cs;
  }

  lemma {:induction false} EdgesJsonAt(cs: seq<Connection>, i: nat)
    requires i < |cs|
    ensures EdgesJson(cs)[i] == EdgeJson(i, cs[i])
    decreases |cs|
  {
    if i < |cs| - 1 {
      EdgesJsonAt(cs[..|cs| - 1], i);
    }
  }

  /** `elkJson` of a graph. */
  function Elk(s: VisState): ElkGraph
    requires Wf(s)
  {
    ElkGraph("root", "layered", ChildrenJson(s, s.order), EdgesJson(s.connections))
  }

  /** The shape of the JSON: one child per node, in key order, under the
      node's id, with distinct ids; one edge per connection, the `i`-th
      with id `e<i>`, and no two edges with one id. */
  lemma ElkShape(s: VisState)
    requires Wf(s)
    ensures var g := Elk(s);
      && |g.children| == |s.order|
      && (forall k | 0 <= k < |s.order| :: g.children[k].id == s.order[k])
      && (forall k, m | 0 <= k < m < |g.children| :: g.children[k].id != g.children[m].id)
      && |g.edges| == |s.connections|
      && (forall i | 0 <= i < |g.edges| :: g.edges[i].id == "e" + Decimal(i))
      && (forall i, m | 0 <= i < m < |g.edges| :: g.edges[i].id != g.edges[m].id)
  {
    var g := Elk(s);
    forall k | 0 <= k < |s.order|
      ensures g.children[k].id == s.order[k]
    {
      ChildrenJsonAt(s, s.order, k);
    }
    forall i | 0 <= i < |g.edges|
      ensures g.edges[i].id == "e" + Decimal(i)
    {
      EdgesJsonAt(s.connections, i);
    }
    forall i, m | 0 <= i < m < |g.edges|
      ensures g.edges[i].id != g.edges[m].id
    {
      if g.edges[i].id == g.edges[m].id {
        assert Decimal(i) == g.edges[i].id[1..] == g.edges[m].id[1..] == Decimal(m);
        DecimalInjective(i, m);
      }
    }
  }

  /** The size of a node's box: 40 wide plus 6 per UTF-16 unit of its
      caption; 20 high for a terminal or dangling node, otherwise 30 plus 12
      per port on the side with more ports. Its ports are the node's ports
      in insertion order, each under `<node id>.<port key>`. */
  lemma ChildSize(key: string, n: VisNode)
    ensures var c := ChildJson(key, n);
      && c.width == 40 + 6 * Utf16Length(n.caption)
      && (n.kind != PlainNode ==> c.height == 20)
      && (n.kind == PlainNode ==>
            var big := if InputCount(n.ports) >= OutputCount(n.ports) then InputCount(n.ports) else OutputCount(n.ports);
            c.height == 30 + 12 * big)
      && |c.ports| == |n.ports|
      && (forall j | 0 <= j < |n.ports| :: c.ports[j].id == key + "." + n.ports[j].id && c.ports[j].kind == n.ports[j].kind)
  {
    InputsAndOutputs(n.ports);
    forall j | 0 <= j < |n.ports|
      ensures ChildJson(key, n).ports[j] == PortJson(key, n.ports[j])
    {
      PortsJsonAt(key, n.ports, j);
    }
  }

  /** Some child of `g` declares a port with id `end`. */
  predicate Declared(g: ElkGraph, end: string)
  {
    exists k, j | 0 <= k < |g.children| && 0 <= j < |g.children[k].ports| :: g.children[k].ports[j].id == end
  }

  /** Every edge of the JSON joins two ports the JSON declares: the `i`-th
      runs from the source port of the `i`-th connection to its target
      port, and a child declares each of them. */
  lemma ElkEdgesResolve(s: VisState)
    requires Wf(s)
    ensures var g := Elk(s);
      forall i | 0 <= i < |g.edges| ::
        && g.edges[i].sources == [EndId(s.connections[i].source)]
        && g.edges[i].targets == [EndId(s.connections[i].target)]
        && Declared(g, EndId(s.connections[i].source))
        && Declared(g, EndId(s.connections[i].target))
  {
    var g := Elk(s);
    forall i | 0 <= i < |g.edges|
      ensures g.edges[i].sources == [EndId(s.connections[i].source)]
      ensures g.edges[i].targets == [EndId(s.connections[i].target)]
      ensures Declared(g, EndId(s.connections[i].source))
      ensures Declared(g, EndId(s.connections[i].target))
    {
      EdgesJsonAt(s.connections, i);
      var c := s.connections[i];
      assert c in s.connections;
      EndDeclared(s, c.source);
      EndDeclared(s, c.target);
    }
  }

  /** A port end that exists is declared by the child of its node. */
  lemma EndDeclared(s: VisState, h: PortHandle)
    requires Wf(s) && HasPort(s, h)
    ensures Declared(Elk(s), EndId(h))
  {
    var g := Elk(s);
    var k :| 0 <= k < |s.order| && s.order[k] == h.node;
    var n := s.nodes[h.node];
    var j :| 0 <= j < |n.ports| && Keys(n.ports)[j] == h.port;
    ChildrenJsonAt(s, s.order, k);
    PortsJsonAt(h.node, n.ports, j);
    assert g.children[k].ports[j].id == EndId(h);
  }

  // ---------------------------------------------------------------------
  // The Graph object
  // ---------------------------------------------------------------------

  /** `Graph`: the node table, its keys in insertion order, and the
      connections. */
  class Graph {
    var nodes: map<string, VisNode>
    var order: seq<string>
    var connections: seq<Connection>

    ghost function State(): VisState
      reads this
    {
      VisState(nodes, order, connections)
    }

    ghost predicate Valid()
      reads this
    {
      Wf(State())
    }

    /** `new Graph()`: no nodes, no connections. */
    constructor ()
      ensures State() == Cleared && Valid()
    {
      nodes, order, connections := map[], [], [];
    }

    /** `reset`: deletes every node and connection. */
    method Reset()
      modifies this
      ensures State() == Cleared && Valid()
    {
      nodes, order, connections := map[], [], [];
    }

    /** `touchNode`: adds the node if its key is absent, then each port
      whose key is absent; returns (the key of) the node. */
    method TouchNode(id: string, ports: seq<string>, portType: PortType) returns (key: string)
      requires id == TermId || id == DanglingId ==> ports != []
      modifies this
      ensures key == ResolveId(id, ports).key
      ensures State() == Touch(old(State()), id, ports, portType)
    {
      var r := ResolveId(id, ports);
      key := r.key;
      if key !in nodes {
        nodes := nodes[key := NewVisNode(r)];
        order := order + [key];
      }
      AddPortsTo(key, ports, portType);
    }

    /** `touchNode`'s port loop on the node stored under `key`. */
    method AddPortsTo(key: string, ports: seq<string>, portType: PortType)
      requires key in nodes
      modifies this
      ensures nodes == old(nodes)[key := AddPorts(old(nodes)[key], ports, portType)]
      ensures order == old(order) && connections == old(connections)
    {
      ghost var base := nodes[key];
      assert nodes == old(nodes)[key := AddPorts(base, ports[..0], portType)];
      var i := 0;
      while i < |ports|
        invariant 0 <= i <= |ports|
        invariant nodes == old(nodes)[key := AddPorts(base, ports[..i], portType)]
        invariant order == old(order) && connections == old(connections)
      {
        var portKey := PortKey(ports[i], portType);
        var node := nodes[key];
        if portKey !in Keys(node.ports) {
          nodes := nodes[key := node.(ports := node.ports + [VisPort(portKey, portType, ports[i])])];
        }
        AddPortsSnoc(base, ports, i, portType);
        i := i + 1;
      }
      assert ports[..i] == ports;
    }

    /** `connect`: touches both nodes, then appends the connection between
      the source's output port and the target's input port. */
    method Connect(sourceNode: string, sourcePort: string, targetNode: string, targetPort: string)
      modifies this
      ensures State() == ConnectStep(old(State()), Link(sourceNode, sourcePort, targetNode, targetPort))
    {
      var src := TouchNode(sourceNode, [sourcePort], Output);
      var dst := TouchNode(targetNode, [targetPort], Input);
      connections := connections + [Connection(PortHandle(src, PortKey(sourcePort, Output)),
                                                PortHandle(dst, PortKey(targetPort, Input)))];
    }

    /** `parse`: reads the lines of `str` in order, connecting as it goes;
      the first failing line is reported (its index and message, as
      `error_callback` gets them) and ends the parse with `false`, keeping
      the connections made before it. */
    method Parse(str: string) returns (ok: bool, report: Option<Report>)
      requires Valid()
      modifies this
      ensures Valid()
      ensures var run := ParseFrom(Split(str, '\n'), 0, None);
        && ok == run.failure.None? && report == run.failure
        && State() == ConnectAll(old(State()), run.links)
    {
      ok, report := ParseLines(Split(str, '\n'));
    }

    /** `parse`'s loop over the lines of the script. */
    method ParseLines(lines: seq<string>) returns (ok: bool, report: Option<Report>)
      requires Valid()
      modifies this
      ensures Valid()
      ensures var run := ParseFrom(lines, 0, None);
        && ok == run.failure.None? && report == run.failure
        && State() == ConnectAll(old(State()), run.links)
    {
      var last: Option<(string, string)> := None;
      ghost var done: seq<Link> := [];
      ghost var whole := ParseFrom(lines, 0, None);
      assert done + whole.links == whole.links;
      var i := 0;
      while i < |lines|
        invariant 0 <= i <= |lines|
        invariant whole == Prefixed(done, ParseFrom(lines, i, last))
        invariant State() == ConnectAll(old(State()), done)
      {
        var read := ReadVisLine(lines[i], last);
        if read.Failed? {
          ParseFailedStep(lines, i, last, done, whole);
          ok, report := false, Some(Report(i, Message(read.complaint)));
          ConnectAllEffects(old(State()), done);
          return;
        }
        if read.Linked? {
          var l := read.link;
          ParseAdvance(lines, i, last, l, done, whole);
          ghost var pre := State();
          Connect(l.srcNode, l.srcPort, l.dstNode, l.dstPort);
          ConnectedSoFar(old(State()), done, l, pre, State());
          last := Some((l.srcNode, l.srcPort));
          done := done + [l];
        } else {
          ParseSkippedStep(lines, i, last, done, whole);
        }
        i := i + 1;
      }
      ParseEnd(lines, i, last, done, whole);
      ok, report := true, None;
      ConnectAllEffects(old(State()), done);
    }

    /** `elkJson`: one child per node, in key order, and one edge per
      connection. */
    method ElkJson() returns (g: ElkGraph)
      requires Valid()
      ensures g == Elk(State())
    {
      var children := ChildrenLoop(VisState(nodes, order, connections));
      var edges := EdgesLoop(connections);
      g := ElkGraph("root", "layered", children, edges);
    }
  }

  /** `elkJson`'s loop over the node keys. */
  method ChildrenLoop(s: VisState) returns (children: seq<ElkChild>)
    requires forall x | x in s.order :: x in s.nodes
    ensures children == ChildrenJson(s, s.order)
  {
    children := [];
    var k := 0;
    while k < |s.order|
      invariant 0 <= k <= |s.order|
      invariant children == ChildrenJson(s, s.order[..k])
    {
      var key := s.order[k];
      var child := NodeJson(key, s.nodes[key]);
      assert s.order[..k + 1] == s.order[..k] + [key];
      ChildrenJsonSnoc(s, s.order[..k], key);
      children := children + [child];
      k := k + 1;
    }
    assert s.order[..k] == s.order;
  }

  /** `elkJson`'s loop over the connections, numbering the edges. */
  method EdgesLoop(cs: seq<Connection>) returns (edges: seq<ElkEdge>)
    ensures edges == EdgesJson(cs)
  {
    edges := [];
    var i := 0;
    while i < |cs|
      invariant 0 <= i <= |cs|
      invariant edges == EdgesJson(cs[..i])
    {
      var c := cs[i];
      assert cs[..i + 1] == cs[..i] + [c];
      EdgesJsonSnoc(cs[..i], c);
      edges := edges + [ElkEdge("e" + Decimal(i), [c.source.node + "." + c.source.port],
                                [c.target.node + "." + c.target.port])];
      i := i + 1;
    }
    assert cs[..i] == cs;
  }

  /** The body of `elkJson`'s node loop: count the input and output ports,
      size the box, then list the ports. */
  method NodeJson(key: string, n: VisNode) returns (child: ElkChild)
    ensures child == ChildJson(key, n)
  {
    var nInputs := 0;
    var nOutputs := 0;
    var j := 0;
    while j < |n.ports|
      invariant 0 <= j <= |n.ports|
      invariant nInputs == InputCount(n.ports[..j]) && nOutputs == j - nInputs
    {
      assert n.ports[..j + 1][..j] == n.ports[..j];
      if n.ports[j].kind == Input {
        nInputs := nInputs + 1;
      } else {
        nOutputs := nOutputs + 1;
      }
      j := j + 1;
    }
    assert n.ports[..j] == n.ports;
    var nPorts := if nInputs >= nOutputs then nInputs else nOutputs;
    var height := 30 + nPorts * 12;
    if n.kind == TerminalNode || n.kind == DanglingNode {
      height := 20;
    }
    var ports: seq<ElkPort> := [];
    j := 0;
    while j < |n.ports|
      invariant 0 <= j <= |n.ports|
      invariant ports == PortsJson(key, n.ports[..j])
    {
      var p := n.ports[j];
      assert n.ports[..j + 1][..j] == n.ports[..j];
      ports := ports + [ElkPort(key + "." + p.id, p.caption, p.kind, 5, 5, [ElkLabel(key + "." + p.id + "_label", p.id)])];
      j := j + 1;
    }
    assert n.ports[..j] == n.ports;
    child := ElkChild(key, n.kind, n.caption, 40 + 6 * Utf16Length(n.caption), height,
                      [ElkLabel(key + "_label", n.caption)], ports);
  }

  // ---------------------------------------------------------------------
  // touchNode as written: the `in` operator and inherited names
  // ---------------------------------------------------------------------

  /** Names a plain JavaScript object inherits from `Object.prototype`. */
  const InheritedNames: set<string> := {
    "constructor", "hasOwnProperty", "isPrototypeOf", "propertyIsEnumerable",
    "toLocaleString", "toString", "valueOf", "__proto__",
    "__defineGetter__", "__defineSetter__", "__lookupGetter__", "__lookupSetter__"
  }

  /** What `touchNode` does as written. */
  datatype TouchOutcome = Touched(state: VisState) | TypeError

  /** `touchNode` as written tests `id in this._nodes`, which is also true
      for an inherited name: such an id is taken for an existing node, the
      inherited member is used as the node, and its missing port table
      throws a TypeError at the first port. */
  function TouchAsWritten(s: VisState, id: string, ports: seq<string>, t: PortType): TouchOutcome
    requires id == TermId || id == DanglingId ==> ports != []
  {
    var key := ResolveId(id, ports).key;
    if key !in s.nodes && key in InheritedNames then
      if ports == [] then Touched(s) else TypeError
    else Touched(Touch(s, id, ports, t))
  }

  /** Away from inherited names the code as written is the model. */
  lemma TouchAsWrittenAgrees(s: VisState, id: string, ports: seq<string>, t: PortType)
    requires id == TermId || id == DanglingId ==> ports != []
    requires ResolveId(id, ports).key !in InheritedNames
    ensures TouchAsWritten(s, id, ports, t) == Touched(Touch(s, id, ports, t))
  {
  }

  /** A script line `toString:out > sink:in` makes `connect` touch a node
      called `toString` with one port: as written that throws. */
  lemma InheritedIdThrows()
    ensures TouchAsWritten(Cleared, "toString", ["out"], Output) == TypeError
  {
    assert "toString" != TermId && "toString" != DanglingId;
    assert "toString" in InheritedNames;
  }

  /** With own keys only, touching registers every id, inherited names
      included: the node exists afterwards with the port asked for. */
  lemma TouchRegisters(s: VisState, id: string, ports: seq<string>, t: PortType)
    requires id == TermId || id == DanglingId ==> ports != []
    requires Wf(s)
    ensures var key := ResolveId(id, ports).key;
      && key in Touch(s, id, ports, t).nodes
      && forall p | p in ports :: HasPort(Touch(s, id, ports, t), PortHandle(key, PortKey(p, t)))
  {
    TouchHasPorts(s, id, ports, t);
    TouchKeeps(s, id, ports, t);
  }
}
