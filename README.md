# dataflow: a demand-driven evaluation network, in Dafny

The dataflow package evaluates a network of *nodes*. A node has named input
ports, named output ports, a client *transfer function* and a dirty flag.
Inputs come from named *terminals* or from other nodes' output ports, along
*edges* into input ports.

- **Writing a terminal** marks every node downstream of it dirty.
- **Reading an output port** first runs an integrity check: every node has a
  transfer function and every terminal has a value. The read then pulls
  recursively. A clean node answers from its cached outputs. A dirty node
  refreshes its input ports, in sorted name order, from the first edge into
  each. It then calls its transfer function and becomes clean.
- **Network2Xfn** wraps a network so that it serves as the transfer function
  of a node in a super network.
- **NetworkFactory** builds a network from a small line-based script:
  `TERM:x > node:in`, continuation lines `> other:in`, and `node:out >
  DANGLING`.
- **graph.js** is the script editor's own reader of the same language. It
  produces a table of nodes, ports and connections, and exports it as ELK
  JSON for layout.

The model has one module per source file or concern:

| module | file | models |
|---|---|---|
| `Outcomes`, `Entities` | `entities.dfy` | values, handles, errors, terminals, ports |
| `Names` | `names.dfy` | Python string order and `sorted` |
| `Text` | `text.dfy` | Python `strip`, `split`, `splitlines`, comment removal |
| `JsText` | `js_text.dfy` | JavaScript `trim`, `.length`, decimal text |
| `Nodes` | `node.dfy` | `Node` |
| `Graph`, `Walker` | `graph.dfy`, `walker.dfy` | edge queries, `WalkerDownstream` |
| `Dirty` | `dirty.dfy` | `DirtyPropagator` |
| `Integrity` | `integrity.dfy` | `NetworkIntegrity` |
| `Evaluation` | `eval.dfy` | what the recursive read promises |
| `NetworkApi` | `network.dfy` | the `Network` class |
| `NetworkXfn` | `network_to_xfn.dfy` | the `Network2Xfn` class |
| `Factory` | `factory.dfy` | the `NetworkFactory` class |
| `VisGraph` | `vis_graph.dfy` | the `Graph` of graph.js |

Python exceptions become `Result`/`Option` values carrying an `Error`. A
failing call leaves the state exactly as the source leaves it at the raise,
except for `Network2Xfn.xfn`, whose output-setter calls are returned rather
than made (see "Left out").

Object identity becomes names:
- a terminal is named by its name;
- an output port by `OutputSrc(node, port)`;
- an input port by `PortRef(node, port)`.

A transfer function is a Dafny function. It maps the snapshot of input values
to the sequence of output-setter calls it makes. The network replays those
calls and stops at the first call that names an undeclared port.

The read is specified by the ghost predicate `Evaluation.PullOutcome`. The
recursive methods of `NetworkApi` are proved against it. It fixes the value
read along the whole chain of nodes a read fires: each of them ran its
transfer function on fresh inputs and holds the result (`Settled`). It also
names the reason of every failure: a dirty node upstream with an input that
no edge feeds, or whose transfer function, fired on fresh inputs, named an
undeclared output port (`ReadError`). "Upstream" here means reached through a
chain of first feeders that are all dirty (`DirtyUpstream`): the read stops at
a clean node and answers from its cached outputs. This holds whether or not
the network is coherent, that is, whether or not every clean node's feeders
are clean; registering a port or an edge on a clean node can make it
incoherent. The walk and the
dirty propagation are specified by ghost functions (`Graph.Walk`,
`Dirty.Dirtied`), and the methods are proved equal to them.

## Model

| member | source | states |
|---|---|---|
| Entities.NewTerminal | implementation/terminal.py:9-11 | a new terminal has the given name and no value |
| Entities.NewOutputPort | implementation/output_port.py:6-9 | a new output port records its name and node and holds no value |
| Entities.SetValue | implementation/output_port.py:11-15 | after `set_value(v)`, `get_value` returns v; name and node are kept |
| Entities.SetValueTwice | implementation/output_port.py:11-12 | a second write overwrites the first |
| Nodes.NewNode | implementation/node.py:27-33 | a new node is dirty, has no transfer function and no ports |
| Nodes.RegisterInputPort | implementation/node.py:35-37 | setdefault: an existing port is kept unchanged; a new one is added with no value; nothing else changes |
| Nodes.RegisterOutputPort | implementation/node.py:39-41 | setdefault for output ports, as for input ports |
| Nodes.SetXfn | implementation/node.py:43-47 | only the transfer function changes |
| Nodes.SortedInputPorts | implementation/node.py:67-71 | the input port names in strictly ascending string order, each exactly once |
| Nodes.SnapshotInputValues | implementation/node.py:78-85 | the snapshot has one entry per input port, holding that port's value |
| Nodes.OutputSetter | implementation/node.py:87-98 | fails with the unknown-output-port error, naming port and node, exactly when the port is undeclared; otherwise only that port's value changes |
| Nodes.ReplayOutcome | implementation/node.py:53-61 | replaying a transfer function's writes fails exactly at the first undeclared port, with that port's error; the ports and the rest of the node are kept |
| Nodes.ReplayValues | implementation/node.py:53-61 | each output port holds the last value written to it before the first failing write, or its old value |
| Nodes.ExecuteTransferFunction | implementation/node.py:53-61 | the node fires on its input snapshot; it becomes clean exactly when the transfer function returns normally, and its ports and function are kept |
| Names.SortNames | api/network.py:143-144 | `sorted`: the result is in ascending order and a permutation of the input |
| Names.BelowTotal | implementation/walker_downstream.py:33-34 | the name order is total, so the sorted orders are determined (with BelowTransitive, BelowAsymmetric) |
| Names.SortKeys | implementation/node.py:71 | sorting a key set yields the strictly sorted list of exactly those keys |
| Names.StrictlySortedUnique | implementation/node.py:71 | two strictly sorted lists with the same members are equal |
| Graph.NodesFedBy | api/network.py:136-154 | nodes fed by a source: ascending by name, one entry per edge from that source, and a node appears iff such an edge exists |
| Graph.FirstEdgeInto | api/network.py:156-161 | the earliest edge into the port, or none exactly when no edge enters it |
| Graph.FirstEdgeIntoAppend | api/network.py:156-159 | appending an edge never changes an existing first feeder |
| Graph.WalkVisitsReachable | implementation/walker_downstream.py:28-36 | the walk from a node visits exactly the nodes reachable from it along edges, the node included |
| Graph.TerminalWalkVisitsReachable | implementation/walker_downstream.py:21-26 | the walk from a terminal visits exactly the nodes reachable from it, and nothing when no edge leaves it |
| Graph.WalkListMember | implementation/walker_downstream.py:25-26 | walking a list of nodes visits exactly what some walk from one of them visits |
| Walker.WalkFromNode | implementation/walker_downstream.py:28-36 | the recursive walk emits the visit sequence `Walk` defines: the node, then per output port in name order, its fed nodes in name order |
| Walker.WalkFromTerminal | implementation/walker_downstream.py:21-26 | the walk from a terminal emits the sequence `TerminalWalk` defines |
| Dirty.Propagate | implementation/dirty_propagator.py:12-18 | after propagation a node is dirty iff it was dirty or is reachable from the terminal; nothing else changes |
| Dirty.DirtiedIdempotent | implementation/dirty_propagator.py:12-18 | propagating twice from the same terminal is the same as once |
| Dirty.DirtiedCoherent | implementation/dirty_propagator.py:12-18 | propagation keeps the network coherent (a clean node's first feeders are clean) |
| Integrity.FirstMissingXfn | implementation/network_integrity.py:35-44 | the first node, in registration order, without a transfer function |
| Integrity.FirstUnsetTerminal | implementation/network_integrity.py:47-56 | the first terminal, in registration order, without a value |
| Integrity.CheckNow | implementation/network_integrity.py:25-28 | passes iff every node has a transfer function and every terminal a value; a missing function is reported first, naming the first such node in order; otherwise the first unset terminal |
| Evaluation.CleanUpstream | api/network.py:195-203 | in a coherent network everything upstream of a clean node is clean |
| Evaluation.ReadFiresExactly | api/network.py:173-226 | in any network, coherent or not, a read that succeeds fires exactly the nodes reaching the read node through a chain of dirty first feeders, itself included; afterwards all of them are clean |
| Evaluation.CoherentReadCleansUpstream | api/network.py:173-226 | in a coherent network a read that succeeds leaves every node feeding the read node, through any chain of first feeders, clean |
| Evaluation.FiredInputFed | api/network.py:206-226 | after a successful read, every node it fired returned normally, and each of its inputs holds its first feeder's value: a terminal's, or the output of a node the read also fired or that was clean and untouched |
| Evaluation.ReadSucceeds | api/network.py:156-226 | a read of a declared port succeeds when every node reaching it through dirty first feeders has an edge into each input and a transfer function that writes only declared ports; nodes behind a clean node are not constrained |
| Evaluation.SecondReadFiresNothing | api/network.py:195-196 | reading the same port again with nothing written in between fires nothing and returns the same value |
| NetworkApi.ReadPort | api/network.py:173-203 | unknown node or port errors; a clean node returns its cached value and fires nothing; a dirty node gets fresh inputs and fires; the read fires only nodes reaching the read node through dirty first feeders, and every one of them ran its transfer function on fresh inputs and holds the result; an error leaves the node dirty and is a missing feeder edge or a failing setter call of such a node; all of this holds in incoherent networks too; coherence and clean nodes are kept |
| NetworkApi.RefreshInputs | api/network.py:206-226 | only the node's input values and nodes upstream of it (lower rank) change; on success every input holds its first feeder's current value; only nodes reaching it through dirty first feeders fire, each on fresh inputs and holding the result; an error is a missing feeder edge or a failing setter call of such a node, coherent network or not |
| NetworkApi.FindEdgeFor | api/network.py:156-161 | the first edge into the port, or the missing-feeder error |
| NetworkApi.WriteTerminal | api/network.py:101-113 | unknown terminal: error, nothing changes; else the terminal holds the value and exactly the downstream nodes are made dirty |
| NetworkApi.CheckedRead | api/network.py:115-128 | a failed integrity check is returned with nothing changed; otherwise the read's outcome as for ReadPort: only nodes reaching the read node through dirty first feeders fire, each holding its transfer function's result on fresh inputs, and an error is a missing feeder edge or a failing setter call of such a node, coherent network or not |
| NetworkApi.CheckPassed | api/network.py:121-128 | a passed integrity check leaves every node with a transfer function, as the read needs |
| NetworkApi.WithEdge | api/network.py:54-70 | an existing edge is a duplicate-edge error and changes nothing; otherwise the edge is appended |
| NetworkApi.Network.constructor | api/network.py:22-30 | a new network has no nodes, terminals or edges |
| NetworkApi.Network.RegisterNode | api/network.py:36-37 | setdefault: an existing node is kept; a new node is added at the end of the order |
| NetworkApi.Network.RegisterTerminal | api/network.py:39-44 | an existing terminal is returned unchanged; a new one is added, without value, and nothing is returned |
| NetworkApi.Network.RegisterInputPort | api/network.py:46-48 | an unknown node is an error with nothing changed; otherwise the node's setdefault |
| NetworkApi.Network.RegisterOutputPort | api/network.py:50-52 | as RegisterInputPort, for output ports |
| NetworkApi.Network.AssertNotDuplicateEdge | api/network.py:166-171 | an error exactly when the same source and destination are already joined |
| NetworkApi.Network.EdgeForInput | api/network.py:156-161 | the earliest edge into the port, or the missing-feeder error |
| NetworkApi.Network.CreateTerminalEdge | api/network.py:54-60 | looks up terminal, node, port in that order, reporting the first missing; then the duplicate check; on success exactly one edge is appended |
| NetworkApi.Network.CreateOutputToInputEdge | api/network.py:62-70 | looks up upstream node, output port, downstream node, input port in that order; then the duplicate check; on success one edge is appended |
| NetworkApi.Network.SetXfn | api/network.py:72-94 | an unknown node is an error; otherwise only that node's transfer function changes |
| NetworkApi.Network.SetTerminalValue | api/network.py:101-113 | unknown terminal: error and no change; else the value is stored and exactly the downstream nodes are dirtied |
| NetworkApi.Network.GetOutputPortValue | api/network.py:115-128 | integrity check, then the read, with the value and errors as for CheckedRead; the transfer functions fired are logged |
| NetworkXfn.WriteInputsError | api/network_to_xfn.py:47-51 | the input phase fails at the first input, in order, that is unmapped or whose terminal is unknown, with that error |
| NetworkXfn.WriteInputsFrame | api/network_to_xfn.py:47-51 | unmapped terminals keep their values, dirty nodes stay dirty, node shapes and coherence are kept |
| NetworkXfn.WrittenValue | api/network_to_xfn.py:47-51 | after a successful input phase each mapped terminal holds the value of the last input port, in order, mapped to it (last write wins); so an input port no other one shares its terminal with leaves its own value there |
| NetworkXfn.WrittenDirty | api/network_to_xfn.py:47-51 | after the input phase every node downstream of a written terminal is dirty |
| NetworkXfn.CheckSameShape | api/network_to_xfn.py:55-59 | the integrity verdict does not change between the reads of the output phase |
| NetworkXfn.Network2Xfn.constructor | api/network_to_xfn.py:26-42 | keeps the network and both mappings |
| NetworkXfn.Network2Xfn.WriteMappedInputs | api/network_to_xfn.py:47-51 | the input phase on the wrapped network equals `WriteInputs` |
| NetworkXfn.Network2Xfn.ReadMappedOutputs | api/network_to_xfn.py:55-59 | one setter call per output mapping entry, in order, each carrying the value the mapped port holds once its node is clean; every node the phase cleaned holds its transfer function's result on fresh inputs; a failure comes from some entry whose predecessors were all read, and is that entry's unknown node or port or the reason its read failed: a missing feeder edge or a failing setter call of a node reaching it through dirty first feeders, in any network, coherent or not |
| NetworkXfn.Network2Xfn.Xfn | api/network_to_xfn.py:44-59 | input phase then output phase; an input-phase error stops the call before any read; the output phase as ReadMappedOutputs |
| Text.Strip | api/network_factory.py:43 | `strip`: neither end of the result is whitespace |
| Text.StripIsSlice | api/network_factory.py:102 | `strip` removes only whitespace, from the two ends |
| Text.StripIdempotent | api/network_factory.py:102 | stripping twice is stripping once |
| Text.RemoveComment | api/network_factory.py:110-115 | the line up to, not including, its first `#` |
| Text.Split | api/network_factory.py:102 | `split` yields one piece more than there are delimiters, none containing it |
| Text.SplitJoin | api/network_factory.py:102 | joining the pieces with the delimiter gives back the string |
| Text.Lines | api/network_factory.py:21 | `splitlines`: no piece holds a line break; an empty script has no lines |
| Factory.SplitIntoTwoIsSplit | api/network_factory.py:97-107 | succeeds iff splitting gives exactly two pieces; the result is both pieces stripped; else a parse error for the line |
| Factory.CanonicalCommand | api/network_factory.py:56-79 | both sides must split on `:`; a `TERM` left side gives a terminal edge, any other an output-port edge |
| Factory.DanglingCommand | api/network_factory.py:81-88 | the left side must split on `:` and declares that output port |
| Factory.ReadLineCases | api/network_factory.py:29-54 | empty lines are skipped; a line that does not split on `>` is a parse error; an empty left side continues the saved one, or fails if none; a left side is saved; `DANGLING` declares, anything else connects |
| Factory.DanglingContinuationFails | api/network_factory.py:90-95 | a continuation line onto `DANGLING` is a parse error |
| Factory.ReadRendered | api/network_factory.py:29-54 | every command written in the script syntax reads back as itself (parse of render is the identity) |
| Factory.ReadContinued | api/network_factory.py:90-95 | a continuation line after an edge line reads as an edge from the same upstream end |
| Factory.ExecuteEffects | api/network_factory.py:56-88 | a command registers its nodes, ports and terminal and appends its edge; a duplicate edge is reported and no edge is added |
| Factory.ExecuteOrder | api/network_factory.py:67-79 | the node insertion order gains the command's new nodes, downstream before upstream, and the terminal order a new terminal; this holds also when the edge, created last, is a duplicate |
| Factory.RunLinesEffects | api/network_factory.py:17-23 | building only adds nodes, terminals and edges; it fails only with a parse or duplicate-edge error |
| Factory.NetworkFactory.constructor | api/network_factory.py:11-15 | keeps the script, with no saved left side |
| Factory.NetworkFactory.Build | api/network_factory.py:17-23 | the built network equals running the script's lines from an empty network; the first error stops the build |
| Factory.NetworkFactory.ActionOneLine | api/network_factory.py:29-54 | one line: the parse error changes nothing; otherwise the network changes as `Execute` of the parsed command |
| Factory.NetworkFactory.ActionContinuationLine | api/network_factory.py:90-95 | no saved left side is a parse error; else the line is read with the saved left side |
| Factory.NetworkFactory.ActionDanglingLine | api/network_factory.py:81-88 | registers the node and output port of a dangling line |
| Factory.NetworkFactory.ActionCanonicalLine | api/network_factory.py:56-79 | registers both ends and creates the edge of a canonical line |
| JsText.Trim | dsl_vis/script/graph.js:107 | `trim`: neither end of the result is white space |
| JsText.TrimIsSlice | dsl_vis/script/graph.js:107 | `trim` removes only white space, from the two ends |
| JsText.Utf16Length | dsl_vis/script/graph.js:209 | `.length` is between the number of characters and twice that |
| JsText.DecimalInjective | dsl_vis/script/graph.js:238 | different edge indexes give different decimal texts |
| VisGraph.PortKeyInjective | dsl_vis/script/graph.js:54 | different port names or types give different port keys |
| VisGraph.ResolveCases | dsl_vis/script/graph.js:29-40 | `TERM` and `DANGLING` nodes are keyed by prefix plus first port and captioned with that port; other nodes by their id |
| VisGraph.TouchKeeps | dsl_vis/script/graph.js:29-66 | touching adds the node if new, at the end of the key order; an existing node keeps its identity and ports; nothing else changes |
| VisGraph.TouchHasPorts | dsl_vis/script/graph.js:52-63 | after touching, the node has every listed port and every old port is still there |
| VisGraph.TouchIdempotent | dsl_vis/script/graph.js:29-66 | touching twice is touching once |
| VisGraph.TouchWf | dsl_vis/script/graph.js:29-66 | touching keeps node and port keys distinct |
| VisGraph.ConnectEffects | dsl_vis/script/graph.js:78-86 | connect touches both ends and appends one connection from the source's output port to the target's input port |
| VisGraph.ConnectAllEffects | dsl_vis/script/graph.js:78-86 | connecting a list appends one connection per link and keeps the earlier ones |
| VisGraph.ReadSkips | dsl_vis/script/graph.js:107-110 | a line is skipped iff it is blank or starts with `#`; otherwise it must hold exactly one `>` |
| VisGraph.ReadLinkedFilled | dsl_vis/script/graph.js:142-158 | a line that connects has non-empty source node, source port, target node and target port |
| VisGraph.ReadContinuation | dsl_vis/script/graph.js:114-119 | an empty left side reuses the last source, and is an error when there is none |
| VisGraph.ReadDangling | dsl_vis/script/graph.js:129-131 | a `DANGLING` target becomes the input port `node:port` of the `DANG_` node |
| VisGraph.ParseReportsFirstFailure | dsl_vis/script/graph.js:102-168 | parsing stops at the first failing line, reporting its index and message; all earlier lines read cleanly |
| VisGraph.ParseLinksEveryLine | dsl_vis/script/graph.js:102-168 | a parse without failure connects once per line that is not skipped |
| VisGraph.InputsAndOutputs | dsl_vis/script/graph.js:196-202 | each port counts as input or output, never both |
| VisGraph.BoxHeight | dsl_vis/script/graph.js:204-213 | 20 for terminals and dangling nodes; otherwise 30 plus 12 per port on the busier side |
| VisGraph.ElkShape | dsl_vis/script/graph.js:181-246 | one child per node in key order with distinct ids, one edge per connection with id `e<i>`, all distinct |
| VisGraph.ChildSize | dsl_vis/script/graph.js:190-229 | a child's width is 40 plus 6 per UTF-16 unit of its label; its height as BoxHeight; one port entry per port, id `node.port` |
| VisGraph.ElkEdgesResolve | dsl_vis/script/graph.js:235-243 | every exported edge names, as source and target, port ids that are declared among the children |
| VisGraph.Graph.constructor | dsl_vis/script/graph.js:12-19 | a new graph has no nodes and no connections |
| VisGraph.Graph.Reset | dsl_vis/script/graph.js:91-94 | reset empties nodes and connections |
| VisGraph.Graph.TouchNode | dsl_vis/script/graph.js:29-66 | the object update equals `Touch`; the node's key is returned |
| VisGraph.Graph.AddPortsTo | dsl_vis/script/graph.js:52-63 | the port loop leaves the node as `AddPorts` describes, and leaves the key order and the connections untouched |
| VisGraph.Graph.Connect | dsl_vis/script/graph.js:78-86 | the object update equals `ConnectStep` |
| VisGraph.Graph.Parse | dsl_vis/script/graph.js:102-168 | splits on newlines; the result and error report equal `ParseFrom`, and the graph receives exactly the parsed links |
| VisGraph.Graph.ParseLines | dsl_vis/script/graph.js:104-166 | the line loop, starting with no source, returns the result and error report `ParseFrom` gives, and makes exactly its connections, in order |
| VisGraph.Graph.ElkJson | dsl_vis/script/graph.js:181-246 | the JSON built by the loops equals `Elk` of the state |
| VisGraph.InheritedIdThrows | dsl_vis/script/graph.js:42-55 | as written, touching the node `toString` on an empty graph throws a TypeError |
| VisGraph.TouchAsWrittenAgrees | dsl_vis/script/graph.js:42-65 | for every other key the code as written behaves as `Touch` |
| VisGraph.TouchRegisters | dsl_vis/script/graph.js:29-66 | the corrected touch always registers the node and all its ports |

## Left out

- Transfer functions are total Dafny functions. An exception raised inside a client transfer function is not modelled, and neither are its side effects. Only the setter's unknown-port error is.
- Floating point and the values themselves: `Value` is an abstract type that the engine only moves around.
- Cyclic networks. The read and the walk require acyclic edges, given as a ranking of the nodes. The source recurses without end on a cycle, which is not modelled.
- NetworkXfn.Network2Xfn.Xfn: input values are written in ascending port-name order. The source iterates the input dictionary in the order the super node registered its input ports. This matters when two inputs map to the same terminal, and for which terminals are already written when an unmapped input stops the call.
- NetworkXfn.Network2Xfn.Xfn: the output mapping is a sequence of entries, standing for the dictionary's insertion order. The setter calls are returned as a list of writes instead of being made one at a time. Two consequences: a super-node port the setter does not declare raises at that entry in the source, so later entries are never read, while the model reads every entry (firing nodes the source never reaches) and returns all writes; and when an inner read fails at an entry after the first, the source has already set the super node's earlier ports, while the model returns the error with none of those writes.
- NetworkApi.ReadPort: a failure is traced to a missing feeder edge or a failing setter call of a dirty node upstream, but which of several such faults is reported first (input ports in name order, depth first) is not stated.
- Error messages: only the names each error carries are kept, not the message text. A parse error keeps its line only.
- NetworkApi.Network.RegisterInputPort, NetworkApi.Network.CreateTerminalEdge, NetworkApi.Network.CreateOutputToInputEdge and NetworkXfn.Network2Xfn.Xfn: the source raises a bare KeyError on an unknown name (for Xfn, an input port missing from the input mapping, api/network_to_xfn.py:49). These are modelled as the typed errors UnknownNode, UnknownTerminal, UnknownOutputPort, UnknownInputPort and UnmappedInput.
- Node.register_*_port return the port object. The network ignores it, and the model returns the updated node.
- NetworkApi.Network.RegisterTerminal returns the terminal record, not a shared object; aliasing of terminal objects is not modelled.
- Event subscription mentioned for terminals, `getNodes`/`getConnections` of graph.js (plain accessors), graph_render.js, the ELK layout itself and the tests are not part of this model.
- api/network_error.py and the missing implementation/input_port.py and implementation/edge.py are not part of this model; their records are `InputPort` and `Edge`.
- VisGraph.Graph.TouchNode: requires a port list when the id is `TERM` or `DANGLING`. The script reader always passes one port; with none, graph.js would key the node `TERM_undefined`.
- VisGraph.ElkShape: children follow key insertion order. JavaScript lists integer-like keys (a node named `7`) first, in numeric order; that reordering is not modelled.
- Python `splitlines` and `strip` are modelled on their standard whitespace and line-break sets. JavaScript `trim` is modelled on the ECMAScript white space and line terminators.

## Findings

| source | as written | input that shows it | evidently intended | confidence | as-written member | corrected member |
|---|---|---|---|---|---|---|
| dsl_vis/script/graph.js:42 | `id in this._nodes` is true for names every object inherits, so an unseen node called `toString` is taken as present; reading its `ports` then throws | the script line `toString:out > sink:in` | only nodes actually added count as present; the node is created with its ports | high; not executed | VisGraph.InheritedIdThrows | VisGraph.TouchRegisters |
