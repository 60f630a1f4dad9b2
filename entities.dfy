/** The outcome of an operation that may fail, in place of Python exceptions. */
module Outcomes {

  datatype Option<+T> = None | Some(value: T)

  datatype Result<+T, +E> = Ok(value: T) | Err(error: E)
}

/** The values that flow through a network, the handles that name its
    entities, and the records for terminals and ports
    (implementation/terminal.py, implementation/output_port.py, and the
    input port and edge records that implementation/node.py and
    api/network.py use). */
module Entities {
  import opened Names
  import opened Outcomes

  /** A value written to a terminal or produced by a transfer function. The
      engine never inspects values; Python's None is `Option.None`. */
  type Value(!new)

  /** Where an edge comes from: a terminal, or an output port named by its
      node and port names (the model's handle for Python object identity). */
  datatype Source = TerminalSrc(terminal: Name) | OutputSrc(node: Name, port: Name)

  /** An input port, named by its node and port names. */
  datatype PortRef = PortRef(node: Name, port: Name)

  /** A directed edge from a terminal or output port into an input port. */
  datatype Edge = Edge(source: Source, dest: PortRef)

  /** One call of the output setter a transfer function is given. */
  datatype Write = Write(port: Name, value: Option<Value>)

  /** A client transfer function: from a snapshot of the input values, keyed
      by input port name, to the sequence of output-setter calls it makes. */
  type Xfn = map<Name, Option<Value>> -> seq<Write>

  /** The errors the source raises, with the names it puts in the message. */
  datatype Error =
    | UnknownTerminal(terminal: Name)
    | UnknownNode(node: Name)
    | UnknownOutputPort(node: Name, port: Name)
    | UnknownInputPort(node: Name, port: Name)
    | UnknownSetterPort(port: Name, node: Name)
    | DuplicateEdge(source: Source, dest: PortRef)
    | MissingFeederEdge(dest: PortRef)
    | MissingTransferFunction(node: Name)
    | UnsetTerminal(terminal: Name)
    | UnmappedInput(port: Name)
    | ParseError(line: string)

  /** An external input slot of the network. */
  datatype Terminal = Terminal(name: Name, value: Option<Value>)

  /** A fresh terminal holds no value. */
  function NewTerminal(name: Name): (t: Terminal)
    ensures t.name == name && t.value.None?
  {
    Terminal(name, None)
  }

  /** An input port: the value is the copy the evaluator last refreshed. */
  datatype InputPort = InputPort(name: Name, node: Name, value: Option<Value>)

  /** An output port: the value is the last one its node's transfer function
      wrote. */
  datatype OutputPort = OutputPort(name: Name, node: Name, value: Option<Value>)

  /** A fresh output port records its name and node and holds no value. */
  function NewOutputPort(name: Name, node: Name): (p: OutputPort)
    ensures p.name == name && p.node == node && GetValue(p).None?
  {
    OutputPort(name, node, None)
  }

  function GetValue(p: OutputPort): Option<Value>
  {
    p.value
  }

  /** `set_value`: the value read back is the one written; the name and node
      are kept. */
  function SetValue(p: OutputPort, v: Option<Value>): (r: OutputPort)
    ensures GetValue(r) == v
    ensures r.name == p.name && r.node == p.node
  {
    p.(value := v)
  }

  /** Last write wins: a second `set_value` hides the first. */
  lemma SetValueTwice(p: OutputPort, v: Option<Value>, w: Option<Value>)
    ensures SetValue(SetValue(p, v), w) == SetValue(p, w)
  {
  }
}
