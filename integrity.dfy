/** The network integrity check (implementation/network_integrity.py): the
    first node, in registration order, without a transfer function, or else
    the first terminal, in registration order, without a value. Dicts iterate
    in insertion order, so the registration order of node and terminal names
    is part of the checked state. */
module Integrity {
  import opened Names
  import opened Outcomes
  import opened Entities
  import opened Nodes

  /** `order` lists the keys of a map exactly once each. */
  ghost predicate ListsKeys<V>(order: seq<Name>, m: map<Name, V>)
  {
    Distinct(order) && forall x :: x in order <==> x in m
  }

  /** The position in `order` of the first node without a transfer function,
      or `|order|`. */
  function FirstMissingXfn(order: seq<Name>, nodes: map<Name, Node>): (i: nat)
    requires forall x | x in order :: x in nodes
    ensures i <= |order|
    ensures forall j | 0 <= j < i :: nodes[order[j]].xfn.Some?
    ensures i < |order| ==> nodes[order[i]].xfn.None?
  {
    if order == [] || nodes[order[0]].xfn.None? then 0
    else 1 + FirstMissingXfn(order[1..], nodes)
  }

  /** The position in `order` of the first terminal whose value is None, or
      `|order|`. */
  function FirstUnsetTerminal(order: seq<Name>, terminals: map<Name, Terminal>): (i: nat)
    requires forall x | x in order :: x in terminals
    ensures i <= |order|
    ensures forall j | 0 <= j < i :: terminals[order[j]].value.Some?
    ensures i < |order| ==> terminals[order[i]].value.None?
  {
    if order == [] || terminals[order[0]].value.None? then 0
    else 1 + FirstUnsetTerminal(order[1..], terminals)
  }

  /** `check_now`: missing transfer functions are looked for first, then
      unset terminals. */
  function CheckNow(nodes: map<Name, Node>, nodeOrder: seq<Name>,
                    terminals: map<Name, Terminal>, terminalOrder: seq<Name>): (r: Option<Error>)
    requires ListsKeys(nodeOrder, nodes) && ListsKeys(terminalOrder, terminals)
    ensures r.None? <==>
      (forall n | n in nodes :: nodes[n].xfn.Some?) && (forall t | t in terminals :: terminals[t].value.Some?)
    ensures (exists n | n in nodes :: nodes[n].xfn.None?) ==>
      r.Some? && r.value.MissingTransferFunction? &&
      exists i | 0 <= i < |nodeOrder| ::
        && nodeOrder[i] == r.value.node && nodes[nodeOrder[i]].xfn.None?
        && forall j | 0 <= j < i :: nodes[nodeOrder[j]].xfn.Some?
    ensures (forall n | n in nodes :: nodes[n].xfn.Some?) && r.Some? ==>
      r.value.UnsetTerminal? &&
      exists i | 0 <= i < |terminalOrder| ::
        && terminalOrder[i] == r.value.terminal && terminals[terminalOrder[i]].value.None?
        && forall j | 0 <= j < i :: terminals[terminalOrder[j]].value.Some?
  {
    var i := FirstMissingXfn(nodeOrder, nodes);
    if i < |nodeOrder| then Some(MissingTransferFunction(nodeOrder[i]))
    else
      var k := FirstUnsetTerminal(terminalOrder, terminals);
      if k < |terminalOrder| then Some(UnsetTerminal(terminalOrder[k]))
      else None
  }
}
