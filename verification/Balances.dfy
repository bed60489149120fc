/** What the nodes of a DAG description receive and spend, token by token. */
module Balances {
  import opened Wrappers
  import opened DagNodes

  const HTR := Name("HTR")
  const DUMMY := Name("dummy")
  const GENESIS_BLOCK := Name("genesis_block")
  const GENESIS_1 := Name("genesis_1")
  const GENESIS_2 := Name("genesis_2")

  function Amount(slot: Option<Output>, t: Name): int {
    if slot.Some? && slot.value.token == t then slot.value.amount else 0
  }

  /** What an input refers to. */
  function Slot(nodes: Nodes, i: Input): Option<Output> {
    if i.node in nodes && i.index < |nodes[i.node].outputs| then nodes[i.node].outputs[i.index] else None
  }

  ghost function Received(outputs: seq<Option<Output>>, t: Name): int {
    if outputs == [] then 0 else Received(outputs[..|outputs| - 1], t) + Amount(outputs[|outputs| - 1], t)
  }

  ghost function Spent(nodes: Nodes, inputs: set<Input>, t: Name): int {
    if inputs == {} then 0 else
      var i :| i in inputs;
      Amount(Slot(nodes, i), t) + Spent(nodes, inputs - {i}, t)
  }

  /** Outputs minus inputs. */
  ghost function Net(nodes: Nodes, n: Name, t: Name): int
    requires n in nodes
  {
    Received(nodes[n].outputs, t) - Spent(nodes, nodes[n].inputs, t)
  }

  function Target(node: Node, t: Name): int {
    if t in node.balances then node.balances[t] else 0
  }

  ghost predicate AllSet(outputs: seq<Option<Output>>) {
    forall k :: 0 <= k < |outputs| ==> outputs[k].Some?
  }

  /** Every output is set and every input refers to one that is. */
  ghost predicate Resolved(nodes: Nodes, n: Name)
    requires n in nodes
  {
    && (forall k :: 0 <= k < |nodes[n].outputs| ==> nodes[n].outputs[k].Some?)
    && forall i :: i in nodes[n].inputs ==> Slot(nodes, i).Some?
  }

  ghost predicate Balanced(nodes: Nodes, n: Name)
    requires n in nodes
  {
    Resolved(nodes, n) && forall t :: Net(nodes, n, t) == Target(nodes[n], t)
  }

  // ----- set outputs are never changed -----

  ghost predicate Extends(a: seq<Option<Output>>, b: seq<Option<Output>>) {
    |a| <= |b| && forall k :: 0 <= k < |a| && a[k].Some? ==> b[k] == a[k]
  }

  ghost predicate Grown(nodes: Nodes, nodes': Nodes) {
    forall n :: n in nodes ==>
      && n in nodes'
      && nodes'[n].kind == nodes[n].kind
      && nodes'[n].balances == nodes[n].balances
      && nodes[n].inputs <= nodes'[n].inputs
      && Extends(nodes[n].outputs, nodes'[n].outputs)
  }

  lemma {:induction false} GrownReflexive(nodes: Nodes)
    ensures Grown(nodes, nodes)
  {
  }

  lemma {:induction false} GrownTransitive(a: Nodes, b: Nodes, c: Nodes)
    requires Grown(a, b) && Grown(b, c)
    ensures Grown(a, c)
  {
  }

  lemma {:induction false} SlotKept(nodes: Nodes, nodes': Nodes, i: Input)
    requires Grown(nodes, nodes') && Slot(nodes, i).Some?
    ensures Slot(nodes', i) == Slot(nodes, i)
  {
  }

  lemma {:induction false} SpentKept(nodes: Nodes, nodes': Nodes, inputs: set<Input>, t: Name)
    requires Grown(nodes, nodes') && forall i :: i in inputs ==> Slot(nodes, i).Some?
    ensures Spent(nodes', inputs, t) == Spent(nodes, inputs, t)
  {
    SpentSame(nodes, nodes', inputs, t) by {
      forall i | i in inputs
        ensures Slot(nodes', i) == Slot(nodes, i)
      {
        SlotKept(nodes, nodes', i);
      }
    }
  }

  lemma {:induction false} SpentSame(nodes: Nodes, nodes': Nodes, inputs: set<Input>, t: Name)
    requires forall i :: i in inputs ==> Slot(nodes', i) == Slot(nodes, i)
    ensures Spent(nodes', inputs, t) == Spent(nodes, inputs, t)
  {
    hide Slot;
    if inputs != {} {
      var i :| i in inputs;
      SpentRemove(nodes, inputs, i, t);
      SpentRemove(nodes', inputs, i, t);
      SpentSame(nodes, nodes', inputs - {i}, t);
    }
  }

  lemma {:induction false} SpentRemove(nodes: Nodes, inputs: set<Input>, i: Input, t: Name)
    requires i in inputs
    ensures Spent(nodes, inputs, t) == Amount(Slot(nodes, i), t) + Spent(nodes, inputs - {i}, t)
  {
    hide Slot, Amount;
    var j :| j in inputs && Spent(nodes, inputs, t) == Amount(Slot(nodes, j), t) + Spent(nodes, inputs - {j}, t);
    if j != i {
      SpentRemove(nodes, inputs - {j}, i, t);
      SpentRemove(nodes, inputs - {i}, j, t);
      assert inputs - {j} - {i} == inputs - {i} - {j};
    }
  }

  lemma {:induction false} SpentAdd(nodes: Nodes, inputs: set<Input>, i: Input, t: Name)
    requires i !in inputs
    ensures Spent(nodes, inputs + {i}, t) == Spent(nodes, inputs, t) + Amount(Slot(nodes, i), t)
  {
    SpentRemove(nodes, inputs + {i}, i, t);
    assert inputs + {i} - {i} == inputs;
  }

  /** A node whose own inputs and outputs stay keeps its net value, whatever is filled in elsewhere. */
  lemma {:induction false} Undisturbed(nodes: Nodes, nodes': Nodes, n: Name)
    requires Grown(nodes, nodes') && n in nodes && Resolved(nodes, n)
    requires nodes'[n].inputs == nodes[n].inputs && nodes'[n].outputs == nodes[n].outputs
    ensures Resolved(nodes', n)
    ensures forall t :: Net(nodes', n, t) == Net(nodes, n, t)
  {
    hide Slot;
    forall i | i in nodes[n].inputs
      ensures Slot(nodes', i).Some?
    {
      SlotKept(nodes, nodes', i);
    }
    forall t
      ensures Net(nodes', n, t) == Net(nodes, n, t)
    {
      SpentKept(nodes, nodes', nodes[n].inputs, t);
    }
  }

  // ----- placing an output -----

  /** `o` takes a free slot of `a`, or a new one at the end. */
  ghost predicate Placed(a: seq<Option<Output>>, index: nat, o: Output, b: seq<Option<Output>>) {
    || (index < |a| && a[index].None? && b == a[index := Some(o)])
    || (index == |a| && b == a + [Some(o)])
  }

  lemma {:induction false} ReceivedPlaced(a: seq<Option<Output>>, index: nat, o: Output, b: seq<Option<Output>>,
                                          t: Name)
    requires Placed(a, index, o, b)
    ensures Received(b, t) == Received(a, t) + Amount(Some(o), t)
  {
    var m := |b| - 1;
    if index == |a| {
      assert b[..m] == a;
    } else if index == m {
      assert b[..m] == a[..m];
    } else {
      assert a[..m][index := Some(o)] == b[..m];
      ReceivedPlaced(a[..m], index, o, b[..m], t);
    }
  }

  /** An own output more. */
  lemma {:induction false} NetPlaced(nodes: Nodes, n: Name, index: nat, o: Output, b: seq<Option<Output>>,
                                     nodes': Nodes)
    requires n in nodes && Placed(nodes[n].outputs, index, o, b) && nodes' == nodes[n := nodes[n].(outputs := b)]
    requires Resolved(nodes, n)
    ensures Grown(nodes, nodes') && Resolved(nodes', n)
    ensures forall t :: Net(nodes', n, t) == Net(nodes, n, t) + Amount(Some(o), t)
  {
    hide Received, Spent;
    forall i | i in nodes[n].inputs
      ensures Slot(nodes', i).Some?
    {
      SlotKept(nodes, nodes', i);
    }
    forall t
      ensures Net(nodes', n, t) == Net(nodes, n, t) + Amount(Some(o), t)
    {
      SpentKept(nodes, nodes', nodes[n].inputs, t);
      ReceivedPlaced(nodes[n].outputs, index, o, b, t);
    }
  }

  /** An own input more, where the slot it spends was just filled. */
  lemma {:induction false} NetSpending(nodes: Nodes, n: Name, i: Input, nodes': Nodes)
    requires n in nodes && i !in nodes[n].inputs && Slot(nodes, i).Some? && Resolved(nodes, n)
    requires nodes' == nodes[n := nodes[n].(inputs := nodes[n].inputs + {i})]
    ensures Grown(nodes, nodes') && Resolved(nodes', n)
    ensures forall t :: Net(nodes', n, t) == Net(nodes, n, t) - Amount(Slot(nodes, i), t)
  {
    hide Received, Spent;
    assert forall j :: Slot(nodes', j) == Slot(nodes, j);
    forall t
      ensures Net(nodes', n, t) == Net(nodes, n, t) - Amount(Slot(nodes, i), t)
    {
      SpentSame(nodes, nodes', nodes'[n].inputs, t);
      SpentAdd(nodes, nodes[n].inputs, i, t);
    }
  }

  // ----- token names -----

  /** HTR, or the name of a token node; a blueprint attribute may have overwritten the kind of one. */
  ghost predicate TokenName(nodes: Nodes, t: Name) {
    t == HTR || (t != DUMMY && t in nodes && nodes[t].kind in {Token, OnChainBlueprint})
  }

  ghost predicate TypedNode(nodes: Nodes, pending: Name, node: Node) {
    && (forall k :: 0 <= k < |node.outputs| && node.outputs[k].Some? && node.outputs[k].value.amount != 0 ==>
          node.outputs[k].value.token == pending || TokenName(nodes, node.outputs[k].value.token))
    && forall t :: t in node.balances ==> t == pending || TokenName(nodes, t)
  }

  /** Typed, but for the token `pending`, which may not have its node yet. */
  ghost predicate AlmostTyped(nodes: Nodes, pending: Name) {
    && DUMMY in nodes && nodes[DUMMY].kind in {Transaction, OnChainBlueprint}
    && (HTR in nodes ==> nodes[HTR].kind != Token)
    && forall n :: n in nodes ==> TypedNode(nodes, pending, nodes[n])
  }

  /** Whatever moves a token names HTR, which is no token node, or a token; the dummy is a transaction. */
  ghost predicate Typed(nodes: Nodes) {
    AlmostTyped(nodes, HTR)
  }

  /** The inputs of a node refer to slots that exist, and it depends on the tokens it names. */
  ghost predicate ReferringNode(nodes: Nodes, node: Node) {
    && (forall i :: i in node.inputs ==> i.node in nodes && i.index < |nodes[i.node].outputs|)
    && (forall k :: 0 <= k < |node.outputs| && node.outputs[k].Some? && node.outputs[k].value.amount != 0 ==>
          node.outputs[k].value.token == HTR || node.outputs[k].value.token in node.deps)
    && forall t :: t in node.balances ==> t == HTR || t in node.deps
  }

  ghost predicate Referring(nodes: Nodes) {
    forall n :: n in nodes ==> ReferringNode(nodes, nodes[n])
  }

  lemma {:induction false} ReceivedNothing(outputs: seq<Option<Output>>, t: Name)
    requires forall k :: 0 <= k < |outputs| ==> Amount(outputs[k], t) == 0
    ensures Received(outputs, t) == 0
  {
    if outputs != [] {
      ReceivedNothing(outputs[..|outputs| - 1], t);
    }
  }

  lemma {:induction false} SpentNothing(nodes: Nodes, inputs: set<Input>, t: Name)
    requires forall i :: i in inputs ==> Amount(Slot(nodes, i), t) == 0
    ensures Spent(nodes, inputs, t) == 0
  {
    hide Slot, Amount;
    if i :| i in inputs {
      SpentRemove(nodes, inputs, i, t);
      SpentNothing(nodes, inputs - {i}, t);
    }
  }

  lemma {:induction false} MovedIsTyped(nodes: Nodes, n: Name, t: Name)
    requires Typed(nodes) && n in nodes && Net(nodes, n, t) != Target(nodes[n], t)
    ensures TokenName(nodes, t)
  {
    hide Received, Spent;
    assert TypedNode(nodes, HTR, nodes[n]);
    if !TokenName(nodes, t) {
      forall i: Input
        ensures Amount(Slot(nodes, i), t) == 0
      {
        if Slot(nodes, i).Some? {
          assert TypedNode(nodes, HTR, nodes[i.node]);
        }
      }
      ReceivedNothing(nodes[n].outputs, t);
      SpentNothing(nodes, nodes[n].inputs, t);
    }
  }

  ghost function SlotTokens(nodes: Nodes, inputs: set<Input>): set<Name> {
    set i | i in inputs && Slot(nodes, i).Some? :: Slot(nodes, i).value.token
  }

  ghost function OutputTokens(outputs: seq<Option<Output>>): set<Name> {
    set k | 0 <= k < |outputs| && outputs[k].Some? :: outputs[k].value.token
  }

  /** The tokens that occur in a node or have a target there. */
  ghost function Tokens(nodes: Nodes, n: Name): set<Name>
    requires n in nodes
  {
    SlotTokens(nodes, nodes[n].inputs) + OutputTokens(nodes[n].outputs) + nodes[n].balances.Keys
  }
}
