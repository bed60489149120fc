/** What the filler has reached after each of its steps, and what it reaches in the end. */
module FillerProgress {
  import opened Wrappers
  import opened Sequences
  import opened DagNodes
  import opened Balances
  import opened DagBuilder
  import opened NodeBalance
  import T = TopologicalSort

  // ----- what a finished node looks like -----

  /** The outputs are the issued tokens, and nothing is spent. */
  ghost predicate BlockFilled(issued: int, nodes: Nodes, n: Name)
    requires n in nodes
  {
    && Resolved(nodes, n) && nodes[n].inputs == {}
    && forall t :: Net(nodes, n, t) == if t == HTR then issued else 0
  }

  /** The HTR target is lowered by the deposit for what the node mints of its own token. */
  ghost predicate TokenFilled(deposit: int -> int, nodes: Nodes, n: Name)
    requires n in nodes
  {
    && Resolved(nodes, n)
    && Net(nodes, n, HTR) == Target(nodes[n], HTR) - deposit(Net(nodes, n, n))
    && forall t :: t != HTR && t != n ==> Net(nodes, n, t) == 0
  }

  ghost predicate Cleared(nodes: Nodes, n: Name)
    requires n in nodes
  {
    Resolved(nodes, n) && forall t :: Net(nodes, n, t) == 0
  }

  ghost predicate NodeDone(deposit: int -> int, issued: int, nodes: Nodes, n: Name)
    requires n in nodes
  {
    if n == DUMMY then Cleared(nodes, n)
    else match nodes[n].kind
      case Transaction => Balanced(nodes, n)
      case OnChainBlueprint => Balanced(nodes, n)
      case Block => BlockFilled(issued, nodes, n)
      case Token => TokenFilled(deposit, nodes, n)
      case _ => true
  }

  /** Balanced but for its own token, of which it gives out more exactly if it is drained. */
  ghost predicate Supplied(nodes: Nodes, n: Name, drained: bool)
    requires n in nodes
  {
    && Resolved(nodes, n)
    && (forall t :: t != n ==> Net(nodes, n, t) == Target(nodes[n], t))
    && Net(nodes, n, n) >= Target(nodes[n], n)
    && (Net(nodes, n, n) == Target(nodes[n], n) <==> !drained)
  }

  /** Done, but for a blueprint that others take tokens from. */
  ghost predicate Settled(deposit: int -> int, issued: int, nodes: Nodes, n: Name, drained: bool)
    requires n in nodes
  {
    if n != DUMMY && nodes[n].kind == OnChainBlueprint then Supplied(nodes, n, drained) else NodeDone(deposit, issued, nodes, n)
  }

  lemma {:induction false} SettledIsDone(deposit: int -> int, issued: int, nodes: Nodes, n: Name, drained: bool)
    requires n in nodes && Settled(deposit, issued, nodes, n, drained)
    ensures NodeDone(deposit, issued, nodes, n) <==> n == DUMMY || nodes[n].kind != OnChainBlueprint || !drained
  {
    hide Net, Resolved;
  }

  ghost predicate SameMoves(a: Node, b: Node) {
    a.inputs == b.inputs && a.outputs == b.outputs
  }

  /** Later fills never disturb a finished node whose own inputs and outputs they leave alone. */
  lemma {:induction false} SettledKept(deposit: int -> int, issued: int, nodes: Nodes, nodes': Nodes, n: Name, drained: bool)
    requires n in nodes && Settled(deposit, issued, nodes, n, drained)
    requires Grown(nodes, nodes') && SameMoves(nodes[n], nodes'[n])
    ensures Settled(deposit, issued, nodes', n, drained)
  {
    hide Net, Extends, Slot;
    if n == DUMMY || nodes[n].kind in {Transaction, OnChainBlueprint, Block, Token} {
      Undisturbed(nodes, nodes', n);
    }
  }

  // ----- taking tokens from a blueprint -----

  /** `m` is balanced as a transaction and takes its shortage from the node `n`. */
  ghost predicate Drains(nodes: Nodes, m: Name, n: Name) {
    && m in nodes && m != DUMMY && nodes[m].kind in {Unknown, Transaction, OnChainBlueprint}
    && n != HTR && Short(nodes, m, n)
  }

  ghost predicate DrainedBy(nodes: Nodes, s: set<Name>, n: Name) {
    exists m :: m in s && Drains(nodes, m, n)
  }

  /** A blueprint that some transaction takes tokens from. */
  ghost predicate Drained(nodes: Nodes, n: Name) {
    n in nodes && n != DUMMY && nodes[n].kind == OnChainBlueprint && exists m :: Drains(nodes, m, n)
  }

  // ----- filling gaps -----

  /** Set outputs that are not placeholders stay. */
  ghost predicate KeepsSet(a: seq<Option<Output>>, b: seq<Option<Output>>) {
    |a| <= |b| && forall k :: 0 <= k < |a| && a[k].Some? && a[k].value.amount != 0 ==> b[k] == a[k]
  }

  predicate Placeholder(o: Output) {
    o.token == Name("") && o.attrs == []
  }

  ghost predicate ZerosAreFree(outputs: seq<Option<Output>>) {
    forall k :: 0 <= k < |outputs| && outputs[k].Some? && outputs[k].value.amount == 0 ==> Placeholder(outputs[k].value)
  }

  /** A free slot or a placeholder holds one HTR, and any other output is the same. */
  function GapFilled(o: Option<Output>): Option<Output> {
    if o.None? then Some(Output(1, HTR, ["f5"]))
    else if o.value.amount == 0 then Some(Output(1, HTR, ["f6"]))
    else o
  }

  ghost predicate GapsFilled(a: seq<Option<Output>>, b: seq<Option<Output>>) {
    |a| == |b| && forall k :: 0 <= k < |a| ==> b[k] == GapFilled(a[k])
  }

  function Known(node: Node): Node {
    if node.kind == Unknown then node.(kind := Transaction) else node
  }

  /** Genesis, the dummy and empty blocks are left as they are. */
  predicate Skipped(nodes: Nodes, n: Name)
    requires n in nodes
  {
    nodes[n].kind == Genesis || n == DUMMY || (nodes[n].inputs == {} && nodes[n].outputs == [] && nodes[n].kind == Block)
  }

  /** What is filled: a node without inputs and outputs gets an output first. */
  function Gaps(node: Node): seq<Option<Output>> {
    if node.inputs == {} && node.outputs == [] then [Some(Output(1, HTR, ["f4"]))] else node.outputs
  }

  ghost predicate NodeFilled(nodes: Nodes, n: Name, node: Node)
    requires n in nodes
  {
    && node == nodes[n].(outputs := node.outputs)
    && if Skipped(nodes, n) then node.outputs == nodes[n].outputs else GapsFilled(Gaps(nodes[n]), node.outputs)
  }

  function ReadyNode(n: Name, node: Node): Node {
    var known := Known(node);
    if Skipped(map[n := known], n) then known
    else known.(outputs := seq(|Gaps(known)|, k requires 0 <= k < |Gaps(known)| => GapFilled(Gaps(known)[k])))
  }

  /** The description with known kinds and without gaps. */
  function Ready(nodes: Nodes): Nodes {
    map n | n in nodes :: ReadyNode(n, nodes[n])
  }

  lemma {:induction false} PreparedIsReady(nodes: Nodes, filled: Nodes)
    requires PreparedFrom(nodes, filled)
    ensures filled == Ready(nodes)
  {
    forall n | n in nodes
      ensures filled[n] == ReadyNode(n, nodes[n])
    {
      assert NodeFilled(nodes[n := Known(nodes[n])], n, filled[n]);
    }
  }

  /** The nodes with known kinds and without gaps. */
  ghost predicate PreparedFrom(nodes: Nodes, filled: Nodes) {
    && filled.Keys == nodes.Keys
    && forall n :: n in nodes ==> NodeFilled(nodes[n := Known(nodes[n])], n, filled[n])
  }

  ghost predicate Prepared(nodes: Nodes) {
    && Typed(nodes) && Referring(nodes)
    && (forall n :: n in nodes ==> nodes[n].kind != Unknown)
    && forall n :: n in nodes && n != DUMMY && nodes[n].kind != Genesis ==> AllSet(nodes[n].outputs)
  }

  /** Filling gaps only gives out HTR. */
  lemma {:induction false} ReceivedGaps(a: seq<Option<Output>>, b: seq<Option<Output>>, t: Name)
    requires GapsFilled(a, b) && t != HTR
    ensures Received(b, t) == Received(a, t)
  {
    if a != [] {
      ReceivedGaps(a[..|a| - 1], b[..|b| - 1], t);
    }
  }

  lemma {:induction false} SpentAmounts(nodes: Nodes, nodes': Nodes, inputs: set<Input>, t: Name)
    requires forall i :: i in inputs ==> Amount(Slot(nodes', i), t) == Amount(Slot(nodes, i), t)
    ensures Spent(nodes', inputs, t) == Spent(nodes, inputs, t)
  {
    hide Slot, Amount;
    if i :| i in inputs {
      SpentRemove(nodes, inputs, i, t);
      SpentRemove(nodes', inputs, i, t);
      SpentAmounts(nodes, nodes', inputs - {i}, t);
    }
  }

  lemma {:induction false} FilledSlot(nodes: Nodes, filled: Nodes, i: Input, t: Name)
    requires PreparedFrom(nodes, filled) && t != HTR
    ensures Amount(Slot(filled, i), t) == Amount(Slot(nodes, i), t)
  {
    if i.node in nodes {
      assert NodeFilled(nodes[i.node := Known(nodes[i.node])], i.node, filled[i.node]);
    }
  }

  /** Who takes tokens from whom is settled by the description. */
  lemma {:induction false} PreparedNet(nodes: Nodes, filled: Nodes, m: Name, t: Name)
    requires PreparedFrom(nodes, filled) && m in nodes && t != HTR
    ensures Net(filled, m, t) == Net(nodes, m, t) && Target(filled[m], t) == Target(nodes[m], t)
  {
    hide Slot, Amount, Spent;
    assert NodeFilled(nodes[m := Known(nodes[m])], m, filled[m]);
    forall i | i in nodes[m].inputs
      ensures Amount(Slot(filled, i), t) == Amount(Slot(nodes, i), t)
    {
      FilledSlot(nodes, filled, i, t);
    }
    SpentAmounts(nodes, filled, nodes[m].inputs, t);
    if filled[m].outputs != nodes[m].outputs {
      ReceivedGaps(Gaps(Known(nodes[m])), filled[m].outputs, t);
      if nodes[m].outputs == [] {
        NothingIn(t);
      }
    }
  }

  lemma {:induction false} NothingIn(t: Name)
    requires t != HTR
    ensures Received([Some(Output(1, HTR, ["f4"]))], t) == Received([], t) == 0
  {
    var gap := [Some(Output(1, HTR, ["f4"]))];
    assert gap[..0] == [];
  }

  lemma {:induction false} PreparedDrains(nodes: Nodes, filled: Nodes, m: Name, n: Name)
    requires PreparedFrom(nodes, filled)
    ensures Drains(filled, m, n) <==> Drains(nodes, m, n)
  {
    hide Net, Target, GapsFilled;
    if m in nodes && n != HTR {
      PreparedNet(nodes, filled, m, n);
      assert NodeFilled(nodes[m := Known(nodes[m])], m, filled[m]);
    }
  }

  // ----- the state while the nodes are completed in their order -----

  /** The dummy moves nothing but HTR; the run fails in the end if it does. */
  ghost predicate DummyPure(nodes: Nodes) {
    DUMMY in nodes && Tokens(nodes, DUMMY) <= {HTR}
  }

  lemma {:induction false} DummyPureBefore(nodes: Nodes, nodes': Nodes)
    requires Grown(nodes, nodes') && DUMMY in nodes && DummyPure(nodes')
    ensures DummyPure(nodes)
  {
    var node, node' := nodes[DUMMY], nodes'[DUMMY];
    forall i | i in node.inputs && Slot(nodes, i).Some?
      ensures Slot(nodes, i).value.token in Tokens(nodes', DUMMY)
    {
      SlotKept(nodes, nodes', i);
      assert Slot(nodes', i).value.token in SlotTokens(nodes', node'.inputs);
    }
    forall k | 0 <= k < |node.outputs| && node.outputs[k].Some?
      ensures node.outputs[k].value.token in Tokens(nodes', DUMMY)
    {
      assert node'.outputs[k] == node.outputs[k];
      assert node'.outputs[k].value.token in OutputTokens(node'.outputs);
    }
  }

  /** A pure dummy is never short of another token. */
  lemma {:induction false} PureNotShort(nodes: Nodes, t: Name)
    requires DummyPure(nodes) && Resolved(nodes, DUMMY) && t != HTR
    ensures Net(nodes, DUMMY, t) == Target(nodes[DUMMY], t) == 0
  {
    hide Received, Spent;
    var node := nodes[DUMMY];
    forall k | 0 <= k < |node.outputs|
      ensures Amount(node.outputs[k], t) == 0
    {
      assert node.outputs[k].value.token in OutputTokens(node.outputs);
    }
    forall i | i in node.inputs
      ensures Amount(Slot(nodes, i), t) == 0
    {
      assert Slot(nodes, i).value.token in SlotTokens(nodes, node.inputs);
    }
    ReceivedNothing(node.outputs, t);
    SpentNothing(nodes, node.inputs, t);
  }

  /** A node that was not completed yet has its own inputs, and more outputs only of its own token, if it is drained. */
  ghost predicate Waiting(filled: Nodes, nodes: Nodes, done: set<Name>, u: Name)
    requires u in filled
  {
    && u in nodes && nodes[u].inputs == filled[u].inputs
    && forall t :: t != u || !DrainedBy(filled, done, u) ==> Received(nodes[u].outputs, t) == Received(filled[u].outputs, t)
  }

  ghost predicate Collected(deposit: int -> int, issued: int, filled: Nodes, nodes: Nodes, order: set<Name>, done: set<Name>) {
    && done <= filled.Keys <= nodes.Keys
    && (forall n :: n in done ==> Settled(deposit, issued, nodes, n, DrainedBy(filled, done, n)))
    && (forall u :: u in filled && u !in order && u != DUMMY ==> Waiting(filled, nodes, done, u))
    && (forall g :: g in filled && filled[g].kind == Genesis ==> SameMoves(filled[g], nodes[g]))
  }

  /** What was completed and what was put off. */
  ghost predicate Sorted(filled: Nodes, order: set<Name>, tokens: seq<Name>, done: set<Name>) {
    && (forall n :: n in order ==> n in filled && (n == DUMMY || n in done || n in tokens))
    && (forall n :: n in tokens ==> n in filled && filled[n].kind == Token && n != DUMMY && n in order)
    && (forall n :: n in done ==> n in filled && filled[n].kind != Token && n != DUMMY && n in order)
  }

  /** Everything in the set depends only on members. */
  ghost predicate DepsInside(nodes: Nodes, s: set<Name>) {
    forall m :: m in s ==> m in nodes && AllDependencies(nodes[m]) <= s
  }

  /** A node can only be short of a token that comes before it in the order. */
  lemma {:induction false} Foreign(nodes: Nodes, s: set<Name>, m: Name, h: Name)
    requires Referring(nodes) && DepsInside(nodes, s) && m in nodes && AllDependencies(nodes[m]) <= s && h !in s && h != HTR
    ensures Net(nodes, m, h) == Target(nodes[m], h) == 0
  {
    hide Received, Spent;
    assert ReferringNode(nodes, nodes[m]);
    forall k | 0 <= k < |nodes[m].outputs|
      ensures Amount(nodes[m].outputs[k], h) == 0
    {
      assert h !in nodes[m].deps;
    }
    forall i | i in nodes[m].inputs
      ensures Amount(Slot(nodes, i), h) == 0
    {
      assert i.node in AllDependencies(nodes[m]);
      assert ReferringNode(nodes, nodes[i.node]) && AllDependencies(nodes[i.node]) <= s;
      assert h !in nodes[i.node].deps;
    }
    ReceivedNothing(nodes[m].outputs, h);
    SpentNothing(nodes, nodes[m].inputs, h);
  }

  lemma {:induction false} WaitingSlot(filled: Nodes, nodes: Nodes, u: Name, i: Input, t: Name)
    requires Prepared(filled) && Grown(filled, nodes) && DummyPure(nodes) && u in filled && i in filled[u].inputs && t != HTR
    requires forall g :: g in filled && filled[g].kind == Genesis ==> g in nodes && SameMoves(filled[g], nodes[g])
    ensures Amount(Slot(nodes, i), t) == Amount(Slot(filled, i), t)
  {
    hide AlmostTyped;
    assert ReferringNode(filled, filled[u]);
    if Slot(filled, i).Some? {
      SlotKept(filled, nodes, i);
    } else if i.node == DUMMY {
      if Slot(nodes, i).Some? {
        assert Slot(nodes, i).value.token in OutputTokens(nodes[DUMMY].outputs);
      }
    } else {
      assert filled[i.node].kind == Genesis;
    }
  }

  /** What a waiting node is short of is what the description says. */
  lemma {:induction false} WaitingNet(filled: Nodes, nodes: Nodes, done: set<Name>, u: Name, t: Name)
    requires Prepared(filled) && Grown(filled, nodes) && DummyPure(nodes) && u in filled && Waiting(filled, nodes, done, u)
    requires forall g :: g in filled && filled[g].kind == Genesis ==> g in nodes && SameMoves(filled[g], nodes[g])
    requires t != HTR && (t != u || !DrainedBy(filled, done, u))
    ensures Net(nodes, u, t) == Net(filled, u, t) && Target(nodes[u], t) == Target(filled[u], t)
  {
    hide AlmostTyped, Slot, Amount, Spent, Received, Extends, SameMoves, DrainedBy, Tokens;
    forall i | i in filled[u].inputs
      ensures Amount(Slot(nodes, i), t) == Amount(Slot(filled, i), t)
    {
      WaitingSlot(filled, nodes, u, i, t);
    }
    SpentAmounts(filled, nodes, filled[u].inputs, t);
  }

  // ----- completing one node -----

  predicate BalancedHere(nodes: Nodes, n: Name)
    requires n in nodes
  {
    nodes[n].kind == OnChainBlueprint || (nodes[n].kind == Transaction && n != DUMMY)
  }

  /** What completing `n` does: a transaction is balanced at the cost of others, anything else keeps to itself. */
  ghost predicate NodeStep(issued: int, nodes: Nodes, nodes': Nodes, n: Name) {
    && n in nodes && DUMMY in nodes && Typed(nodes') && Grown(nodes, nodes')
    && (forall m :: m in nodes' && m !in nodes ==> nodes'[m].kind == Unknown)
    && if BalancedHere(nodes, n) then
         && Others(nodes, nodes', n, {})
         && if n == DUMMY then Resolved(nodes, n)
            else
              && Resolved(nodes', n) && DummyGives(nodes, nodes', Lack(nodes, n, HTR))
              && forall t :: Net(nodes', n, t) == Expected(nodes, n, {}, t)
       else
         && (forall h :: h in nodes && h != n ==> SameMoves(nodes[h], nodes'[h]))
         && if nodes[n].kind == Block then BlockFilled(issued, nodes', n) && ParentsTaken(nodes, nodes', n)
            else SameMoves(nodes[n], nodes'[n])
  }

  /** Three parents for a block; for anything else at least two, the new ones genesis transactions. */
  ghost predicate ParentsFilled(a: Node, b: Node) {
    && a.parents <= b.parents
    && match a.kind
       case Genesis => b.parents == a.parents
       case Block => |b.parents| == 3
       case _ => b.parents <= a.parents + {GENESIS_1, GENESIS_2} && |b.parents| == if |a.parents| >= 2 then |a.parents| else 2
  }

  ghost predicate SameLinks(a: Node, b: Node) {
    b.parents == a.parents && b.deps == a.deps
  }

  /** Only `n` and the dummy get parents. */
  ghost predicate ParentsStep(nodes: Nodes, nodes': Nodes, n: Name) {
    && (forall m :: m in nodes && m != n && m != DUMMY ==> m in nodes' && SameLinks(nodes[m], nodes'[m]))
    && (n != DUMMY ==> n in nodes && n in nodes' && ParentsFilled(nodes[n], nodes'[n]) && nodes'[n].deps == nodes[n].deps)
  }

  ghost predicate ParentsUpTo(filled: Nodes, nodes: Nodes, s: set<Name>) {
    forall m :: m in filled && m != DUMMY ==>
      && m in nodes && nodes[m].deps == filled[m].deps
      && if m in s then ParentsFilled(filled[m], nodes[m]) else nodes[m].parents == filled[m].parents
  }

  lemma {:induction false} ParentsUpToStep(filled: Nodes, nodes: Nodes, s: set<Name>, n: Name, nodes': Nodes)
    requires ParentsUpTo(filled, nodes, s) && ParentsStep(nodes, nodes', n) && n in filled && n !in s
    requires forall m :: m in filled ==> m in nodes && nodes[m].kind == filled[m].kind
    ensures ParentsUpTo(filled, nodes', s + {n})
  {
  }

  lemma {:induction false} ParentsUpToSame(filled: Nodes, nodes: Nodes, s: set<Name>, nodes': Nodes)
    requires ParentsUpTo(filled, nodes, s) && nodes'.Keys == nodes.Keys
    requires forall m :: m in nodes && m != DUMMY ==> SameLinks(nodes[m], nodes'[m])
    ensures ParentsUpTo(filled, nodes', s)
  {
  }

  lemma {:induction false} NoParentsYet(filled: Nodes)
    ensures ParentsUpTo(filled, filled, {})
  {
  }

  lemma {:induction false} TwoParentsFilled(a: Node, b: Node)
    requires a.kind !in {Genesis, Block} && a.parents <= b.parents <= a.parents + ToSet(Sources([]))
    requires |b.parents| == FilledCount(a.parents, 2, ToSet(Sources([])))
    ensures ParentsFilled(a, b)
  {
    var two := {GENESIS_1, GENESIS_2};
    assert GENESIS_1.text[8] != GENESIS_2.text[8];
    assert ToSet(Sources([])) == two && |two| == 2;
    T.Smaller(two, a.parents + two);
  }

  /** When completing `n` does not fail. */
  ghost predicate NodeFits(issued: int, nodes: Nodes, n: Name)
    requires n in nodes
  {
    match nodes[n].kind
    case Genesis => true
    case Block => nodes[n].inputs == {} && |nodes[n].outputs| <= 1 && ParentsFit(nodes, n) && IssueFits(issued, nodes, n)
    case Transaction => n == DUMMY || Resolved(nodes, n)
    case OnChainBlueprint => Resolved(nodes, n)
    case Token => true
    case Unknown => false
  }

  /** Where the run stands before `n`. */
  ghost predicate Before(filled: Nodes, nodes: Nodes, order: set<Name>, done: set<Name>, n: Name) {
    && Prepared(filled) && Typed(nodes) && Grown(filled, nodes) && DummyPure(nodes)
    && DepsInside(filled, order) && done <= order
    && n in filled && n !in order && AllDependencies(filled[n]) <= order
  }

  /** Nothing that is completed takes tokens from the next node, nor does that node itself. */
  lemma {:induction false} NotDrainedYet(filled: Nodes, nodes: Nodes, order: set<Name>, done: set<Name>, n: Name)
    requires Before(filled, nodes, order, done, n)
    ensures !DrainedBy(filled, done + {n}, n)
    ensures n != HTR ==> Net(filled, n, n) == Target(filled[n], n)
  {
    hide Net, Target, AlmostTyped, Extends, DummyPure, AllDependencies;
    if n != HTR {
      forall m | m in done
        ensures !Drains(filled, m, n)
      {
        Foreign(filled, order, m, n);
      }
      Foreign(filled, order, n, n);
    }
  }

  lemma {:induction false} DrainedByMore(nodes: Nodes, done: set<Name>, m: Name, n: Name)
    ensures DrainedBy(nodes, done + {m}, n) <==> DrainedBy(nodes, done, n) || Drains(nodes, m, n)
  {
    hide Drains;
    if x :| x in done && Drains(nodes, x, n) {
      assert x in done + {m};
    }
    if Drains(nodes, m, n) {
      assert m in done + {m};
    }
  }

  /** The next node is balanced. */
  lemma {:induction false} NextSettled(deposit: int -> int, issued: int, filled: Nodes, nodes: Nodes, order: set<Name>, done: set<Name>,
                                       n: Name, nodes': Nodes)
    requires Before(filled, nodes, order, done, n) && Collected(deposit, issued, filled, nodes, order, done)
    requires NodeStep(issued, nodes, nodes', n) && BalancedHere(nodes, n) && n != DUMMY
    ensures Settled(deposit, issued, nodes', n, DrainedBy(filled, done + {n}, n))
  {
    hide Net, Target, AlmostTyped, Extends, DummyPure, AllDependencies, DrainedBy, Others, Waiting, Resolved;
    NotDrainedYet(filled, nodes, order, done, n);
    if n != HTR {
      DrainedByMore(filled, done, n, n);
      WaitingNet(filled, nodes, done, n, n);
    }
    forall t
      ensures Net(nodes', n, t) == Target(nodes'[n], t)
    {
      SameTargets(nodes, nodes', n, t);
      assert Net(nodes', n, t) == Expected(nodes, n, {}, t);
    }
  }

  lemma {:induction false} SameTargets(nodes: Nodes, nodes': Nodes, n: Name, t: Name)
    requires Grown(nodes, nodes') && n in nodes
    ensures n in nodes' && Target(nodes'[n], t) == Target(nodes[n], t) && nodes'[n].kind == nodes[n].kind
  {
  }

  /** A blueprint that others take from is supplied with more of its own token and nothing else. */
  lemma {:induction false} SuppliedStep(nodes: Nodes, nodes': Nodes, n: Name, x: Name, drained: bool)
    requires n in nodes && x in nodes && Grown(nodes, nodes') && Supplied(nodes, x, drained) && OtherNode(nodes, nodes', n, {}, x)
    ensures Supplied(nodes', x, drained || (x != HTR && Short(nodes, n, x)))
  {
    hide Received, Spent, Slot, Extends, Touched;
    forall i | i in nodes[x].inputs
      ensures Slot(nodes', i) == Slot(nodes, i)
    {
      SlotKept(nodes, nodes', i);
    }
    assert AllSet(nodes[x].outputs);
    forall t
      ensures Net(nodes', x, t) == Net(nodes, x, t) + Supply(nodes, n, x, t)
    {
      SpentSame(nodes, nodes', nodes[x].inputs, t);
    }
  }

  /** Only token nodes, blueprints and the dummy supply others. */
  lemma {:induction false} OnlyTokensTouched(nodes: Nodes, nodes': Nodes, n: Name, x: Name)
    requires Typed(nodes) && n in nodes && x in nodes && x != n && x != DUMMY && Others(nodes, nodes', n, {})
    requires nodes[x].kind !in {Token, OnChainBlueprint}
    ensures x in nodes' && nodes'[x] == nodes[x]
  {
    hide AlmostTyped, Net, Received;
    assert OtherNode(nodes, nodes', n, {}, x);
    if Touched(nodes, n, x) {
      MovedIsTyped(nodes, n, x);
    }
  }

  /** A completed node stays settled when the next one is balanced, unless that one drains it. */
  lemma {:induction false} DoneStep(deposit: int -> int, issued: int, filled: Nodes, nodes: Nodes, order: set<Name>, done: set<Name>,
                                    n: Name, nodes': Nodes, x: Name)
    requires Before(filled, nodes, order, done, n) && Collected(deposit, issued, filled, nodes, order, done)
    requires NodeStep(issued, nodes, nodes', n) && BalancedHere(nodes, n) && n != DUMMY && x in done && x != DUMMY
    requires filled[x].kind != Token
    ensures Settled(deposit, issued, nodes', x, DrainedBy(filled, done + {n}, x))
  {
    hide Net, Target, AlmostTyped, Extends, DummyPure, AllDependencies, DrainedBy, Others, Waiting, Resolved, OtherNode, Supplied,
         NodeDone;
    DrainedByMore(filled, done, n, x);
    SameTargets(nodes, nodes', x, x);
    if nodes[x].kind == OnChainBlueprint {
      OtherNodeOf(nodes, nodes', n, x);
      SuppliedStep(nodes, nodes', n, x, DrainedBy(filled, done, x));
      if x != HTR {
        WaitingNet(filled, nodes, done, n, x);
      }
    } else {
      SameTargets(filled, nodes, x, x);
      SettledAny(deposit, issued, nodes, x, DrainedBy(filled, done, x), DrainedBy(filled, done + {n}, x));
      OnlyTokensTouched(nodes, nodes', n, x);
      SettledKept(deposit, issued, nodes, nodes', x, DrainedBy(filled, done + {n}, x));
    }
  }

  lemma {:induction false} OtherNodeOf(nodes: Nodes, nodes': Nodes, n: Name, x: Name)
    requires n in nodes && Others(nodes, nodes', n, {}) && x in nodes && x != n && x != DUMMY
    ensures OtherNode(nodes, nodes', n, {}, x)
  {
  }

  lemma {:induction false} SettledAny(deposit: int -> int, issued: int, nodes: Nodes, x: Name, a: bool, b: bool)
    requires x in nodes && Settled(deposit, issued, nodes, x, a) && (x == DUMMY || nodes[x].kind != OnChainBlueprint)
    ensures Settled(deposit, issued, nodes, x, b)
  {
  }

  lemma {:induction false} WaitingStep(filled: Nodes, nodes: Nodes, order: set<Name>, done: set<Name>, n: Name, nodes': Nodes,
                                       u: Name, deposit: int -> int, issued: int)
    requires Before(filled, nodes, order, done, n) && Collected(deposit, issued, filled, nodes, order, done)
    requires NodeStep(issued, nodes, nodes', n) && BalancedHere(nodes, n) && n != DUMMY
    requires u in filled && u !in order && u != n && u != DUMMY
    ensures Waiting(filled, nodes', done + {n}, u)
  {
    hide Net, Target, AlmostTyped, Extends, DummyPure, AllDependencies, DrainedBy, Others, Resolved, Received, Touched;
    assert Waiting(filled, nodes, done, u);
    DrainedByMore(filled, done, n, u);
    OtherNodeOf(nodes, nodes', n, u);
    if u != HTR {
      WaitingNet(filled, nodes, done, n, u);
      SameTargets(filled, nodes, n, u);
    }
    forall t | t != u || !DrainedBy(filled, done + {n}, u)
      ensures Received(nodes'[u].outputs, t) == Received(filled[u].outputs, t)
    {
      assert Received(nodes'[u].outputs, t) == Received(nodes[u].outputs, t) + Supply(nodes, n, u, t);
    }
  }

  lemma {:induction false} BalancedStep(deposit: int -> int, issued: int, filled: Nodes, nodes: Nodes, order: set<Name>, done: set<Name>,
                                        n: Name, nodes': Nodes)
    requires Before(filled, nodes, order, done, n) && Collected(deposit, issued, filled, nodes, order, done)
    requires NodeStep(issued, nodes, nodes', n) && BalancedHere(nodes, n) && n != DUMMY && DUMMY !in done
    requires forall x :: x in done ==> filled[x].kind != Token
    ensures Collected(deposit, issued, filled, nodes', order + {n}, done + {n})
  {
    hide Net, Target, AlmostTyped, Extends, DummyPure, AllDependencies, DrainedBy, Others, Waiting, Resolved, Settled, SameMoves;
    NextSettled(deposit, issued, filled, nodes, order, done, n, nodes');
    forall x | x in done
      ensures Settled(deposit, issued, nodes', x, DrainedBy(filled, done + {n}, x))
    {
      DoneStep(deposit, issued, filled, nodes, order, done, n, nodes', x);
    }
    forall u | u in filled && u !in order + {n} && u != DUMMY
      ensures Waiting(filled, nodes', done + {n}, u)
    {
      WaitingStep(filled, nodes, order, done, n, nodes', u, deposit, issued);
    }
    forall g | g in filled && filled[g].kind == Genesis
      ensures SameMoves(filled[g], nodes'[g])
    {
      GenesisStays(filled, nodes, nodes', n, g);
    }
  }

  lemma {:induction false} GenesisStays(filled: Nodes, nodes: Nodes, nodes': Nodes, n: Name, g: Name)
    requires Typed(nodes) && Grown(filled, nodes) && n in nodes && Others(nodes, nodes', n, {})
    requires g in filled && filled[g].kind == Genesis && SameMoves(filled[g], nodes[g]) && BalancedHere(nodes, n)
    ensures g in nodes' && SameMoves(filled[g], nodes'[g])
  {
    hide Net, AlmostTyped, Extends, Others;
    TypedNames(nodes);
    OnlyTokensTouched(nodes, nodes', n, g);
  }

  lemma {:induction false} TypedNames(nodes: Nodes)
    requires Typed(nodes)
    ensures DUMMY in nodes && nodes[DUMMY].kind in {Transaction, OnChainBlueprint} && (HTR in nodes ==> nodes[HTR].kind != Token)
  {
  }

  /** A step that leaves all other nodes alone. */
  lemma {:induction false} QuietStep(deposit: int -> int, issued: int, filled: Nodes, nodes: Nodes, order: set<Name>, done: set<Name>,
                                     n: Name, nodes': Nodes)
    requires Collected(deposit, issued, filled, nodes, order, done) && Grown(nodes, nodes') && n in filled && n !in done
    requires forall h :: h in nodes && h != n ==> SameMoves(nodes[h], nodes'[h])
    requires filled[n].kind == Genesis ==> SameMoves(nodes[n], nodes'[n])
    ensures Collected(deposit, issued, filled, nodes', order + {n}, done)
  {
    hide Extends, DrainedBy, Settled;
    forall x | x in done
      ensures Settled(deposit, issued, nodes', x, DrainedBy(filled, done, x))
    {
      SettledKept(deposit, issued, nodes, nodes', x, DrainedBy(filled, done, x));
    }
  }

  /** A block or a genesis node is completed as well. */
  lemma {:induction false} AddQuiet(deposit: int -> int, issued: int, filled: Nodes, nodes: Nodes, order: set<Name>, done: set<Name>,
                                    n: Name)
    requires Collected(deposit, issued, filled, nodes, order, done) && n in filled && n in nodes && n != DUMMY
    requires filled[n].kind == nodes[n].kind && nodes[n].kind in {Block, Genesis} && NodeDone(deposit, issued, nodes, n)
    ensures Collected(deposit, issued, filled, nodes, order, done + {n})
  {
    hide NodeDone, Supplied;
    forall x
      ensures DrainedBy(filled, done + {n}, x) <==> DrainedBy(filled, done, x)
    {
      DrainedByMore(filled, done, n, x);
    }
  }

  /** A dummy that is balanced as a blueprint takes nothing from the others, if it moves only HTR. */
  lemma {:induction false} DummyKeepsOthers(nodes: Nodes, nodes': Nodes, h: Name)
    requires DummyPure(nodes) && Resolved(nodes, DUMMY) && Others(nodes, nodes', DUMMY, {}) && h in nodes && h != DUMMY
    ensures h in nodes' && nodes'[h] == nodes[h]
  {
    hide Net, Received, Tokens, Resolved;
    OtherNodeOf(nodes, nodes', DUMMY, h);
    if h != HTR {
      PureNotShort(nodes, h);
    }
  }

  /** Completing one node, of any kind. */
  lemma {:induction false} CollectedStep(deposit: int -> int, issued: int, filled: Nodes, nodes: Nodes, order: set<Name>,
                                         tokens: seq<Name>, done: set<Name>, n: Name, nodes': Nodes)
    requires Before(filled, nodes, order, done, n) && Collected(deposit, issued, filled, nodes, order, done)
    requires Sorted(filled, order, tokens, done) && NodeStep(issued, nodes, nodes', n)
    ensures Collected(deposit, issued, filled, nodes', order + {n}, if filled[n].kind == Token || n == DUMMY then done else done + {n})
  {
    hide Net, AlmostTyped, Extends, DummyPure, AllDependencies, DrainedBy, Waiting, Resolved, Settled, SameMoves, Others, BlockFilled;
    SameTargets(filled, nodes, n, n);
    TypedNames(nodes);
    if BalancedHere(nodes, n) && n != DUMMY {
      BalancedStep(deposit, issued, filled, nodes, order, done, n, nodes');
    } else {
      if n == DUMMY && BalancedHere(nodes, n) {
        forall h | h in nodes && h != DUMMY
          ensures SameMoves(nodes[h], nodes'[h])
        {
          DummyKeepsOthers(nodes, nodes', h);
          SameMovesSelf(nodes[h]);
        }
      }
      QuietStep(deposit, issued, filled, nodes, order, done, n, nodes');
      if filled[n].kind != Token && n != DUMMY {
        SameTargets(nodes, nodes', n, n);
        KindsOf(filled, n);
        AddQuiet(deposit, issued, filled, nodes', order + {n}, done, n);
      }
    }
  }

  lemma {:induction false} SameMovesSelf(node: Node)
    ensures SameMoves(node, node)
  {
  }

  lemma {:induction false} KindsOf(filled: Nodes, n: Name)
    requires Prepared(filled) && n in filled
    ensures filled[n].kind in {Transaction, OnChainBlueprint, Block, Genesis, Token}
  {
    assert filled[n].kind != Unknown;
  }

  // ----- one token node -----

  /** `n` moves `target` of HTR and otherwise what it did; only it and the dummy may differ. */
  ghost predicate HtrReached(nodes: Nodes, nodes': Nodes, n: Name, target: int) {
    && n in nodes && n in nodes' && Resolved(nodes', n)
    && Grown(nodes, nodes') && nodes'.Keys == nodes.Keys && Typed(nodes')
    && (forall t :: Net(nodes', n, t) == if t == HTR then target else Net(nodes, n, t))
    && forall m :: m in nodes && m != n && m != DUMMY ==> nodes'[m] == nodes[m]
  }

  lemma {:induction false} FilledTarget(deposit: int -> int, nodes: Nodes, n: Name)
    requires n in nodes
    ensures TokenFilled(deposit, nodes, n) ==> Net(nodes, n, HTR) == Target(nodes[n], HTR) - deposit(Net(nodes, n, n))
  {
    hide Net;
  }

  lemma {:induction false} AlreadyReached(nodes: Nodes, n: Name, target: int)
    requires Typed(nodes) && n in nodes && Resolved(nodes, n) && Net(nodes, n, HTR) == target
    ensures HtrReached(nodes, nodes, n, target)
  {
    hide AlmostTyped, Net, Resolved;
  }

  lemma {:induction false} TokenSurplus(nodes: Nodes, n: Name, target: int, index: nat, o: Output, nodes': Nodes)
    requires Typed(nodes) && n in nodes && Resolved(nodes, n)
    requires o.token == HTR && o.amount == target - Net(nodes, n, HTR)
    requires n in nodes' && Placed(nodes[n].outputs, index, o, nodes'[n].outputs)
    requires nodes' == nodes[n := nodes[n].(outputs := nodes'[n].outputs)]
    ensures HtrReached(nodes, nodes', n, target)
  {
    hide AlmostTyped, Net, Resolved, Placed;
    NetPlaced(nodes, n, index, o, nodes'[n].outputs, nodes');
    TypedPlaced(nodes, n, index, o, nodes'[n]);
  }

  lemma {:induction false} TokenShort(nodes: Nodes, n: Name, target: int, i: Input, taken: Nodes, nodes': Nodes)
    requires Typed(nodes) && n in nodes && n != DUMMY && Resolved(nodes, n)
    requires Taken(nodes, Net(nodes, n, HTR) - target, HTR, i, taken)
    requires n in taken && nodes' == taken[n := taken[n].(inputs := taken[n].inputs + {i})]
    ensures HtrReached(nodes, nodes', n, target)
  {
    hide AlmostTyped, Net, Resolved, Taken, Slot;
    TypedNames(nodes);
    TakenFacts(nodes, Net(nodes, n, HTR) - target, HTR, i, taken, n);
    Undisturbed(nodes, taken, n);
    NetSpending(taken, n, i, nodes');
    TypedSpending(taken, n, nodes'[n]);
    GrownTransitive(nodes, taken, nodes');
  }

  lemma {:induction false} TokenReached(deposit: int -> int, nodes: Nodes, nodes': Nodes, n: Name, target: int)
    requires HtrReached(nodes, nodes', n, target) && n != HTR
    requires target == Target(nodes[n], HTR) - deposit(Net(nodes, n, n))
    requires forall t :: t != HTR && t != n ==> Net(nodes, n, t) == 0
    ensures TokenFilled(deposit, nodes', n) && Typed(nodes') && Grown(nodes, nodes') && nodes'.Keys == nodes.Keys
    ensures forall m :: m in nodes && m != n && m != DUMMY ==> nodes'[m] == nodes[m]
  {
    hide AlmostTyped, Net, Resolved;
  }

  lemma {:induction false} NoTokens(nodes: Nodes, n: Name)
    requires n in nodes && Resolved(nodes, n)
    ensures nodes[n].outputs != [] ==> Tokens(nodes, n) != {}
  {
    if nodes[n].outputs != [] {
      assert nodes[n].outputs[0].value.token in OutputTokens(nodes[n].outputs);
    }
  }

  // ----- parents -----

  /** Where parents are taken from. */
  function Sources(candidates: seq<Name>): seq<Name> {
    if candidates == [] then [GENESIS_1, GENESIS_2] else candidates
  }

  function FilledCount(parents: set<Name>, target: nat, from: set<Name>): nat {
    if |parents| >= target then |parents|
    else if |parents + from| < target then |parents + from|
    else target
  }

  ghost predicate IsParentBlock(nodes: Nodes, n: Name, p: Name)
    requires n in nodes
  {
    p in nodes[n].parents && p in nodes && nodes[p].kind == Block
  }

  /** What a block can take over from its parent block. */
  function Candidates(nodes: Nodes, p: Name): set<Name>
    requires p in nodes
  {
    set c | c in nodes[p].parents && c != GENESIS_BLOCK && (c in nodes ==> nodes[c].kind != Block)
  }

  function SourceSet(candidates: set<Name>): set<Name> {
    if candidates == {} then {GENESIS_1, GENESIS_2} else candidates
  }

  /** The block has at most one block among its parents and can be given exactly three parents. */
  ghost predicate ParentsFit(nodes: Nodes, n: Name)
    requires n in nodes
  {
    && (forall p, q :: IsParentBlock(nodes, n, p) && IsParentBlock(nodes, n, q) ==> p == q)
    && ((forall p :: !IsParentBlock(nodes, n, p)) ==> FilledCount(nodes[n].parents + {GENESIS_BLOCK}, 3, SourceSet({})) == 3)
    && forall p :: IsParentBlock(nodes, n, p) ==>
         && (forall c :: c in nodes[p].parents && c != GENESIS_BLOCK ==> c in nodes || c in nodes[n].parents)
         && FilledCount(nodes[n].parents, 3, SourceSet(Candidates(nodes, p))) == 3
  }

  /** A block has three parents, from the parents of its parent block, or with the genesis block. */
  ghost predicate ParentsTaken(nodes: Nodes, nodes': Nodes, n: Name) {
    && n in nodes && n in nodes' && nodes[n].parents <= nodes'[n].parents && |nodes'[n].parents| == 3
    && (forall p :: IsParentBlock(nodes, n, p) ==> nodes'[n].parents <= nodes[n].parents + SourceSet(Candidates(nodes, p)))
    && ((forall p :: !IsParentBlock(nodes, n, p)) ==>
          && GENESIS_BLOCK in nodes'[n].parents
          && nodes'[n].parents <= nodes[n].parents + {GENESIS_BLOCK, GENESIS_1, GENESIS_2})
  }

  lemma {:induction false} ParentsTakenFrom(nodes: Nodes, nodes': Nodes, n: Name, parent: Option<Name>, candidates: set<Name>)
    requires n in nodes && n in nodes' && nodes[n].parents <= nodes'[n].parents && |nodes'[n].parents| == 3
    requires forall p :: IsParentBlock(nodes, n, p) <==> parent == Some(p)
    requires parent.Some? ==> parent.value in nodes && candidates == Candidates(nodes, parent.value)
    requires parent.Some? ==> nodes'[n].parents <= nodes[n].parents + SourceSet(candidates)
    requires parent.None? ==>
               && candidates == {} && GENESIS_BLOCK in nodes'[n].parents
               && nodes'[n].parents <= nodes[n].parents + {GENESIS_BLOCK} + SourceSet(candidates)
    ensures ParentsTaken(nodes, nodes', n)
  {
    hide Candidates;
  }

  lemma {:induction false} ParentsTakenSame(nodes: Nodes, middle: Nodes, nodes': Nodes, n: Name)
    requires ParentsTaken(nodes, middle, n) && n in nodes' && nodes'[n].parents == middle[n].parents
    ensures ParentsTaken(nodes, nodes', n)
  {
  }

  lemma {:induction false} FitsIff(nodes: Nodes, n: Name, parent: Option<Name>)
    requires n in nodes && forall p :: IsParentBlock(nodes, n, p) <==> parent == Some(p)
    ensures parent.None? ==> (ParentsFit(nodes, n) <==> FilledCount(nodes[n].parents + {GENESIS_BLOCK}, 3, SourceSet({})) == 3)
    ensures parent.Some? ==>
              && parent.value in nodes
              && (ParentsFit(nodes, n) <==>
                    && (forall c :: c in nodes[parent.value].parents && c != GENESIS_BLOCK ==> c in nodes || c in nodes[n].parents)
                    && FilledCount(nodes[n].parents, 3, SourceSet(Candidates(nodes, parent.value))) == 3)
  {
    hide FilledCount, SourceSet, Candidates;
    if parent.Some? {
      assert IsParentBlock(nodes, n, parent.value);
    }
  }

  lemma {:induction false} TwoParentBlocks(nodes: Nodes, n: Name)
    requires n in nodes && !forall p, q :: IsParentBlock(nodes, n, p) && IsParentBlock(nodes, n, q) ==> p == q
    ensures !ParentsFit(nodes, n)
  {
    hide FilledCount, SourceSet, Candidates;
  }

  lemma {:induction false} SourcesOf(candidates: seq<Name>)
    ensures ToSet(Sources(candidates)) == SourceSet(ToSet(candidates))
  {
    if candidates == [] {
      assert ToSet(candidates) == {};
    } else {
      assert candidates[0] in ToSet(candidates);
    }
  }

  /** Nodes made for missing parents are no blocks, so the candidates are the same. */
  lemma {:induction false} CandidatesAgree(nodes: Nodes, found: Nodes, n: Name, p: Name)
    requires n in nodes && Opened(nodes, found) && nodes[n].parents <= found.Keys <= nodes.Keys + nodes[n].parents && p in nodes
    ensures (forall c :: c in found[p].parents && c != GENESIS_BLOCK ==> c in found) <==>
            (forall c :: c in nodes[p].parents && c != GENESIS_BLOCK ==> c in nodes || c in nodes[n].parents)
    ensures (forall c :: c in found[p].parents && c != GENESIS_BLOCK ==> c in found) ==>
              (set c | c in found[p].parents && c != GENESIS_BLOCK && c in found && found[c].kind != Block) == Candidates(nodes, p)
  {
  }

  /** Some nodes of unknown kind more, and nothing else. */
  ghost predicate Opened(nodes: Nodes, nodes': Nodes) {
    && (forall m :: m in nodes ==> m in nodes' && nodes'[m] == nodes[m])
    && forall m :: m in nodes' && m !in nodes ==> nodes'[m].kind == Unknown
  }

  // ----- blocks -----

  /** The block moves only HTR, and no more than is issued. */
  ghost predicate IssueFits(issued: int, nodes: Nodes, n: Name)
    requires n in nodes
  {
    Resolved(nodes, n) && Tokens(nodes, n) <= {HTR} && 0 <= Net(nodes, n, HTR) <= issued
  }

  lemma {:induction false} IssueSame(issued: int, nodes: Nodes, nodes': Nodes, n: Name)
    requires n in nodes && n in nodes' && nodes[n].inputs == {}
    requires nodes'[n] == nodes[n].(parents := nodes'[n].parents)
    ensures IssueFits(issued, nodes', n) <==> IssueFits(issued, nodes, n)
  {
    hide Received;
    assert SlotTokens(nodes, {}) == SlotTokens(nodes', {}) == {};
  }

  lemma {:induction false} GrownByParents(nodes: Nodes, nodes': Nodes, n: Name)
    requires n in nodes && n in nodes' && nodes'[n] == nodes[n].(parents := nodes'[n].parents)
    requires forall m :: m in nodes && m != n ==> m in nodes' && nodes'[m] == nodes[m]
    ensures Grown(nodes, nodes')
  {
  }

  // ----- balancing a node in the run -----

  lemma {:induction false} ParentsMoveNothing(nodes: Nodes, nodes': Nodes, n: Name)
    requires n in nodes && n in nodes' && nodes' == nodes[n := nodes[n].(parents := nodes'[n].parents)]
    ensures Grown(nodes, nodes') && (Resolved(nodes', n) <==> Resolved(nodes, n))
    ensures forall t :: Net(nodes', n, t) == Net(nodes, n, t) && Target(nodes'[n], t) == Target(nodes[n], t)
  {
    hide Received, Spent;
    assert forall i :: Slot(nodes', i) == Slot(nodes, i);
    forall t
      ensures Net(nodes', n, t) == Net(nodes, n, t)
    {
      SpentSame(nodes, nodes', nodes[n].inputs, t);
    }
  }

  lemma {:induction false} BalancedNodeStep(issued: int, nodes: Nodes, middle: Nodes, nodes': Nodes, n: Name)
    requires Typed(nodes) && Typed(middle) && n in nodes && n in middle && BalancedHere(nodes, n)
    requires middle == nodes[n := nodes[n].(parents := middle[n].parents)]
    requires Resolved(nodes, n) && Balancing(middle, nodes', n, {})
    requires n != DUMMY ==> DummyGives(middle, nodes', Lack(middle, n, HTR))
    ensures NodeStep(issued, nodes, nodes', n) && nodes'.Keys == nodes.Keys
  {
    hide Net, Target, Resolved, AlmostTyped, Grown, OtherNode, Given;
    ParentsMoveNothing(nodes, middle, n);
    GrownTransitive(nodes, middle, nodes');
    TypedNames(nodes);
    forall h | h in nodes && h != n && h != DUMMY
      ensures OtherNode(nodes, nodes', n, {}, h)
    {
      OtherBefore(nodes, middle, nodes', n, h);
    }
  }

  lemma {:induction false} OtherBefore(nodes: Nodes, middle: Nodes, nodes': Nodes, n: Name, h: Name)
    requires n in nodes && n in middle && h in nodes && h in middle && middle[h] == nodes[h] && OtherNode(middle, nodes', n, {}, h)
    requires forall t :: Net(middle, n, t) == Net(nodes, n, t) && Target(middle[n], t) == Target(nodes[n], t)
    ensures OtherNode(nodes, nodes', n, {}, h)
  {
    hide Net, Target, Received, OutputTokens, AllSet;
  }

  // ----- preparing -----

  lemma {:induction false} FilledTyped(nodes: Nodes, n: Name, node: Node)
    requires n in nodes && TypedNode(nodes, HTR, nodes[n]) && ReferringNode(nodes, nodes[n])
    requires node == nodes[n].(outputs := node.outputs) && GapsFilled(Gaps(nodes[n]), node.outputs)
    ensures TypedNode(nodes, HTR, node) && ReferringNode(nodes, node) && |nodes[n].outputs| <= |node.outputs|
  {
  }

  lemma {:induction false} FilledHere(nodes: Nodes, before: Nodes, n: Name, node: Node)
    requires n in nodes && n in before && nodes[n] == before[n] && NodeFilled(nodes, n, node)
    ensures NodeFilled(before, n, node)
  {
  }

  lemma {:induction false} KnownSkips(nodes: Nodes, known: Nodes)
    requires known.Keys == nodes.Keys && forall n :: n in known ==> known[n] == Known(nodes[n])
    ensures forall n :: n in nodes ==> (Skipped(known, n) <==> Skipped(nodes, n)) && known[n].outputs == nodes[n].outputs
  {
  }

  lemma {:induction false} PreparedAll(nodes: Nodes, known: Nodes, filled: Nodes)
    requires known.Keys == nodes.Keys == filled.Keys && Described(filled)
    requires forall n :: n in known ==> known[n] == Known(nodes[n])
    requires forall n :: n in filled ==> NodeFilled(known, n, filled[n])
    ensures Prepared(filled) && PreparedFrom(nodes, filled)
    ensures forall n :: n in nodes ==> AllDependencies(filled[n]) == AllDependencies(nodes[n])
  {
    hide AlmostTyped, Referring;
    forall n | n in nodes
      ensures NodeFilled(nodes[n := Known(nodes[n])], n, filled[n])
      ensures filled[n].kind != Unknown
      ensures n != DUMMY && filled[n].kind != Genesis ==> AllSet(filled[n].outputs)
    {
      FilledHere(known, nodes[n := Known(nodes[n])], n, filled[n]);
    }
  }

  lemma {:induction false} PreparedTyped(filled: Nodes)
    requires Prepared(filled)
    ensures Typed(filled)
  {
  }

  lemma {:induction false} SameDependencies(nodes: Nodes, nodes': Nodes)
    requires nodes'.Keys == nodes.Keys && forall n :: n in nodes ==> AllDependencies(nodes'[n]) == AllDependencies(nodes[n])
    ensures T.Cyclic(nodes) ==> T.Cyclic(nodes')
    ensures T.Missing(nodes) ==> T.Missing(nodes')
  {
    hide AllDependencies;
    if p :| T.Cycle(nodes, p) {
      assert T.Cycle(nodes', p);
    }
    if n, d :| n in nodes && d in AllDependencies(nodes[n]) && d !in nodes {
      assert d in AllDependencies(nodes'[n]);
    }
  }

  lemma {:induction false} KindsStay(nodes: Nodes, nodes': Nodes)
    requires Grown(nodes, nodes')
    ensures forall n :: n in nodes ==> nodes'[n].kind == nodes[n].kind
  {
  }

  // ----- the order -----

  lemma {:induction false} NothingCollected(deposit: int -> int, issued: int, filled: Nodes)
    ensures Collected(deposit, issued, filled, filled, {}, {}) && Sorted(filled, {}, [], {}) && DepsInside(filled, {})
  {
  }

  lemma {:induction false} NextInOrder(filled: Nodes, order: seq<Name>, k: nat)
    requires T.TopologicalOrder(filled, order) && k < |order| && DepsInside(filled, ToSet(order[..k]))
    ensures order[k] in filled && order[k] !in ToSet(order[..k]) && AllDependencies(filled[order[k]]) <= ToSet(order[..k])
    ensures ToSet(order[..k + 1]) == ToSet(order[..k]) + {order[k]} && DepsInside(filled, ToSet(order[..k + 1]))
  {
    hide AllDependencies;
    assert order[..k + 1] == order[..k] + [order[k]];
  }

  lemma {:induction false} SortedDone(filled: Nodes, order: set<Name>, tokens: seq<Name>, done: set<Name>)
    requires Sorted(filled, order, tokens, done)
    ensures done <= order
  {
  }

  lemma {:induction false} SortedStep(filled: Nodes, order: set<Name>, tokens: seq<Name>, done: set<Name>, n: Name)
    requires Sorted(filled, order, tokens, done) && n in filled
    requires DUMMY in filled && filled[DUMMY].kind != Token
    ensures Sorted(filled, order + {n}, if filled[n].kind == Token then tokens + [n] else tokens,
                   if filled[n].kind != Token && n != DUMMY then done + {n} else done)
  {
  }

  lemma {:induction false} SortedAll(filled: Nodes, order: set<Name>, tokens: seq<Name>, done: set<Name>)
    requires Sorted(filled, order, tokens, done) && order == filled.Keys
    ensures forall n :: n in filled && n != DUMMY && filled[n].kind != Token ==> n in done
  {
  }

  lemma {:induction false} NodeStepFacts(issued: int, filled: Nodes, nodes: Nodes, nodes': Nodes, n: Name)
    requires Grown(filled, nodes) && NodeStep(issued, nodes, nodes', n)
    ensures Typed(nodes') && Grown(nodes, nodes') && Grown(filled, nodes')
    ensures forall m :: m in nodes' && m !in nodes ==> nodes'[m].kind == Unknown
    ensures DUMMY in nodes && forall m :: m in nodes ==> m in nodes' && nodes'[m].kind == nodes[m].kind
  {
    hide AlmostTyped, Others, Net, Resolved, Extends, BlockFilled;
    GrownTransitive(filled, nodes, nodes');
  }

  // ----- the tokens -----

  ghost predicate AllSettled(deposit: int -> int, issued: int, filled: Nodes, done: set<Name>, nodes: Nodes, all: set<Name>) {
    all <= nodes.Keys && forall n :: n in all ==> Settled(deposit, issued, nodes, n, DrainedBy(filled, done, n))
  }

  lemma {:induction false} CollectedSettles(deposit: int -> int, issued: int, filled: Nodes, nodes: Nodes, order: set<Name>,
                                            done: set<Name>)
    ensures Collected(deposit, issued, filled, nodes, order, done) ==> AllSettled(deposit, issued, filled, done, nodes, done)
  {
  }

  lemma {:induction false} NoTokenYet(filled: Nodes, order: set<Name>, tokens: seq<Name>, done: set<Name>)
    requires Sorted(filled, order, tokens, done)
    ensures done + ToSet(tokens[..0]) == done && DUMMY !in done
  {
  }

  lemma {:induction false} NextToken(filled: Nodes, order: set<Name>, tokens: seq<Name>, done: set<Name>, k: nat)
    requires Sorted(filled, order, tokens, done) && k < |tokens|
    ensures tokens[k] in filled && tokens[k] != DUMMY && filled[tokens[k]].kind == Token
    ensures ToSet(tokens[..k + 1]) == ToSet(tokens[..k]) + {tokens[k]}
  {
    assert tokens[..k + 1] == tokens[..k] + [tokens[k]];
    assert tokens[k] in tokens;
  }

  lemma {:induction false} TokenSettles(deposit: int -> int, issued: int, filled: Nodes, done: set<Name>, nodes: Nodes, nodes': Nodes,
                                        all: set<Name>, n: Name)
    requires AllSettled(deposit, issued, filled, done, nodes, all) && Grown(nodes, nodes') && DUMMY !in all
    requires forall m :: m in nodes && m != n && m != DUMMY ==> nodes'[m] == nodes[m]
    requires n in nodes' && n != DUMMY && nodes'[n].kind == Token && TokenFilled(deposit, nodes', n)
    ensures AllSettled(deposit, issued, filled, done, nodes', all + {n})
  {
    hide Settled, Extends, DrainedBy, TokenFilled;
    TokenIsSettled(deposit, issued, nodes', n, DrainedBy(filled, done, n));
    forall m | m in all && m != n
      ensures Settled(deposit, issued, nodes', m, DrainedBy(filled, done, m))
    {
      SettledKept(deposit, issued, nodes, nodes', m, DrainedBy(filled, done, m));
    }
  }

  lemma {:induction false} TokenIsSettled(deposit: int -> int, issued: int, nodes: Nodes, n: Name, drained: bool)
    requires n in nodes && n != DUMMY && nodes[n].kind == Token && TokenFilled(deposit, nodes, n)
    ensures Settled(deposit, issued, nodes, n, drained)
  {
  }

  lemma {:induction false} AllInOrder(deposit: int -> int, issued: int, filled: Nodes, order: set<Name>, tokens: seq<Name>, done: set<Name>,
                                      nodes: Nodes, all: set<Name>)
    requires Sorted(filled, order, tokens, done) && all == done + ToSet(tokens)
    requires AllSettled(deposit, issued, filled, done, nodes, all)
    ensures forall n :: n in order && n != DUMMY ==>
              n in nodes && Settled(deposit, issued, nodes, n, DrainedBy(filled, done, n))
  {
    hide Settled, DrainedBy;
  }

  // ----- the dummy at the end -----

  ghost predicate DummyFilled(nodes: Nodes, nodes': Nodes) {
    && DUMMY in nodes
    && (|| (nodes[DUMMY].outputs == [] && nodes' == nodes - {DUMMY})
        || (&& DUMMY in nodes' && Cleared(nodes', DUMMY) && Grown(nodes, nodes')
            && nodes' == nodes[DUMMY := nodes[DUMMY].(outputs := nodes'[DUMMY].outputs)]))
  }

  /** All but blocks, genesis and the dummy depend on the dummy, if there is one; nothing else changes. */
  ghost predicate DepsAdded(nodes: Nodes, nodes': Nodes) {
    && nodes'.Keys == nodes.Keys
    && forall n :: n in nodes ==>
         nodes'[n] == nodes[n].(deps := nodes[n].deps +
                                          if DUMMY in nodes && n != DUMMY && nodes[n].kind !in {Block, Genesis} then {DUMMY} else {})
  }

  ghost predicate Finished(nodes: Nodes, nodes': Nodes) {
    exists cleared :: DummyFilled(nodes, cleared) && DepsAdded(cleared, nodes')
  }

  /** Nothing finished refers to an unused dummy. */
  lemma {:induction false} DummyRemoved(deposit: int -> int, issued: int, nodes: Nodes, n: Name, drained: bool)
    requires DUMMY in nodes && nodes[DUMMY].outputs == [] && n in nodes && n != DUMMY && Settled(deposit, issued, nodes, n, drained)
    ensures Settled(deposit, issued, nodes - {DUMMY}, n, drained)
  {
    hide Received, Spent;
    var nodes' := nodes - {DUMMY};
    assert forall i :: Slot(nodes', i) == Slot(nodes, i);
    forall t
      ensures Net(nodes', n, t) == Net(nodes, n, t)
    {
      SpentSame(nodes, nodes', nodes[n].inputs, t);
    }
  }

  lemma {:induction false} DepsMoveNothing(nodes: Nodes, nodes': Nodes)
    requires DepsAdded(nodes, nodes')
    ensures Grown(nodes, nodes') && forall n :: n in nodes ==> SameMoves(nodes[n], nodes'[n])
  {
  }

  /** What the description says about a node of the result. */
  lemma {:induction false} FinishedNode(deposit: int -> int, issued: int, before: Nodes, filled: Nodes, done: set<Name>, completed: Nodes,
                                        nodes: Nodes, n: Name)
    requires PreparedFrom(before, filled) && Grown(filled, completed) && Finished(completed, nodes) && n in nodes
    requires forall m :: m in completed && m !in filled ==> completed[m].kind == Unknown
    requires forall m :: m in filled && m != DUMMY ==>
               m in completed && Settled(deposit, issued, completed, m, DrainedBy(filled, done, m))
    requires forall m :: m in filled && m != DUMMY && filled[m].kind != Token ==> m in done
    ensures NodeDone(deposit, issued, nodes, n) <==> !Drained(before, n)
  {
    hide Settled, NodeDone, DrainedBy, Extends, Cleared, Drains, GapsFilled, SameMoves, DummyFilled, DepsAdded;
    var cleared :| DummyFilled(completed, cleared) && DepsAdded(cleared, nodes);
    ClearedFacts(completed, cleared, nodes, n);
    if n == DUMMY {
      ClearedDone(deposit, issued, completed, cleared, nodes);
    } else if n in filled {
      DrainedAgrees(before, filled, done, n);
      SettledCleared(deposit, issued, completed, cleared, nodes, n, DrainedBy(filled, done, n));
      SettledIsDone(deposit, issued, nodes, n, DrainedBy(filled, done, n));
    } else {
      UnknownIsDone(deposit, issued, nodes, n);
    }
  }

  lemma {:induction false} ClearedFacts(completed: Nodes, cleared: Nodes, nodes: Nodes, n: Name)
    requires DummyFilled(completed, cleared) && DepsAdded(cleared, nodes) && n in nodes
    ensures n in completed && nodes[n].kind == completed[n].kind
  {
    hide Cleared, Extends;
  }

  lemma {:induction false} UnknownIsDone(deposit: int -> int, issued: int, nodes: Nodes, n: Name)
    requires n in nodes && n != DUMMY && nodes[n].kind == Unknown
    ensures NodeDone(deposit, issued, nodes, n)
  {
  }

  lemma {:induction false} ClearedDone(deposit: int -> int, issued: int, completed: Nodes, cleared: Nodes, nodes: Nodes)
    requires DummyFilled(completed, cleared) && DepsAdded(cleared, nodes) && DUMMY in nodes
    ensures NodeDone(deposit, issued, nodes, DUMMY)
  {
    hide Resolved, Net, Extends;
    DepsMoveNothing(cleared, nodes);
    SettledKept(deposit, issued, cleared, nodes, DUMMY, false);
  }

  lemma {:induction false} SettledCleared(deposit: int -> int, issued: int, completed: Nodes, cleared: Nodes, nodes: Nodes, n: Name,
                                          drained: bool)
    requires DummyFilled(completed, cleared) && DepsAdded(cleared, nodes) && n in nodes && n != DUMMY && n in completed
    requires Settled(deposit, issued, completed, n, drained)
    ensures Settled(deposit, issued, nodes, n, drained)
  {
    hide Settled, Cleared, Extends;
    DepsMoveNothing(cleared, nodes);
    if DUMMY in cleared {
      SettledKept(deposit, issued, completed, cleared, n, drained);
    } else {
      DummyRemoved(deposit, issued, completed, n, drained);
    }
    SettledKept(deposit, issued, cleared, nodes, n, drained);
  }

  /** Who is drained is the same in the description and in the run. */
  lemma {:induction false} DrainedAgrees(before: Nodes, filled: Nodes, done: set<Name>, n: Name)
    requires PreparedFrom(before, filled) && n in filled && n != DUMMY
    requires forall m :: m in filled && m != DUMMY && filled[m].kind != Token ==> m in done
    ensures filled[n].kind == OnChainBlueprint <==> before[n].kind == OnChainBlueprint
    ensures filled[n].kind == OnChainBlueprint ==> (Drained(before, n) <==> DrainedBy(filled, done, n))
  {
    hide Short, GapsFilled;
    assert NodeFilled(before[n := Known(before[n])], n, filled[n]);
    forall m
      ensures Drains(filled, m, n) <==> Drains(before, m, n)
      ensures Drains(filled, m, n) ==> m in done
    {
      PreparedDrains(before, filled, m, n);
    }
  }

  // ----- what the description says stays -----

  /** Known kinds, balances, inputs and set outputs. */
  ghost predicate Preserves(nodes: Nodes, nodes': Nodes) {
    forall n :: n in nodes && (n in nodes' || n != DUMMY) ==>
      && n in nodes'
      && nodes'[n].kind == (if nodes[n].kind == Unknown then Transaction else nodes[n].kind)
      && nodes'[n].balances == nodes[n].balances
      && nodes[n].inputs <= nodes'[n].inputs
      && KeepsSet(nodes[n].outputs, nodes'[n].outputs)
  }

  /** One output for what is missing, and none if nothing is. */
  ghost predicate Issued(missing: int, a: Node, b: Node) {
    if missing == 0 then b.outputs == a.outputs
    else |b.outputs| == |a.outputs| + 1 && a.outputs <= b.outputs && b.outputs[|a.outputs|] == Some(Output(missing, HTR, ["f7"]))
  }

  predicate OneHtr(outputs: seq<Option<Output>>, k: int) {
    0 <= k < |outputs| && outputs[k].Some? && outputs[k].value.amount == 1 && outputs[k].value.token == HTR
  }

  /** Every output that is left open gets one HTR, and a node that moves nothing gets one output of it. */
  ghost predicate GapsGiven(a: Node, b: Node) {
    && (forall k :: 0 <= k < |a.outputs| && (a.outputs[k].None? || a.outputs[k].value.amount == 0) ==> OneHtr(b.outputs, k))
    && (a.inputs == {} && a.outputs == [] ==> OneHtr(b.outputs, 0))
  }

  /** What is added to a node: parents, the dummy as a dependency, and outputs for what is left open. */
  ghost predicate CompletedFrom(nodes: Nodes, nodes': Nodes) {
    forall n :: n in nodes && n != DUMMY ==>
      && n in nodes' && ParentsFilled(nodes[n], nodes'[n])
      && (nodes'[n].deps == nodes[n].deps + if DUMMY in nodes' && nodes[n].kind !in {Block, Genesis} then {DUMMY} else {})
      && (nodes[n].kind != Genesis && !(nodes[n].kind == Block && nodes[n].inputs == {} && nodes[n].outputs == []) ==>
            GapsGiven(nodes[n], nodes'[n]))
  }

  lemma {:induction false} GapsAreGiven(before: Nodes, filled: Nodes, n: Name, outputs: seq<Option<Output>>, node: Node)
    requires n in before && n in filled && NodeFilled(before[n := Known(before[n])], n, filled[n]) && n != DUMMY
    requires before[n].kind != Genesis && !(before[n].kind == Block && before[n].inputs == {} && before[n].outputs == [])
    requires Extends(filled[n].outputs, node.outputs)
    ensures GapsGiven(before[n], node)
  {
    var gaps := Gaps(Known(before[n]));
    assert GapsFilled(gaps, filled[n].outputs);
    forall k | 0 <= k < |gaps|
      ensures node.outputs[k] == GapFilled(gaps[k])
    {
    }
  }

  lemma {:induction false} CompletedRun(before: Nodes, filled: Nodes, completed: Nodes, nodes: Nodes)
    requires PreparedFrom(before, filled) && Grown(filled, completed) && Finished(completed, nodes)
    requires ParentsUpTo(filled, completed, filled.Keys)
    ensures CompletedFrom(before, nodes)
  {
    hide NodeFilled, Grown, DummyFilled, DepsAdded, GapsGiven, ParentsUpTo, Extends;
    var cleared :| DummyFilled(completed, cleared) && DepsAdded(cleared, nodes);
    forall n | n in before && n != DUMMY
      ensures n in nodes && ParentsFilled(before[n], nodes[n])
      ensures nodes[n].deps == before[n].deps + if DUMMY in nodes && before[n].kind !in {Block, Genesis} then {DUMMY} else {}
      ensures before[n].kind != Genesis && !(before[n].kind == Block && before[n].inputs == {} && before[n].outputs == []) ==>
                GapsGiven(before[n], nodes[n])
    {
      GrownAt(filled, completed, n);
      KeepsFilled(before, filled, n);
      LinksAt(filled, completed, n);
      ClearedLinks(completed, cleared, nodes, n);
      if before[n].kind != Genesis && !(before[n].kind == Block && before[n].inputs == {} && before[n].outputs == []) {
        GapsAreGiven(before, filled, n, nodes[n].outputs, nodes[n]);
      }
    }
  }

  lemma {:induction false} LinksAt(filled: Nodes, nodes: Nodes, n: Name)
    requires ParentsUpTo(filled, nodes, filled.Keys) && n in filled && n != DUMMY
    ensures n in nodes && ParentsFilled(filled[n], nodes[n]) && nodes[n].deps == filled[n].deps
  {
  }

  lemma {:induction false} ClearedLinks(completed: Nodes, cleared: Nodes, nodes: Nodes, n: Name)
    requires DummyFilled(completed, cleared) && DepsAdded(cleared, nodes) && n in completed && n != DUMMY
    ensures n in nodes && nodes[n].parents == completed[n].parents && nodes[n].outputs == completed[n].outputs
    ensures nodes[n].deps == completed[n].deps + if DUMMY in nodes && completed[n].kind !in {Block, Genesis} then {DUMMY} else {}
  {
    hide Cleared, Grown;
  }

  lemma {:induction false} PreservesRun(before: Nodes, filled: Nodes, completed: Nodes, nodes: Nodes)
    requires PreparedFrom(before, filled) && Grown(filled, completed) && Finished(completed, nodes)
    ensures Preserves(before, nodes)
  {
    hide KeepsSet, NodeFilled, Grown, DummyFilled, DepsAdded;
    var cleared :| DummyFilled(completed, cleared) && DepsAdded(cleared, nodes);
    forall n | n in before && (n in nodes || n != DUMMY)
      ensures n in nodes && GrownNode(filled[n], nodes[n]) && KeepsSet(before[n].outputs, nodes[n].outputs)
      ensures filled[n] == Known(before[n]).(outputs := filled[n].outputs)
    {
      GrownAt(filled, completed, n);
      ClearedNode(completed, cleared, nodes, n);
      KeepsFilled(before, filled, n);
      KeepsGrown(before[n].outputs, filled[n].outputs, nodes[n].outputs);
    }
  }

  /** Kind and balances are the same, and nothing that is spent or set changed. */
  ghost predicate GrownNode(a: Node, b: Node) {
    b.kind == a.kind && b.balances == a.balances && a.inputs <= b.inputs && Extends(a.outputs, b.outputs)
  }

  lemma {:induction false} GrownAt(nodes: Nodes, nodes': Nodes, n: Name)
    requires Grown(nodes, nodes') && n in nodes
    ensures n in nodes' && GrownNode(nodes[n], nodes'[n])
  {
    hide Extends;
  }

  lemma {:induction false} ClearedNode(completed: Nodes, cleared: Nodes, nodes: Nodes, n: Name)
    requires DummyFilled(completed, cleared) && DepsAdded(cleared, nodes) && n in completed && (n in nodes || n != DUMMY)
    ensures n in nodes && GrownNode(completed[n], nodes[n])
  {
    hide Cleared, Grown;
    if n == DUMMY {
      GrownAt(completed, cleared, n);
    }
  }

  lemma {:induction false} KeepsFilled(before: Nodes, filled: Nodes, n: Name)
    requires n in before && n in filled && NodeFilled(before[n := Known(before[n])], n, filled[n])
    ensures KeepsSet(before[n].outputs, filled[n].outputs) && filled[n] == Known(before[n]).(outputs := filled[n].outputs)
  {
  }

  lemma {:induction false} KeepsGrown(a: seq<Option<Output>>, b: seq<Option<Output>>, c: seq<Option<Output>>)
    requires KeepsSet(a, b) && Extends(b, c)
    ensures KeepsSet(a, c)
  {
  }
}
