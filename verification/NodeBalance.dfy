/** Balancing one node: what it takes from others, and when it then moves what it should. */
module NodeBalance {
  import opened Wrappers
  import opened DagNodes
  import opened Balances
  import opened DagBuilder

  /** Where an input for a token comes from. */
  function Home(t: Name): Name {
    if t == HTR then DUMMY else t
  }

  /** The node gives out more of the token than it takes in. */
  ghost predicate Short(nodes: Nodes, n: Name, t: Name)
    requires n in nodes
  {
    Net(nodes, n, t) > Target(nodes[n], t)
  }

  /** Balancing `n` takes an output of `m`. */
  ghost predicate Touched(nodes: Nodes, n: Name, m: Name)
    requires n in nodes
  {
    (m != HTR && Short(nodes, n, m)) || (m == DUMMY && Short(nodes, n, HTR))
  }

  /** Where the node stands while the tokens of `left` are still to be looked at. A token of its own
      name cannot be supplied. */
  ghost function Expected(nodes: Nodes, n: Name, left: set<Name>, t: Name): int
    requires n in nodes
  {
    if t in left || (t == n && t != HTR && Short(nodes, n, t)) then Net(nodes, n, t) else Target(nodes[n], t)
  }

  /** What balancing `n` makes `h` give out: of its own token, what `n` is short of. */
  ghost function Supply(nodes: Nodes, n: Name, h: Name, t: Name): int
    requires n in nodes
  {
    if t == h && h != HTR && Short(nodes, n, h) then Net(nodes, n, h) - Target(nodes[n], h) else 0
  }

  /** Another node has got the outputs that `n` needs of it, and nothing else has changed. */
  ghost predicate OtherNode(nodes0: Nodes, nodes: Nodes, n: Name, left: set<Name>, h: Name)
    requires n in nodes0 && h in nodes0
  {
    && h in nodes && nodes[h] == nodes0[h].(outputs := nodes[h].outputs)
    && (!Touched(nodes0, n, h) ==> nodes[h] == nodes0[h])
    && (AllSet(nodes0[h].outputs) ==> AllSet(nodes[h].outputs))
    && (forall t :: Received(nodes[h].outputs, t) ==
                    Received(nodes0[h].outputs, t) + if h in left then 0 else Supply(nodes0, n, h, t))
    && OutputTokens(nodes[h].outputs) ==
       OutputTokens(nodes0[h].outputs) + if h in left || h == HTR || !Short(nodes0, n, h) then {} else {h}
  }

  ghost predicate Others(nodes0: Nodes, nodes: Nodes, n: Name, left: set<Name>)
    requires n in nodes0
  {
    forall h :: h in nodes0 && h != n && h != DUMMY ==> OtherNode(nodes0, nodes, n, left, h)
  }

  ghost predicate Balancing(nodes0: Nodes, nodes: Nodes, n: Name, left: set<Name>) {
    && n in nodes0 && DUMMY in nodes0
    && Grown(nodes0, nodes)
    && (n != DUMMY ==> Resolved(nodes, n) && forall t :: Net(nodes, n, t) == Expected(nodes0, n, left, t))
    && (n != DUMMY && !Touched(nodes0, n, DUMMY) ==> nodes[DUMMY] == nodes0[DUMMY])
    && Others(nodes0, nodes, n, left)
    && (Typed(nodes0) ==> Typed(nodes) && nodes.Keys == nodes0.Keys)
  }

  /** `b` is `a` with outputs for `amount` of the token more. */
  ghost predicate Given(a: seq<Option<Output>>, b: seq<Option<Output>>, token: Name, amount: int) {
    && (amount == 0 ==> b == a) && (amount != 0 ==> b != [])
    && (AllSet(a) ==> AllSet(b))
    && (forall t :: Received(b, t) == Received(a, t) + if t == token then amount else 0)
    && OutputTokens(b) == OutputTokens(a) + if amount == 0 then {} else {token}
  }

  /** The dummy gives out `amount` of HTR more, for which it spends the genesis block. */
  ghost predicate DummyGives(nodes: Nodes, nodes': Nodes, amount: int) {
    && DUMMY in nodes && DUMMY in nodes' && Given(nodes[DUMMY].outputs, nodes'[DUMMY].outputs, HTR, amount)
    && nodes'[DUMMY].inputs == nodes[DUMMY].inputs + if amount == 0 then {} else {Input(GENESIS_BLOCK, 0)}
  }

  /** What a token node is short of in HTR, with the deposit for what it mints. */
  ghost function TokenLack(deposit: int -> int, nodes: Nodes, n: Name): nat
    requires n in nodes
  {
    var lack := Net(nodes, n, HTR) - Target(nodes[n], HTR) + deposit(Net(nodes, n, n));
    if lack > 0 then lack else 0
  }

  /** What the node is short of. */
  ghost function Lack(nodes: Nodes, n: Name, t: Name): nat
    requires n in nodes
  {
    if Short(nodes, n, t) then Net(nodes, n, t) - Target(nodes[n], t) else 0
  }

  lemma {:induction false} GivenNothing(a: seq<Option<Output>>, token: Name)
    ensures Given(a, a, token, 0)
  {
  }

  lemma {:induction false} GivenPlaced(a: seq<Option<Output>>, index: nat, o: Output, b: seq<Option<Output>>)
    requires Placed(a, index, o, b) && o.amount != 0
    ensures Given(a, b, o.token, o.amount)
  {
    hide Received;
    TokensPlaced(a, index, o, b);
    forall t
      ensures Received(b, t) == Received(a, t) + if t == o.token then o.amount else 0
    {
      ReceivedPlaced(a, index, o, b, t);
    }
  }

  lemma {:induction false} TokensPlaced(a: seq<Option<Output>>, index: nat, o: Output, b: seq<Option<Output>>)
    requires Placed(a, index, o, b)
    ensures OutputTokens(b) == OutputTokens(a) + {o.token}
  {
    forall t | t in OutputTokens(a) + {o.token}
      ensures t in OutputTokens(b)
    {
      if t == o.token {
        assert b[index] == Some(o);
      } else {
        var k :| 0 <= k < |a| && a[k].Some? && a[k].value.token == t;
        assert b[k] == a[k];
      }
    }
  }

  lemma {:induction false} DummyGivesNothing(nodes: Nodes, nodes': Nodes)
    requires DUMMY in nodes && DUMMY in nodes' && nodes'[DUMMY].inputs == nodes[DUMMY].inputs
    requires nodes'[DUMMY].outputs == nodes[DUMMY].outputs
    ensures DummyGives(nodes, nodes', 0)
  {
    GivenNothing(nodes[DUMMY].outputs, HTR);
  }

  lemma {:induction false} DummyStays(a: Nodes, b: Nodes, c: Nodes, amount: int)
    requires DummyGives(a, b, amount) && DUMMY in c && c[DUMMY] == b[DUMMY]
    ensures DummyGives(a, c, amount)
  {
  }

  lemma {:induction false} DummyFirst(a: Nodes, b: Nodes, c: Nodes, d: Nodes, amount: int)
    requires DummyGives(a, b, 0) && DummyGives(b, c, amount) && DUMMY in d && d[DUMMY] == c[DUMMY]
    ensures DummyGives(a, d, amount)
  {
  }

  /** A slot that was free or new now holds `amount` of `token`, and only its node has changed. */
  ghost predicate Taken(nodes: Nodes, amount: int, token: Name, i: Input, nodes': Nodes) {
    && i.node == Home(token) && Slot(nodes, i).None?
    && Slot(nodes', i).Some? && Slot(nodes', i).value.amount == amount && Slot(nodes', i).value.token == token
    && Grown(nodes, nodes')
    && nodes'.Keys == nodes.Keys + {Home(token)}
    && (forall m :: m in nodes && m != Home(token) ==> nodes'[m] == nodes[m])
    && (Typed(nodes) && TokenName(nodes, token) ==> Typed(nodes'))
  }

  // ----- what a node comes to refer to -----

  const GENESIS_NAMES: set<Name> := {GENESIS_BLOCK, GENESIS_1, GENESIS_2}

  /** Parents and inputs of `n` were only added, from `parents` and from `homes`; its dependencies are the same. */
  ghost predicate Refers(a: Node, b: Node, parents: set<Name>, homes: iset<Name>) {
    && b.deps == a.deps
    && a.parents <= b.parents <= a.parents + parents
    && a.inputs <= b.inputs && forall i :: i in b.inputs && i !in a.inputs ==> i.node in homes
  }

  /** Where balancing may take inputs from. */
  ghost function Homes(nodes: Nodes, n: Name): iset<Name>
    requires n in nodes
  {
    iset h | h == DUMMY || (h != HTR && Short(nodes, n, h))
  }

  /** Only `n` and the dummy refer to more, the dummy to genesis. */
  ghost predicate Wired(nodes: Nodes, nodes': Nodes, n: Name, parents: set<Name>, homes: iset<Name>) {
    && (forall m :: m in nodes && m != n && m != DUMMY ==> m in nodes' && Refers(nodes[m], nodes'[m], {}, iset{}))
    && (DUMMY in nodes && n != DUMMY ==> DUMMY in nodes' && Refers(nodes[DUMMY], nodes'[DUMMY], GENESIS_NAMES, iset{GENESIS_BLOCK}))
    && (n in nodes && n != DUMMY ==> n in nodes' && Refers(nodes[n], nodes'[n], parents, homes))
  }

  lemma {:induction false} WiredSelf(nodes: Nodes, n: Name, parents: set<Name>, homes: iset<Name>)
    ensures Wired(nodes, nodes, n, parents, homes)
  {
  }

  lemma {:induction false} WiredTransitive(a: Nodes, b: Nodes, c: Nodes, n: Name, parents: set<Name>, homes: iset<Name>)
    requires Wired(a, b, n, parents, homes) && Wired(b, c, n, parents, homes)
    ensures Wired(a, c, n, parents, homes)
  {
  }

  lemma {:induction false} WiredInput(nodes: Nodes, n: Name, i: Input, nodes': Nodes, parents: set<Name>, homes: iset<Name>)
    requires n in nodes && i.node in homes && nodes' == nodes[n := nodes[n].(inputs := nodes[n].inputs + {i})]
    ensures Wired(nodes, nodes', n, parents, homes)
  {
  }

  lemma {:induction false} WiredOutputs(nodes: Nodes, h: Name, nodes': Nodes, n: Name, parents: set<Name>, homes: iset<Name>)
    requires h in nodes && h in nodes' && nodes' == nodes[h := nodes[h].(outputs := nodes'[h].outputs)]
    ensures Wired(nodes, nodes', n, parents, homes)
  {
  }

  lemma {:induction false} WiredDummy(nodes: Nodes, nodes': Nodes, n: Name, parents: set<Name>, homes: iset<Name>)
    requires n != DUMMY && DUMMY in nodes && DUMMY in nodes' && Refers(nodes[DUMMY], nodes'[DUMMY], GENESIS_NAMES, iset{GENESIS_BLOCK})
    requires forall m :: m in nodes && m != DUMMY ==> m in nodes' && nodes'[m] == nodes[m]
    ensures Wired(nodes, nodes', n, parents, homes)
  {
  }

  lemma {:induction false} WiredToken(nodes: Nodes, nodes': Nodes, token: Name, n: Name, parents: set<Name>, homes: iset<Name>)
    requires forall m :: m in nodes && m != token ==> m in nodes' && nodes'[m] == nodes[m]
    requires token in nodes ==> token in nodes' && nodes'[token] == nodes[token].(outputs := nodes'[token].outputs)
    ensures Wired(nodes, nodes', n, parents, homes)
  {
  }

  lemma {:induction false} TakenFromDummy(nodes: Nodes, amount: int, index: nat, nodes': Nodes)
    requires DUMMY in nodes && DUMMY in nodes' && nodes' == nodes[DUMMY := nodes'[DUMMY]]
    requires nodes'[DUMMY] == nodes[DUMMY].(inputs := nodes[DUMMY].inputs + {Input(GENESIS_BLOCK, 0)},
                                            parents := nodes'[DUMMY].parents, outputs := nodes'[DUMMY].outputs)
    requires Placed(nodes[DUMMY].outputs, index, Output(amount, HTR, ["f1"]), nodes'[DUMMY].outputs)
    ensures Taken(nodes, amount, HTR, Input(DUMMY, index), nodes')
  {
    hide AlmostTyped;
    if Typed(nodes) {
      TypedPlaced(nodes, DUMMY, index, Output(amount, HTR, ["f1"]), nodes'[DUMMY]);
    }
  }

  lemma {:induction false} HomeOf(nodes: Nodes, amount: int, token: Name, i: Input, nodes': Nodes)
    requires Taken(nodes, amount, token, i, nodes')
    ensures i.node == Home(token)
  {
  }

  lemma {:induction false} TypedPlaced(nodes: Nodes, n: Name, index: nat, o: Output, node: Node)
    requires Typed(nodes) && n in nodes && TokenName(nodes, o.token) && Placed(nodes[n].outputs, index, o, node.outputs)
    requires node.kind == nodes[n].kind && node.balances == nodes[n].balances
    ensures Typed(nodes[n := node])
  {
    hide AlmostTyped, TokenName;
    TypedAt(nodes, n);
    NodeChanged(nodes, HTR, n, node);
  }

  lemma {:induction false} TypedSpending(nodes: Nodes, n: Name, node: Node)
    requires Typed(nodes) && n in nodes && node.outputs == nodes[n].outputs
    requires node.kind == nodes[n].kind && node.balances == nodes[n].balances
    ensures Typed(nodes[n := node])
  {
    hide AlmostTyped, TypedNode;
    NodeChanged(nodes, HTR, n, node);
  }

  lemma {:induction false} TokenNameKept(nodes: Nodes, nodes': Nodes, t: Name)
    requires Grown(nodes, nodes') && TokenName(nodes, t)
    ensures TokenName(nodes', t)
  {
  }

  lemma {:induction false} TakenGrows(nodes: Nodes, amount: int, token: Name, i: Input, nodes': Nodes)
    requires Taken(nodes, amount, token, i, nodes')
    ensures Grown(nodes, nodes') && nodes.Keys <= nodes'.Keys && nodes'.Keys == nodes.Keys + {Home(token)}
    ensures forall m :: m in nodes && m != Home(token) ==> nodes'[m] == nodes[m]
    ensures Typed(nodes) && TokenName(nodes, token) ==> Typed(nodes')
  {
    hide AlmostTyped, TokenName, Slot, Extends;
  }

  // ----- the steps of balancing -----

  lemma {:induction false} NotShortOfDummy(nodes: Nodes, n: Name)
    requires Typed(nodes) && n in nodes
    ensures !Short(nodes, n, DUMMY)
  {
    hide Net, AlmostTyped;
    assert DUMMY != HTR by { assert |DUMMY.text| == 5 && |HTR.text| == 3; }
    if Short(nodes, n, DUMMY) {
      MovedIsTyped(nodes, n, DUMMY);
    }
  }

  lemma {:induction false} BalancingStart(nodes: Nodes, n: Name, left: set<Name>)
    requires n in nodes && DUMMY in nodes && Resolved(nodes, n)
    requires nodes[n].balances.Keys <= left && forall t :: t !in left ==> Net(nodes, n, t) == 0
    ensures Balancing(nodes, nodes, n, left)
  {
    hide Net, Resolved, AlmostTyped, Received, OutputTokens;
  }

  lemma {:induction false} BalancingNode(nodes0: Nodes, nodes: Nodes, n: Name, left: set<Name>)
    requires Balancing(nodes0, nodes, n, left)
    ensures n in nodes0 && n in nodes && DUMMY in nodes && nodes[n].balances == nodes0[n].balances
    ensures n != DUMMY ==> Resolved(nodes, n)
  {
    hide Others, Net, Resolved;
  }

  /** A token that is not short leaves the other nodes as they are. */
  lemma {:induction false} OthersSkip(nodes0: Nodes, nodes: Nodes, n: Name, left: set<Name>, t: Name, nodes': Nodes)
    requires n in nodes0 && Others(nodes0, nodes, n, left)
    requires Home(t) == DUMMY || Home(t) == n || !Short(nodes0, n, t)
    requires forall h :: h in nodes0 && h != n && h != DUMMY ==> h in nodes && h in nodes' && nodes'[h] == nodes[h]
    ensures Others(nodes0, nodes', n, left - {t})
  {
    hide Received, Net, Target, Touched, OutputTokens;
    forall h | h in nodes0 && h != n && h != DUMMY
      ensures OtherNode(nodes0, nodes', n, left - {t}, h)
    {
      assert OtherNode(nodes0, nodes, n, left, h);
    }
  }

  /** A token that is short is supplied by its own node. */
  lemma {:induction false} OthersSupply(nodes0: Nodes, nodes: Nodes, n: Name, left: set<Name>, t: Name, index: nat,
                                        o: Output, nodes': Nodes)
    requires n in nodes0 && Others(nodes0, nodes, n, left) && t in left
    requires t != HTR && t != n && t != DUMMY && Short(nodes0, n, t)
    requires o.token == t && o.amount == Net(nodes0, n, t) - Target(nodes0[n], t)
    requires forall h :: h in nodes0 && h != n && h != DUMMY && h != t ==> h in nodes && h in nodes' && nodes'[h] == nodes[h]
    requires t in nodes0 ==>
               && t in nodes && t in nodes' && Placed(nodes[t].outputs, index, o, nodes'[t].outputs)
               && nodes'[t] == nodes[t].(outputs := nodes'[t].outputs)
    ensures Others(nodes0, nodes', n, left - {t})
  {
    hide Received, Net, Target, Placed, AllSet, OutputTokens;
    forall h | h in nodes0 && h != n && h != DUMMY
      ensures OtherNode(nodes0, nodes', n, left - {t}, h)
    {
      assert OtherNode(nodes0, nodes, n, left, h);
      if h == t {
        TokensPlaced(nodes[t].outputs, index, o, nodes'[t].outputs);
        if AllSet(nodes[t].outputs) {
          PlacedAllSet(nodes[t].outputs, index, o, nodes'[t].outputs);
        }
        forall x
          ensures Received(nodes'[t].outputs, x) == Received(nodes0[t].outputs, x) + Supply(nodes0, n, t, x)
        {
          ReceivedPlaced(nodes[t].outputs, index, o, nodes'[t].outputs, x);
        }
      }
    }
  }

  lemma {:induction false} PlacedAllSet(a: seq<Option<Output>>, index: nat, o: Output, b: seq<Option<Output>>)
    requires Placed(a, index, o, b) && AllSet(a)
    ensures AllSet(b)
  {
  }

  lemma {:induction false} EvenStep(nodes0: Nodes, nodes: Nodes, n: Name, left: set<Name>, t: Name)
    requires Balancing(nodes0, nodes, n, left) && Net(nodes0, n, t) == Target(nodes0[n], t)
    ensures Balancing(nodes0, nodes, n, left - {t})
  {
    hide Net, Resolved, AlmostTyped, Touched, Extends, Others;
    BalancingNode(nodes0, nodes, n, left);
    OthersSkip(nodes0, nodes, n, left, t, nodes);
  }

  lemma {:induction false} PlacedGrows(nodes: Nodes, n: Name, index: nat, o: Output, nodes': Nodes)
    requires n in nodes && n in nodes' && Placed(nodes[n].outputs, index, o, nodes'[n].outputs)
    requires nodes' == nodes[n := nodes[n].(outputs := nodes'[n].outputs)]
    ensures Grown(nodes, nodes')
  {
  }

  /** The node takes in more than it gives out: it gets an output for the rest. */
  lemma {:induction false} SurplusStep(nodes0: Nodes, nodes: Nodes, n: Name, left: set<Name>, t: Name, index: nat,
                                       o: Output, nodes': Nodes)
    requires Balancing(nodes0, nodes, n, left) && t in left
    requires o.token == t && o.amount == Target(nodes0[n], t) - Net(nodes0, n, t) > 0
    requires n in nodes' && Placed(nodes[n].outputs, index, o, nodes'[n].outputs)
    requires nodes' == nodes[n := nodes[n].(outputs := nodes'[n].outputs)]
    ensures Balancing(nodes0, nodes', n, left - {t})
  {
    hide Net, Resolved, AlmostTyped, Placed, Extends, Others, Touched;
    BalancingNode(nodes0, nodes, n, left);
    PlacedGrows(nodes, n, index, o, nodes');
    if n != DUMMY {
      NetPlaced(nodes, n, index, o, nodes'[n].outputs, nodes');
    }
    OthersSkip(nodes0, nodes, n, left, t, nodes');
    GrownTransitive(nodes0, nodes, nodes');
    if Typed(nodes0) {
      MovedIsTyped(nodes0, n, t);
      TokenNameKept(nodes0, nodes, t);
      TypedPlaced(nodes, n, index, o, nodes'[n]);
    }
  }

  /** The node gives out more than it takes in: it gets an input for the rest. */
  lemma {:induction false} ShortStep(nodes0: Nodes, nodes: Nodes, n: Name, left: set<Name>, t: Name, i: Input,
                                     o: Output, nodes1: Nodes, nodes': Nodes)
    requires Balancing(nodes0, nodes, n, left) && t in left && n != Home(t)
    requires o.token == t && o.amount == Net(nodes0, n, t) - Target(nodes0[n], t)
    requires Short(nodes0, n, t) && Taken(nodes, o.amount, t, i, nodes1)
    requires t != HTR && t in nodes ==>
               && t in nodes1 && Placed(nodes[t].outputs, i.index, o, nodes1[t].outputs)
               && nodes1[t] == nodes[t].(outputs := nodes1[t].outputs)
    requires n in nodes1 && nodes' == nodes1[n := nodes1[n].(inputs := nodes1[n].inputs + {i})]
    ensures Balancing(nodes0, nodes', n, left - {t})
  {
    hide Net, Resolved, AlmostTyped, Extends, Slot, Others, Taken, Placed;
    BalancingNode(nodes0, nodes, n, left);
    TakenGrows(nodes, o.amount, t, i, nodes1);
    InputGrows(nodes1, n, i, nodes');
    if n != DUMMY {
      TakenFacts(nodes, o.amount, t, i, nodes1, n);
      Undisturbed(nodes, nodes1, n);
      NetSpending(nodes1, n, i, nodes');
    }
    if Home(t) == DUMMY {
      OthersSkip(nodes0, nodes, n, left, t, nodes');
    } else {
      OthersSupply(nodes0, nodes, n, left, t, i.index, o, nodes');
    }
    GrownTransitive(nodes0, nodes, nodes1);
    GrownTransitive(nodes0, nodes1, nodes');
    if Typed(nodes0) {
      MovedIsTyped(nodes0, n, t);
      TokenNameKept(nodes0, nodes, t);
      TypedSpending(nodes1, n, nodes'[n]);
    }
  }

  /** The supply of a token to its own node changes nothing. */
  lemma {:induction false} OwnStep(nodes0: Nodes, nodes: Nodes, n: Name, left: set<Name>, i: Input, o: Output,
                                   nodes1: Nodes, nodes': Nodes)
    requires Balancing(nodes0, nodes, n, left) && n in left && n != HTR && n != DUMMY && o.token == n
    requires Short(nodes0, n, n) && Taken(nodes, o.amount, n, i, nodes1)
    requires n in nodes1 && Placed(nodes[n].outputs, i.index, o, nodes1[n].outputs)
    requires nodes1 == nodes[n := nodes[n].(outputs := nodes1[n].outputs)]
    requires nodes' == nodes1[n := nodes1[n].(inputs := nodes1[n].inputs + {i})]
    ensures Balancing(nodes0, nodes', n, left - {n})
  {
    hide Net, AlmostTyped, Extends, Slot, Others, Placed;
    BalancingNode(nodes0, nodes, n, left);
    assert i !in nodes[n].inputs;
    NetPlaced(nodes, n, i.index, o, nodes1[n].outputs, nodes1);
    NetSpending(nodes1, n, i, nodes');
    OthersSkip(nodes0, nodes, n, left, n, nodes');
    GrownTransitive(nodes0, nodes, nodes1);
    GrownTransitive(nodes0, nodes1, nodes');
    if Typed(nodes0) {
      MovedIsTyped(nodes0, n, n);
      TokenNameKept(nodes0, nodes, n);
      TypedSpending(nodes1, n, nodes'[n]);
    }
  }

  /** The dummy supplies itself. */
  lemma {:induction false} DummyStep(nodes0: Nodes, nodes: Nodes, left: set<Name>, t: Name, amount: int, i: Input,
                                     nodes1: Nodes, nodes': Nodes)
    requires Balancing(nodes0, nodes, DUMMY, left) && Home(t) == DUMMY && t in left && Short(nodes0, DUMMY, t)
    requires Taken(nodes, amount, t, i, nodes1) && DUMMY in nodes1
    requires nodes' == nodes1[DUMMY := nodes1[DUMMY].(inputs := nodes1[DUMMY].inputs + {i})]
    ensures Balancing(nodes0, nodes', DUMMY, left - {t})
  {
    hide Net, Resolved, AlmostTyped, Extends, Slot, Others, Taken;
    BalancingNode(nodes0, nodes, DUMMY, left);
    TakenGrows(nodes, amount, t, i, nodes1);
    InputGrows(nodes1, DUMMY, i, nodes');
    OthersSkip(nodes0, nodes, DUMMY, left, t, nodes');
    GrownTransitive(nodes0, nodes, nodes1);
    GrownTransitive(nodes0, nodes1, nodes');
    if Typed(nodes0) {
      MovedIsTyped(nodes0, DUMMY, t);
      TokenNameKept(nodes0, nodes, t);
      TypedSpending(nodes1, DUMMY, nodes'[DUMMY]);
    }
  }

  // ----- all that is known while a node is balanced -----

  /** Who refers to what, and what the dummy gives; a node is never short of a token named like the dummy. */
  ghost predicate Tidy(nodes0: Nodes, nodes: Nodes, n: Name, left: set<Name>)
    requires n in nodes0
  {
    n != DUMMY ==>
      && Wired(nodes0, nodes, n, {}, Homes(nodes0, n))
      && (!Short(nodes0, n, DUMMY) ==> DummyGives(nodes0, nodes, if HTR in left then 0 else Lack(nodes0, n, HTR)))
  }

  lemma {:induction false} TidyStart(nodes: Nodes, n: Name, left: set<Name>)
    requires n in nodes && DUMMY in nodes && (HTR in left || Lack(nodes, n, HTR) == 0)
    ensures Tidy(nodes, nodes, n, left)
  {
    hide Wired, DummyGives, Net;
    WiredSelf(nodes, n, {}, Homes(nodes, n));
    DummyGivesNothing(nodes, nodes);
  }

  lemma {:induction false} TidyDone(nodes0: Nodes, nodes: Nodes, n: Name)
    requires n in nodes0 && n != DUMMY && Tidy(nodes0, nodes, n, {})
    ensures Wired(nodes0, nodes, n, {}, Homes(nodes0, n))
    ensures !Short(nodes0, n, DUMMY) ==> DummyGives(nodes0, nodes, Lack(nodes0, n, HTR))
  {
    hide Wired, DummyGives, Net;
  }

  /** A token of which the node is not short. */
  lemma {:induction false} TidySkip(nodes0: Nodes, nodes: Nodes, n: Name, left: set<Name>, t: Name, nodes': Nodes)
    requires n in nodes0 && Tidy(nodes0, nodes, n, left) && !Short(nodes0, n, t) && n in nodes && n in nodes' && DUMMY in nodes
    requires nodes' == nodes[n := nodes[n].(outputs := nodes'[n].outputs)]
    ensures Tidy(nodes0, nodes', n, left - {t})
  {
    hide Wired, DummyGives, Net;
    if n != DUMMY {
      WiredOutputs(nodes, n, nodes', n, {}, Homes(nodes0, n));
      WiredTransitive(nodes0, nodes, nodes', n, {}, Homes(nodes0, n));
      if !Short(nodes0, n, DUMMY) {
        DummyStays(nodes0, nodes, nodes', if HTR in left then 0 else Lack(nodes0, n, HTR));
      }
    }
  }

  /** A token of which it is. */
  lemma {:induction false} TidyShort(nodes0: Nodes, nodes: Nodes, n: Name, left: set<Name>, t: Name, i: Input, nodes1: Nodes, nodes': Nodes)
    requires n in nodes0 && Tidy(nodes0, nodes, n, left) && Short(nodes0, n, t) && t in left && n in nodes1 && DUMMY in nodes
    requires Taken(nodes, Lack(nodes0, n, t), t, i, nodes1)
    requires n != DUMMY ==> Wired(nodes, nodes1, n, {}, Homes(nodes0, n))
    requires t == HTR ==> DummyGives(nodes, nodes1, Lack(nodes0, n, HTR))
    requires nodes' == nodes1[n := nodes1[n].(inputs := nodes1[n].inputs + {i})]
    ensures Tidy(nodes0, nodes', n, left - {t})
  {
    hide Wired, DummyGives, Net, Taken;
    if n != DUMMY {
      TakenGrows(nodes, Lack(nodes0, n, t), t, i, nodes1);
      HomeOf(nodes, Lack(nodes0, n, t), t, i, nodes1);
      WiredInput(nodes1, n, i, nodes', {}, Homes(nodes0, n));
      WiredTransitive(nodes0, nodes, nodes1, n, {}, Homes(nodes0, n));
      WiredTransitive(nodes0, nodes1, nodes', n, {}, Homes(nodes0, n));
      if !Short(nodes0, n, DUMMY) {
        if t == HTR {
          DummyFirst(nodes0, nodes, nodes1, nodes', Lack(nodes0, n, HTR));
        } else {
          DummyStays(nodes0, nodes, nodes', if HTR in left then 0 else Lack(nodes0, n, HTR));
        }
      }
    }
  }

  lemma {:induction false} InputGrows(nodes: Nodes, n: Name, i: Input, nodes': Nodes)
    requires n in nodes && nodes' == nodes[n := nodes[n].(inputs := nodes[n].inputs + {i})]
    ensures Grown(nodes, nodes')
  {
  }

  lemma {:induction false} BalancingDone(nodes0: Nodes, nodes: Nodes, n: Name)
    requires Balancing(nodes0, nodes, n, {}) && n != DUMMY
    ensures n in nodes0 && n in nodes && (Balanced(nodes, n) <==> n == HTR || !Short(nodes0, n, n))
  {
    hide Net, Resolved, AlmostTyped, Touched, Others;
    if n != HTR && Short(nodes0, n, n) {
      assert Net(nodes, n, n) == Expected(nodes0, n, {}, n);
    }
  }

  /** What a taken input means for another node. */
  lemma {:induction false} TakenFacts(nodes: Nodes, amount: int, token: Name, i: Input, nodes': Nodes, n: Name)
    requires Taken(nodes, amount, token, i, nodes') && n in nodes && n != Home(token) && Resolved(nodes, n)
    ensures Grown(nodes, nodes') && nodes'.Keys == nodes.Keys + {Home(token)}
    ensures nodes'[n] == nodes[n] && i !in nodes[n].inputs
    ensures forall m :: m in nodes && m != Home(token) ==> nodes'[m] == nodes[m]
    ensures Slot(nodes', i).Some? && forall t :: Amount(Slot(nodes', i), t) == if t == token then amount else 0
    ensures Typed(nodes) && TokenName(nodes, token) ==> Typed(nodes')
  {
    hide AlmostTyped, TokenName, Extends;
  }
}
