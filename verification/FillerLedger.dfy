/** How much the filler takes from whom, and from that when it finishes and what becomes of the dummy. */
module FillerLedger {
  import opened Wrappers
  import opened Sequences
  import opened DagNodes
  import opened Balances
  import opened DagBuilder
  import opened NodeBalance
  import opened FillerProgress
  import opened FillerGraph
  import T = TopologicalSort

  // ----- what is taken in all -----

  ghost function Total(f: Name -> nat, s: set<Name>): nat {
    if s == {} then 0 else
      var x :| x in s;
      f(x) + Total(f, s - {x})
  }

  lemma {:induction false} TotalRemove(f: Name -> nat, s: set<Name>, x: Name)
    requires x in s
    ensures Total(f, s) == f(x) + Total(f, s - {x})
  {
    var y :| y in s && Total(f, s) == f(y) + Total(f, s - {y});
    if y != x {
      TotalRemove(f, s - {y}, x);
      TotalRemove(f, s - {x}, y);
      assert s - {y} - {x} == s - {x} - {y};
    }
  }

  lemma {:induction false} TotalAdd(f: Name -> nat, s: set<Name>, x: Name)
    requires x !in s
    ensures Total(f, s + {x}) == Total(f, s) + f(x)
  {
    TotalRemove(f, s + {x}, x);
    assert s + {x} - {x} == s;
  }

  lemma {:induction false} TotalZero(f: Name -> nat, s: set<Name>)
    ensures Total(f, s) == 0 <==> forall x :: x in s ==> f(x) == 0
  {
    if x :| x in s {
      TotalRemove(f, s, x);
      TotalZero(f, s - {x});
    }
  }

  /** Members that count nothing can be left out. */
  lemma {:induction false} TotalWithin(f: Name -> nat, s: set<Name>, all: set<Name>)
    requires s <= all && forall x :: x in all && x !in s ==> f(x) == 0
    ensures Total(f, s) == Total(f, all)
    decreases |all - s|
  {
    if x :| x in all && x !in s {
      TotalAdd(f, s, x);
      assert all - (s + {x}) < all - s;
      TotalWithin(f, s + {x}, all);
    } else {
      assert s == all;
    }
  }

  /** What a node that is balanced as a transaction is short of. */
  ghost function Shortage(nodes: Nodes, m: Name, t: Name): nat {
    if m in nodes && m != DUMMY && nodes[m].kind in {Transaction, OnChainBlueprint} then Lack(nodes, m, t) else 0
  }

  ghost function Shortages(nodes: Nodes, t: Name): Name -> nat {
    m => Shortage(nodes, m, t)
  }

  /** What the nodes of a set take of a token. */
  ghost function Demand(nodes: Nodes, s: set<Name>, t: Name): nat {
    Total(Shortages(nodes, t), s)
  }

  /** What a token node is short of in HTR, once everything that takes its token has done so. */
  ghost function DepositShortage(deposit: int -> int, nodes: Nodes, n: Name): nat {
    if n in nodes && n != DUMMY && nodes[n].kind == Token then
      var lack := Net(nodes, n, HTR) - Target(nodes[n], HTR) + deposit(Net(nodes, n, n) + Demand(nodes, nodes.Keys, n));
      if lack > 0 then lack else 0
    else 0
  }

  ghost function DepositShortages(deposit: int -> int, nodes: Nodes): Name -> nat {
    n => DepositShortage(deposit, nodes, n)
  }

  /** What the token nodes of a set take from the dummy. */
  ghost function Deposits(deposit: int -> int, nodes: Nodes, s: set<Name>): nat {
    Total(DepositShortages(deposit, nodes), s)
  }

  /** What is taken from the dummy in all. */
  ghost function Taking(deposit: int -> int, nodes: Nodes): nat {
    Demand(nodes, nodes.Keys, HTR) + Deposits(deposit, nodes, nodes.Keys)
  }

  // ----- what is known of the nodes at each step -----

  /** The genesis nodes and the dummy are what they are called, and no output of the dummy is left free. */
  ghost predicate Clear(nodes: Nodes) {
    PlainKinds(nodes) && AllSet(nodes[DUMMY].outputs)
  }

  /** A node that was not completed yet gives out of its own token what was taken from it. */
  ghost predicate Waits(filled: Nodes, nodes: Nodes, done: set<Name>, u: Name) {
    && u in filled && u in nodes && nodes[u].inputs == filled[u].inputs
    && Given(filled[u].outputs, nodes[u].outputs, u, if u == HTR then 0 else Demand(filled, done, u))
  }

  ghost predicate Ledger(deposit: int -> int, filled: Nodes, nodes: Nodes, done: set<Name>, paid: set<Name>) {
    && filled.Keys <= nodes.Keys
    && (forall u :: u in filled && u !in done && u !in paid && u != DUMMY ==> Waits(filled, nodes, done, u))
    && (forall g :: g in filled && filled[g].kind == Genesis ==> SameMoves(filled[g], nodes[g]))
    && (forall m :: m in filled && filled[m].kind != Genesis ==> AllSet(nodes[m].outputs))
    && DummyGives(filled, nodes, Demand(filled, done, HTR) + Deposits(deposit, filled, paid))
  }

  lemma {:induction false} LedgerStart(deposit: int -> int, filled: Nodes)
    requires Prepared(filled) && Clear(filled)
    ensures Ledger(deposit, filled, filled, {}, {})
  {
    hide AlmostTyped, Given;
    forall u | u in filled
      ensures Waits(filled, filled, {}, u)
    {
      GivenNothing(filled[u].outputs, u);
    }
    DummyGivesNothing(filled, filled);
  }

  /** What a node of the description spends stays the same. */
  lemma {:induction false} SameSlots(deposit: int -> int, filled: Nodes, nodes: Nodes, done: set<Name>, paid: set<Name>, n: Name, i: Input)
    requires Prepared(filled) && Clear(filled) && Grown(filled, nodes) && Ledger(deposit, filled, nodes, done, paid)
    requires n in filled && (i in filled[n].inputs || i == Input(GENESIS_BLOCK, 0))
    ensures Slot(nodes, i) == Slot(filled, i)
  {
    hide AlmostTyped, DummyGives, Waits;
    if i in filled[n].inputs {
      assert ReferringNode(filled, filled[n]);
    }
    if filled[i.node].kind != Genesis {
      assert AllSet(filled[i.node].outputs);
      SlotKept(filled, nodes, i);
    } else {
      assert SameMoves(filled[i.node], nodes[i.node]);
    }
  }

  lemma {:induction false} GivenTransitive(a: seq<Option<Output>>, b: seq<Option<Output>>, c: seq<Option<Output>>, token: Name,
                                           x: nat, y: nat)
    requires Given(a, b, token, x) && Given(b, c, token, y)
    ensures Given(a, c, token, x + y)
  {
    hide Received, OutputTokens;
  }

  lemma {:induction false} DummyGivesMore(a: Nodes, b: Nodes, c: Nodes, x: nat, y: nat)
    requires DummyGives(a, b, x) && DummyGives(b, c, y)
    ensures DummyGives(a, c, x + y)
  {
    hide Given;
    GivenTransitive(a[DUMMY].outputs, b[DUMMY].outputs, c[DUMMY].outputs, HTR, x, y);
  }

  /** What a waiting node moves: what the description says, and of its own token what was taken from it. */
  lemma {:induction false} LedgerNet(deposit: int -> int, filled: Nodes, nodes: Nodes, done: set<Name>, paid: set<Name>, n: Name, t: Name)
    requires Prepared(filled) && Clear(filled) && Grown(filled, nodes) && Ledger(deposit, filled, nodes, done, paid)
    requires n in filled && n !in done && n !in paid && n != DUMMY
    ensures n in nodes && Net(nodes, n, t) == Net(filled, n, t) + if t == n && n != HTR then Demand(filled, done, n) else 0
    ensures Target(nodes[n], t) == Target(filled[n], t)
  {
    hide AlmostTyped, Received, Spent, Slot, Prepared, Clear, DummyGives, AllSet, Extends, OutputTokens, Demand;
    assert Waits(filled, nodes, done, n);
    forall i | i in filled[n].inputs
      ensures Slot(nodes, i) == Slot(filled, i)
    {
      SameSlots(deposit, filled, nodes, done, paid, n, i);
    }
    SpentSame(filled, nodes, filled[n].inputs, t);
  }

  lemma {:induction false} LedgerResolved(deposit: int -> int, filled: Nodes, nodes: Nodes, done: set<Name>, paid: set<Name>, n: Name)
    requires Prepared(filled) && Clear(filled) && Grown(filled, nodes) && Ledger(deposit, filled, nodes, done, paid)
    requires n in filled && n !in done && n !in paid && n != DUMMY && filled[n].kind != Genesis
    ensures n in nodes && (Resolved(nodes, n) <==> Resolved(filled, n))
  {
    hide AlmostTyped, Slot, Clear, DummyGives, Extends, Demand, Given, Referring;
    assert Waits(filled, nodes, done, n);
    forall i | i in filled[n].inputs
      ensures Slot(nodes, i) == Slot(filled, i)
    {
      SameSlots(deposit, filled, nodes, done, paid, n, i);
    }
    assert AllSet(filled[n].outputs) && AllSet(nodes[n].outputs);
  }

  // ----- a transaction is balanced -----

  lemma {:induction false} OtherGiven(nodes: Nodes, nodes': Nodes, n: Name, u: Name)
    requires n in nodes && u in nodes && u != DUMMY && OtherNode(nodes, nodes', n, {}, u)
    ensures Given(nodes[u].outputs, nodes'[u].outputs, u, if u == HTR then 0 else Lack(nodes, n, u))
    ensures nodes'[u].inputs == nodes[u].inputs
  {
    hide Received, Net, Target;
    if u != HTR && Short(nodes, n, u) {
      assert u in OutputTokens(nodes'[u].outputs);
    }
  }

  lemma {:induction false} DemandAdd(nodes: Nodes, s: set<Name>, m: Name, t: Name)
    requires m !in s
    ensures Demand(nodes, s + {m}, t) == Demand(nodes, s, t) + Shortage(nodes, m, t)
  {
    TotalAdd(Shortages(nodes, t), s, m);
  }

  /** What a transaction is short of is what the description says. */
  lemma {:induction false} LedgerLack(deposit: int -> int, filled: Nodes, nodes: Nodes, done: set<Name>, paid: set<Name>, n: Name, t: Name)
    requires Prepared(filled) && Clear(filled) && Grown(filled, nodes) && Ledger(deposit, filled, nodes, done, paid)
    requires n in filled && n !in done && n !in paid && BalancedHere(filled, n) && n != DUMMY
    requires n == HTR || Demand(filled, done, n) == 0
    ensures n in nodes && Lack(nodes, n, t) == Shortage(filled, n, t)
  {
    hide Net, Target, Prepared, Clear, Ledger, Grown, Demand;
    LedgerNet(deposit, filled, nodes, done, paid, n, t);
  }

  /** Where the ledger stands before the transaction `n` is balanced. */
  ghost predicate LedgerBefore(deposit: int -> int, filled: Nodes, nodes: Nodes, done: set<Name>, n: Name) {
    && Prepared(filled) && Clear(filled) && Typed(nodes) && Grown(filled, nodes) && Ledger(deposit, filled, nodes, done, {})
    && n in filled && n !in done && (n == HTR || Demand(filled, done, n) == 0)
  }

  lemma {:induction false} WaitsStep(deposit: int -> int, filled: Nodes, nodes: Nodes, done: set<Name>, n: Name, nodes': Nodes, u: Name)
    requires LedgerBefore(deposit, filled, nodes, done, n) && BalancedHere(filled, n) && n != DUMMY && n in nodes
    requires u in filled && u !in done && u != DUMMY && u != n && u in nodes && OtherNode(nodes, nodes', n, {}, u)
    ensures Waits(filled, nodes', done + {n}, u)
  {
    hide Net, Target, Prepared, Clear, Grown, Demand, Given, OtherNode, DummyGives, AllSet, Shortage;
    assert Waits(filled, nodes, done, u);
    OtherIs(nodes, nodes', n, u);
    OtherGiven(nodes, nodes', n, u);
    DemandAdd(filled, done, n, u);
    LedgerLack(deposit, filled, nodes, done, {}, n, u);
    GivenTransitive(filled[u].outputs, nodes[u].outputs, nodes'[u].outputs, u, if u == HTR then 0 else Demand(filled, done, u),
                    if u == HTR then 0 else Lack(nodes, n, u));
  }

  lemma {:induction false} OtherIs(nodes: Nodes, nodes': Nodes, n: Name, u: Name)
    requires n in nodes && u in nodes && OtherNode(nodes, nodes', n, {}, u)
    ensures u in nodes' && (AllSet(nodes[u].outputs) ==> AllSet(nodes'[u].outputs))
  {
    hide Received, Net, Target, OutputTokens;
  }

  lemma {:induction false} LedgerBalanced(deposit: int -> int, issued: int, filled: Nodes, nodes: Nodes, done: set<Name>, n: Name,
                                          nodes': Nodes)
    requires LedgerBefore(deposit, filled, nodes, done, n) && BalancedHere(nodes, n) && n != DUMMY
    requires NodeStep(issued, nodes, nodes', n)
    ensures Ledger(deposit, filled, nodes', done + {n}, {})
  {
    hide Net, Target, Prepared, Clear, Demand, Given, OtherNode, AllSet, Shortage, Waits, Expected, SameMoves, AlmostTyped, Extends,
         DummyGives, Deposits;
    SameTargets(filled, nodes, n, n);
    forall u | u in filled && u != n && u != DUMMY
      ensures u in nodes' && (AllSet(nodes[u].outputs) ==> AllSet(nodes'[u].outputs))
      ensures u !in done + {n} ==> Waits(filled, nodes', done + {n}, u)
      ensures filled[u].kind == Genesis ==> SameMoves(filled[u], nodes'[u])
    {
      OtherNodeOf(nodes, nodes', n, u);
      OtherIs(nodes, nodes', n, u);
      if u !in done {
        WaitsStep(deposit, filled, nodes, done, n, nodes', u);
      }
      if filled[u].kind == Genesis {
        GenesisStays(filled, nodes, nodes', n, u);
      }
    }
    ResolvedIsSet(nodes', n);
    DemandAdd(filled, done, n, HTR);
    LedgerLack(deposit, filled, nodes, done, {}, n, HTR);
    DummyGivesMore(filled, nodes, nodes', Demand(filled, done, HTR) + Deposits(deposit, filled, {}), Lack(nodes, n, HTR));
    ClearDummy(filled);
    DummySet(filled, nodes', Demand(filled, done + {n}, HTR) + Deposits(deposit, filled, {}));
  }

  lemma {:induction false} ResolvedIsSet(nodes: Nodes, n: Name)
    requires n in nodes && Resolved(nodes, n)
    ensures AllSet(nodes[n].outputs)
  {
  }

  lemma {:induction false} DummySet(nodes: Nodes, nodes': Nodes, amount: int)
    requires DummyGives(nodes, nodes', amount) && AllSet(nodes[DUMMY].outputs)
    ensures DUMMY in nodes' && AllSet(nodes'[DUMMY].outputs)
  {
  }

  lemma {:induction false} ClearDummy(nodes: Nodes)
    requires Clear(nodes)
    ensures DUMMY in nodes && nodes[DUMMY].kind == Transaction && AllSet(nodes[DUMMY].outputs)
  {
  }

  // ----- anything else keeps to itself -----

  lemma {:induction false} SameMovesGiven(a: Node, b: Node, c: Node, token: Name, amount: int)
    requires SameMoves(b, c) && Given(a.outputs, b.outputs, token, amount)
    ensures Given(a.outputs, c.outputs, token, amount) && c.inputs == b.inputs
  {
  }

  lemma {:induction false} DemandSkip(nodes: Nodes, s: set<Name>, m: Name, t: Name)
    requires Shortage(nodes, m, t) == 0
    ensures Demand(nodes, s + {m}, t) == Demand(nodes, s, t)
  {
    if m in s {
      assert s + {m} == s;
    } else {
      DemandAdd(nodes, s, m, t);
    }
  }

  lemma {:induction false} LedgerQuiet(deposit: int -> int, filled: Nodes, nodes: Nodes, done: set<Name>, n: Name, nodes': Nodes,
                                       done': set<Name>)
    requires Ledger(deposit, filled, nodes, done, {}) && n in filled && filled.Keys <= nodes'.Keys && DUMMY in filled
    requires forall h :: h in nodes && h != n ==> h in nodes' && SameMoves(nodes[h], nodes'[h])
    requires (done' == done && SameMoves(nodes[n], nodes'[n])) || (done' == done + {n} && n != DUMMY)
    requires filled[n].kind == Genesis ==> SameMoves(nodes[n], nodes'[n])
    requires filled[n].kind != Genesis ==> AllSet(nodes'[n].outputs)
    requires done' != done ==> forall t :: Shortage(filled, n, t) == 0
    ensures Ledger(deposit, filled, nodes', done', {})
  {
    hide Demand, Given, AllSet, Shortage, Deposits;
    forall t
      ensures Demand(filled, done', t) == Demand(filled, done, t)
    {
      if done' != done {
        DemandSkip(filled, done, n, t);
      }
    }
    forall u | u in filled && u !in done' && u != DUMMY
      ensures Waits(filled, nodes', done', u)
    {
      assert Waits(filled, nodes, done, u);
      SameMovesGiven(filled[u], nodes[u], nodes'[u], u, if u == HTR then 0 else Demand(filled, done, u));
    }
    var amount := Demand(filled, done, HTR) + Deposits(deposit, filled, {});
    SameMovesGiven(filled[DUMMY], nodes[DUMMY], nodes'[DUMMY], HTR, amount);
  }

  /** Completing any node. */
  lemma {:induction false} LedgerStep(deposit: int -> int, issued: int, filled: Nodes, nodes: Nodes, done: set<Name>, n: Name,
                                      nodes': Nodes)
    requires LedgerBefore(deposit, filled, nodes, done, n) && NodeStep(issued, nodes, nodes', n)
    ensures Ledger(deposit, filled, nodes', if filled[n].kind == Token || n == DUMMY then done else done + {n}, {})
  {
    hide Net, Target, Prepared, Demand, Given, OtherNode, Waits, Expected, AlmostTyped, Extends, DummyGives, Deposits, Others, Ledger,
         ParentsTaken;
    SameTargets(filled, nodes, n, n);
    ClearDummy(filled);
    if BalancedHere(nodes, n) {
      LedgerBalanced(deposit, issued, filled, nodes, done, n, nodes');
    } else {
      LedgerKeys(deposit, filled, nodes, done, n, nodes');
      KindsOf(filled, n);
      LedgerQuiet(deposit, filled, nodes, done, n, nodes', if filled[n].kind == Token || n == DUMMY then done else done + {n});
    }
  }

  lemma {:induction false} LedgerKeys(deposit: int -> int, filled: Nodes, nodes: Nodes, done: set<Name>, n: Name, nodes': Nodes)
    requires Ledger(deposit, filled, nodes, done, {}) && Grown(nodes, nodes') && n in filled
    ensures filled.Keys <= nodes.Keys <= nodes'.Keys && n in nodes
    ensures filled[n].kind != Genesis ==> AllSet(nodes[n].outputs)
  {
    hide Demand, Given, DummyGives, Waits, Extends;
  }

  /** Nothing that is completed has taken tokens from the next node. */
  lemma {:induction false} NothingTakenYet(filled: Nodes, order: set<Name>, done: set<Name>, n: Name)
    requires Prepared(filled) && DepsInside(filled, order) && done <= order && n !in order && n != HTR
    ensures Demand(filled, done, n) == 0
  {
    hide AlmostTyped, Net, AllDependencies;
    forall m | m in done
      ensures Shortage(filled, m, n) == 0
    {
      Foreign(filled, order, m, n);
    }
    TotalZero(Shortages(filled, n), done);
  }

  // ----- the token nodes -----

  /** Everything that takes tokens is completed. */
  ghost predicate AllTaken(filled: Nodes, done: set<Name>) {
    done <= filled.Keys && forall m :: m in filled && m != DUMMY && filled[m].kind in {Transaction, OnChainBlueprint} ==> m in done
  }

  lemma {:induction false} DemandAll(filled: Nodes, done: set<Name>, t: Name)
    requires AllTaken(filled, done)
    ensures Demand(filled, done, t) == Demand(filled, filled.Keys, t)
  {
    TotalWithin(Shortages(filled, t), done, filled.Keys);
  }

  /** Where the ledger stands before the token node `n` is completed. */
  ghost predicate TokenBefore(deposit: int -> int, filled: Nodes, nodes: Nodes, done: set<Name>, paid: set<Name>, n: Name) {
    && Prepared(filled) && Clear(filled) && Grown(filled, nodes) && Ledger(deposit, filled, nodes, done, paid) && AllTaken(filled, done)
    && n in filled && filled[n].kind == Token && n != DUMMY && n != HTR && n !in done && n !in paid
  }

  lemma {:induction false} TokenLackIs(deposit: int -> int, filled: Nodes, nodes: Nodes, done: set<Name>, paid: set<Name>, n: Name)
    requires TokenBefore(deposit, filled, nodes, done, paid, n)
    ensures n in nodes && TokenLack(deposit, nodes, n) == DepositShortage(deposit, filled, n)
  {
    hide Net, Target, Prepared, Clear, Ledger, Grown, Demand, AllTaken;
    LedgerNet(deposit, filled, nodes, done, paid, n, n);
    LedgerNet(deposit, filled, nodes, done, paid, n, HTR);
    DemandAll(filled, done, n);
  }

  /** A token node can be completed if only HTR and the token itself occur, and the token does. */
  ghost predicate TokenFits(filled: Nodes, n: Name)
    requires n in filled
  {
    && Resolved(filled, n) && Tokens(filled, n) <= {HTR, n}
    && (n in Tokens(filled, n) || Demand(filled, filled.Keys, n) != 0)
  }

  lemma {:induction false} TokenFitsIff(deposit: int -> int, filled: Nodes, nodes: Nodes, done: set<Name>, paid: set<Name>, n: Name)
    requires TokenBefore(deposit, filled, nodes, done, paid, n)
    ensures n in nodes
    ensures Resolved(nodes, n) && Tokens(nodes, n) <= {HTR, n} && n in Tokens(nodes, n) <==> TokenFits(filled, n)
  {
    hide Prepared, Clear, Demand, AllTaken, Slot, OutputTokens, Resolved, DummyGives, AllSet, Received, Extends;
    LedgerResolved(deposit, filled, nodes, done, paid, n);
    assert Waits(filled, nodes, done, n);
    DemandAll(filled, done, n);
    forall i | i in filled[n].inputs
      ensures Slot(nodes, i) == Slot(filled, i)
    {
      SameSlots(deposit, filled, nodes, done, paid, n, i);
    }
    assert SlotTokens(nodes, nodes[n].inputs) == SlotTokens(filled, filled[n].inputs);
  }

  lemma {:induction false} TokenLedger(deposit: int -> int, filled: Nodes, nodes: Nodes, done: set<Name>, paid: set<Name>, n: Name,
                                       nodes': Nodes)
    requires TokenBefore(deposit, filled, nodes, done, paid, n) && n in nodes && n in nodes'
    requires nodes'.Keys == nodes.Keys && forall m :: m in nodes && m != n && m != DUMMY ==> nodes'[m] == nodes[m]
    requires DummyGives(nodes, nodes', TokenLack(deposit, nodes, n)) && AllSet(nodes'[n].outputs)
    ensures Ledger(deposit, filled, nodes', done, paid + {n})
  {
    hide Prepared, Demand, AllTaken, DummyGives, AllSet, Given, TokenLack, Extends, DepositShortage;
    TokenLackIs(deposit, filled, nodes, done, paid, n);
    TotalAdd(DepositShortages(deposit, filled), paid, n);
    var amount := Demand(filled, done, HTR) + Deposits(deposit, filled, paid);
    DummyGivesMore(filled, nodes, nodes', amount, TokenLack(deposit, nodes, n));
    DummySet(filled, nodes', amount + TokenLack(deposit, nodes, n));
    forall u | u in filled && u !in done && u !in paid + {n} && u != DUMMY
      ensures Waits(filled, nodes', done, u)
    {
      assert Waits(filled, nodes, done, u);
    }
  }

  // ----- the dummy -----

  ghost function DummyInputs(deposit: int -> int, filled: Nodes): set<Input>
    requires DUMMY in filled
  {
    filled[DUMMY].inputs + if Taking(deposit, filled) == 0 then {} else {Input(GENESIS_BLOCK, 0)}
  }

  /** The dummy moves only HTR and spends enough for what it gives out. */
  ghost predicate DummyFits(deposit: int -> int, filled: Nodes)
    requires DUMMY in filled
  {
    var inputs := DummyInputs(deposit, filled);
    && (forall i :: i in inputs ==> Slot(filled, i).Some? && Slot(filled, i).value.token == HTR)
    && OutputTokens(filled[DUMMY].outputs) <= {HTR} && filled[DUMMY].balances.Keys <= {HTR}
    && Received(filled[DUMMY].outputs, HTR) + Taking(deposit, filled) <= Spent(filled, inputs, HTR)
  }

  /** Nothing is described of the dummy, and nobody takes HTR from it. */
  ghost predicate Idle(deposit: int -> int, filled: Nodes)
    requires DUMMY in filled
  {
    && filled[DUMMY].inputs == {} && filled[DUMMY].outputs == [] && filled[DUMMY].balances == map[]
    && (forall m :: Shortage(filled, m, HTR) == 0) && forall n :: DepositShortage(deposit, filled, n) == 0
  }

  /** Where the ledger stands when all but the dummy is completed. */
  ghost predicate LedgerClosed(deposit: int -> int, filled: Nodes, nodes: Nodes) {
    && Prepared(filled) && Clear(filled) && Grown(filled, nodes)
    && exists done, paid :: Ledger(deposit, filled, nodes, done, paid) && AllTaken(filled, done) && AllPaid(filled, paid)
  }

  ghost predicate AllPaid(filled: Nodes, paid: set<Name>) {
    paid <= filled.Keys && forall n :: n in filled && n != DUMMY && filled[n].kind == Token ==> n in paid
  }

  lemma {:induction false} ClosedGives(deposit: int -> int, filled: Nodes, nodes: Nodes)
    requires LedgerClosed(deposit, filled, nodes)
    ensures DummyGives(filled, nodes, Taking(deposit, filled))
    ensures forall i :: i in DummyInputs(deposit, filled) ==> Slot(nodes, i) == Slot(filled, i)
  {
    hide Prepared, Demand, DummyGives, Given, DepositShortage, Extends, Slot;
    var done, paid :| Ledger(deposit, filled, nodes, done, paid) && AllTaken(filled, done) && AllPaid(filled, paid);
    DemandAll(filled, done, HTR);
    TotalWithin(DepositShortages(deposit, filled), paid, filled.Keys) by {
      forall n | n in filled.Keys && n !in paid
        ensures DepositShortages(deposit, filled)(n) == 0
      {
        NoDeposit(deposit, filled, n);
      }
    }
    forall i | i in DummyInputs(deposit, filled)
      ensures Slot(nodes, i) == Slot(filled, i)
    {
      SameSlots(deposit, filled, nodes, done, paid, DUMMY, i);
    }
  }

  lemma {:induction false} NoDeposit(deposit: int -> int, nodes: Nodes, n: Name)
    requires n !in nodes || n == DUMMY || nodes[n].kind != Token
    ensures DepositShortage(deposit, nodes, n) == 0
  {
  }

  lemma {:induction false} DummyFitsIff(deposit: int -> int, filled: Nodes, nodes: Nodes)
    requires LedgerClosed(deposit, filled, nodes)
    ensures DUMMY in filled && DUMMY in nodes
    ensures Resolved(nodes, DUMMY) && Tokens(nodes, DUMMY) <= {HTR} && Net(nodes, DUMMY, HTR) <= 0 <==> DummyFits(deposit, filled)
  {
    hide Prepared, Demand, Taking, Slot, Received, Spent, Extends, OutputTokens, Ledger;
    ClosedGives(deposit, filled, nodes);
    var inputs := DummyInputs(deposit, filled);
    assert nodes[DUMMY].inputs == inputs;
    assert SlotTokens(nodes, inputs) == SlotTokens(filled, inputs);
    SpentSame(filled, nodes, inputs, HTR);
    assert AllSet(nodes[DUMMY].outputs);
    if forall i :: i in inputs ==> Slot(filled, i).Some? {
      assert SlotTokens(filled, inputs) <= {HTR} <==> forall i :: i in inputs ==> Slot(filled, i).value.token == HTR by {
        forall i | i in inputs
          ensures Slot(filled, i).value.token in SlotTokens(filled, inputs)
        {
        }
      }
    }
  }

  lemma {:induction false} IdleIff(deposit: int -> int, filled: Nodes, nodes: Nodes)
    requires LedgerClosed(deposit, filled, nodes) && DUMMY in nodes && Resolved(nodes, DUMMY)
    ensures DUMMY in filled && (Tokens(nodes, DUMMY) == {} <==> Idle(deposit, filled))
  {
    hide Prepared, Received, Spent, Extends, Ledger, Shortage, DepositShortage;
    ClosedGives(deposit, filled, nodes);
    TotalZero(Shortages(filled, HTR), filled.Keys);
    TotalZero(DepositShortages(deposit, filled), filled.Keys);
    assert Taking(deposit, filled) == 0 <==>
           (forall m :: Shortage(filled, m, HTR) == 0) && forall n :: DepositShortage(deposit, filled, n) == 0 by {
      forall n
        ensures n !in filled ==> Shortage(filled, n, HTR) == 0 && DepositShortage(deposit, filled, n) == 0
      {
        if n !in filled {
          Outside(deposit, filled, n);
        }
      }
    }
    NoTokens(nodes, DUMMY);
    if i :| i in nodes[DUMMY].inputs {
      assert Slot(nodes, i).value.token in SlotTokens(nodes, nodes[DUMMY].inputs);
    }
    assert nodes[DUMMY].balances == filled[DUMMY].balances;
  }

  lemma {:induction false} Outside(deposit: int -> int, filled: Nodes, n: Name)
    requires n !in filled
    ensures Shortage(filled, n, HTR) == 0 && DepositShortage(deposit, filled, n) == 0
  {
  }

  // ----- the parents of blocks -----

  /** No block is described with both the genesis block and another block for a parent. */
  ghost predicate OneChain(nodes: Nodes) {
    forall n, p :: n in nodes && nodes[n].kind == Block && IsParentBlock(nodes, n, p) ==> GENESIS_BLOCK !in nodes[n].parents
  }

  /** A block has at most one block for a parent, and no more than three parents with it or the genesis block. */
  ghost predicate BlockFits(nodes: Nodes, n: Name)
    requires n in nodes
  {
    && (forall p, q :: IsParentBlock(nodes, n, p) && IsParentBlock(nodes, n, q) ==> p == q)
    && if exists p :: IsParentBlock(nodes, n, p) then |nodes[n].parents| <= 3 else |nodes[n].parents + {GENESIS_BLOCK}| <= 3
  }

  /** A completed block has two parents to take over; the others have the parents of the description. */
  ghost predicate Parented(filled: Nodes, nodes: Nodes, done: set<Name>) {
    && nodes.Keys == filled.Keys && (forall m :: m in filled ==> nodes[m].kind == filled[m].kind)
    && (forall m :: m in nodes ==> nodes[m].parents <= filled.Keys)
    && (forall u :: u in filled && filled[u].kind == Block && u !in done ==> nodes[u].parents == filled[u].parents)
    && (forall p :: p in filled && filled[p].kind == Block && p in done ==> |Candidates(nodes, p)| == 2)
  }

  lemma {:induction false} Sizes(a: set<Name>, b: set<Name>)
    requires a <= b
    ensures |a| <= |b| && (|a| == |b| ==> a == b)
  {
    if x :| x in a {
      Sizes(a - {x}, b - {x});
      assert a == a - {x} + {x};
      assert b == b - {x} + {x};
    }
  }

  /** With two parents to take over from the parent block, three parents can be had unless there are more. */
  lemma {:induction false} CountWithBlock(parents: set<Name>, p: Name, from: set<Name>)
    requires p in parents && p !in from && |from| == 2
    ensures FilledCount(parents, 3, from) == 3 <==> |parents| <= 3
  {
    if |parents| < 3 {
      var some := from + {p};
      assert |some| == 3;
      Sizes(some, parents + from);
    }
  }

  lemma {:induction false} CountWithGenesis(parents: set<Name>)
    requires GENESIS_BLOCK in parents
    ensures FilledCount(parents, 3, SourceSet({})) == 3 <==> |parents| <= 3
  {
    assert |GENESIS_1.text| == 9 && |GENESIS_2.text| == 9 && |GENESIS_BLOCK.text| == 13 && GENESIS_1.text[8] != GENESIS_2.text[8];
    CountWithBlock(parents, GENESIS_BLOCK, {GENESIS_1, GENESIS_2});
  }

  lemma {:induction false} ParentsFitIff(filled: Nodes, nodes: Nodes, done: set<Name>, n: Name)
    requires Parented(filled, nodes, done) && n in filled && filled[n].kind == Block && n !in done
    requires forall p :: IsParentBlock(filled, n, p) ==> p in done
    ensures n in nodes && (ParentsFit(nodes, n) <==> BlockFits(filled, n))
  {
    hide FilledCount, SourceSet, Candidates;
    assert forall p :: IsParentBlock(nodes, n, p) <==> IsParentBlock(filled, n, p);
    if p :| IsParentBlock(filled, n, p) {
      if forall q :: IsParentBlock(filled, n, q) ==> q == p {
        TakenOver(nodes, p);
        CountWithBlock(filled[n].parents, p, SourceSet(Candidates(nodes, p)));
        FitsIff(nodes, n, Some(p));
      } else {
        TwoParentBlocks(nodes, n);
      }
    } else {
      FitsIff(nodes, n, None);
      CountWithGenesis(filled[n].parents + {GENESIS_BLOCK});
    }
  }

  lemma {:induction false} TakenOver(nodes: Nodes, p: Name)
    requires p in nodes && nodes[p].kind == Block && |Candidates(nodes, p)| == 2
    ensures SourceSet(Candidates(nodes, p)) == Candidates(nodes, p) && p !in Candidates(nodes, p)
  {
  }

  /** Where the parents stand before the block `n` is completed, and what it gets. */
  ghost predicate ParentStep(filled: Nodes, nodes: Nodes, done: set<Name>, n: Name, nodes': Nodes) {
    && Parented(filled, nodes, done) && OneChain(filled) && PlainKinds(filled) && n in filled && filled[n].kind == Block && n !in done
    && BlockFits(filled, n) && ParentsTaken(nodes, nodes', n) && nodes'.Keys == nodes.Keys
    && (forall m :: m in nodes ==> nodes'[m].kind == nodes[m].kind)
    && forall p :: IsParentBlock(filled, n, p) ==> p in done
  }

  lemma {:induction false} HandOnWithBlock(filled: Nodes, nodes: Nodes, done: set<Name>, n: Name, nodes': Nodes, p: Name)
    requires ParentStep(filled, nodes, done, n, nodes') && IsParentBlock(filled, n, p)
    ensures |Candidates(nodes', n)| == 2
  {
    assert IsParentBlock(nodes, n, p) && |Candidates(nodes, p)| == 2;
    var parents := nodes'[n].parents;
    forall c | c in parents && c != p
      ensures c in Candidates(nodes', n)
    {
      if c !in Candidates(nodes, p) {
        assert c in filled[n].parents;
        assert !IsParentBlock(filled, n, c);
      }
    }
    assert p in nodes' && nodes'[p].kind == Block;
    assert Candidates(nodes', n) == parents - {p};
  }

  lemma {:induction false} HandOnWithGenesis(filled: Nodes, nodes: Nodes, done: set<Name>, n: Name, nodes': Nodes)
    requires ParentStep(filled, nodes, done, n, nodes') && forall p :: !IsParentBlock(filled, n, p)
    ensures |Candidates(nodes', n)| == 2
  {
    forall p
      ensures !IsParentBlock(nodes, n, p)
    {
      assert !IsParentBlock(filled, n, p);
    }
    var parents := nodes'[n].parents;
    forall c | c in parents && c != GENESIS_BLOCK
      ensures c in Candidates(nodes', n)
    {
      if c in GENESIS_NAMES {
        assert nodes'[c].kind == Genesis;
      } else {
        assert c in filled[n].parents;
        assert !IsParentBlock(filled, n, c);
      }
    }
    assert Candidates(nodes', n) == parents - {GENESIS_BLOCK};
  }

  lemma {:induction false} ParentedStart(filled: Nodes)
    requires !T.Missing(filled)
    ensures Parented(filled, filled, {})
  {
    hide Candidates;
    forall m | m in filled
      ensures filled[m].parents <= filled.Keys
    {
      forall d | d in filled[m].parents
        ensures d in filled
      {
        assert d in AllDependencies(filled[m]);
      }
    }
  }

  lemma {:induction false} ParentedKeys(filled: Nodes, nodes: Nodes, done: set<Name>, n: Name, nodes': Nodes)
    requires Parented(filled, nodes, done) && PlainKinds(filled) && Rewired(nodes, nodes', n) && Grown(nodes, nodes')
    ensures nodes'.Keys == filled.Keys && forall m :: m in nodes' ==> nodes'[m].parents <= filled.Keys
    ensures forall m :: m in filled ==> nodes'[m].kind == filled[m].kind
    ensures forall m :: m in filled && m != n && m != DUMMY ==> nodes'[m].parents == nodes[m].parents
  {
    hide NewHomes, Candidates, Extends, Homes;
    assert nodes'.Keys == nodes.Keys;
  }

  lemma {:induction false} ParentedStep(filled: Nodes, nodes: Nodes, done: set<Name>, n: Name, nodes': Nodes, done': set<Name>)
    requires Parented(filled, nodes, done) && OneChain(filled) && PlainKinds(filled) && n in filled && n !in done
    requires Rewired(nodes, nodes', n) && Grown(nodes, nodes') && (done' == done || done' == done + {n})
    requires filled[n].kind == Block ==>
               && done' == done + {n} && BlockFits(filled, n) && ParentsTaken(nodes, nodes', n)
               && forall p :: IsParentBlock(filled, n, p) ==> p in done
    ensures Parented(filled, nodes', done')
  {
    hide Candidates, Rewired, BlockFits, ParentsTaken, OneChain, Extends;
    ParentedKeys(filled, nodes, done, n, nodes');
    forall p | p in filled && filled[p].kind == Block && p in done'
      ensures |Candidates(nodes', p)| == 2
    {
      if p == n {
        if q :| IsParentBlock(filled, n, q) {
          HandOnWithBlock(filled, nodes, done, n, nodes', q);
        } else {
          HandOnWithGenesis(filled, nodes, done, n, nodes');
        }
      } else {
        SameCandidates(nodes, nodes', p);
      }
    }
  }

  lemma {:induction false} SameCandidates(nodes: Nodes, nodes': Nodes, p: Name)
    requires p in nodes && nodes'.Keys == nodes.Keys && nodes'[p].parents == nodes[p].parents
    requires forall m :: m in nodes ==> nodes'[m].kind == nodes[m].kind
    ensures Candidates(nodes', p) == Candidates(nodes, p)
  {
  }

  // ----- when the filler finishes -----

  /** The descriptions for which that is settled by the description alone. */
  ghost predicate Regular(nodes: Nodes) {
    Clear(nodes) && OneChain(nodes)
  }

  /** When completing a node in its order does not fail. */
  ghost predicate StepFits(issued: int, filled: Nodes, n: Name)
    requires n in filled
  {
    match filled[n].kind
    case Genesis => true
    case Block => filled[n].inputs == {} && |filled[n].outputs| <= 1 && BlockFits(filled, n) && IssueFits(issued, filled, n)
    case Transaction => n == DUMMY || Resolved(filled, n)
    case OnChainBlueprint => Resolved(filled, n)
    case Token => true
    case Unknown => false
  }

  lemma {:induction false} StepFitsIff(deposit: int -> int, issued: int, filled: Nodes, nodes: Nodes, done: set<Name>, n: Name)
    requires LedgerBefore(deposit, filled, nodes, done, n) && Parented(filled, nodes, done)
    requires forall p :: IsParentBlock(filled, n, p) ==> p in done
    ensures n in nodes && (NodeFits(issued, nodes, n) <==> StepFits(issued, filled, n))
  {
    hide Prepared, Clear, Ledger, Resolved, ParentsFit, IssueFits, BlockFits, Parented, AlmostTyped, Extends;
    SameTargets(filled, nodes, n, n);
    KindsOf(filled, n);
    ClearDummy(filled);
    if filled[n].kind == Block {
      ParentsFitIff(filled, nodes, done, n);
      BlockSame(deposit, issued, filled, nodes, done, n);
    } else if filled[n].kind != Genesis && n != DUMMY {
      LedgerResolved(deposit, filled, nodes, done, {}, n);
    }
  }

  lemma {:induction false} BlockSame(deposit: int -> int, issued: int, filled: Nodes, nodes: Nodes, done: set<Name>, n: Name)
    requires LedgerBefore(deposit, filled, nodes, done, n) && filled[n].kind == Block && n in nodes
    ensures nodes[n].inputs == filled[n].inputs && nodes[n].outputs == filled[n].outputs
    ensures filled[n].inputs == {} ==> (IssueFits(issued, nodes, n) <==> IssueFits(issued, filled, n))
  {
    hide Prepared, Extends, AlmostTyped, DummyGives;
    ClearDummy(filled);
    assert Waits(filled, nodes, done, n);
    assert nodes[n].outputs == filled[n].outputs;
    assert nodes[n].balances == filled[n].balances;
    if filled[n].inputs == {} {
      assert SlotTokens(nodes, {}) == SlotTokens(filled, {}) == {};
    }
  }

  /** Everything about a description, once its gaps are filled. */
  ghost predicate Finishes(deposit: int -> int, issued: int, nodes: Nodes) {
    && (forall n :: n in nodes ==> Skipped(nodes, n) || ZerosAreFree(nodes[n].outputs))
    && !T.Cyclic(nodes) && !T.Missing(nodes)
    && var filled := Ready(nodes);
       && (forall n :: n in filled ==> StepFits(issued, filled, n))
       && (forall n :: n in filled && n != DUMMY && filled[n].kind == Token ==> TokenFits(filled, n))
       && DUMMY in filled && DummyFits(deposit, filled)
  }
}
