/** What is known at each step of the filler's run, all together. */
module FillerRun {
  import opened Sequences
  import opened DagNodes
  import opened Balances
  import opened DagBuilder
  import opened NodeBalance
  import opened FillerProgress
  import opened FillerGraph
  import opened FillerLedger
  import T = TopologicalSort

  // ----- the nodes in their order -----

  /** Where the run stands after the first `k` nodes. */
  ghost predicate Running(deposit: int -> int, issued: int, filled: Nodes, order: seq<Name>, k: nat, nodes: Nodes, tokens: seq<Name>,
                          done: set<Name>)
  {
    && Prepared(filled) && T.TopologicalOrder(filled, order) && k <= |order|
    && Typed(nodes) && Grown(filled, nodes) && DepsInside(filled, ToSet(order[..k]))
    && Sorted(filled, ToSet(order[..k]), tokens, done) && Distinct(tokens)
    && (forall n :: n in nodes && n !in filled ==> nodes[n].kind == Unknown)
    && ParentsUpTo(filled, nodes, ToSet(order[..k]))
    && (DummyPure(nodes) ==> Collected(deposit, issued, filled, nodes, ToSet(order[..k]), done))
    && (DummyPure(nodes) && Plain(filled) ==> Traced(filled, order, nodes, Reached(filled)))
    && (Clear(filled) ==> Ledger(deposit, filled, nodes, done, {}))
    && (Regular(filled) ==> Parented(filled, nodes, done) && FitUpTo(issued, filled, order[..k]))
  }

  ghost predicate FitUpTo(issued: int, filled: Nodes, names: seq<Name>) {
    forall m :: m in names ==> m in filled && StepFits(issued, filled, m)
  }

  lemma {:induction false} RunningStart(deposit: int -> int, issued: int, filled: Nodes, order: seq<Name>)
    requires Prepared(filled) && T.TopologicalOrder(filled, order)
    ensures Running(deposit, issued, filled, order, 0, filled, [], {})
  {
    hide Prepared, T.TopologicalOrder, Collected, Traced, Ledger, Parented, Clear, Plain, Grown, AlmostTyped, DummyPure, Sorted, DepsInside,
         Reached, OneChain;
    PreparedTyped(filled);
    GrownReflexive(filled);
    NoParentsYet(filled);
    NothingCollected(deposit, issued, filled);
    assert ToSet(order[..0]) == {};
    if Plain(filled) {
      TracedStart(filled, order, Reached(filled));
    }
    if Clear(filled) {
      LedgerStart(deposit, filled);
    }
    T.OrderedIsSound(filled, order);
    ParentedStart(filled);
  }

  /** The next node is one of the description, and its parent blocks are completed. */
  lemma {:induction false} RunningNext(deposit: int -> int, issued: int, filled: Nodes, order: seq<Name>, k: nat, nodes: Nodes,
                                       tokens: seq<Name>, done: set<Name>)
    requires Running(deposit, issued, filled, order, k, nodes, tokens, done) && k < |order|
    ensures var n := order[k];
            && n in filled && n in nodes && nodes[n].kind == filled[n].kind && n !in done && Typed(nodes)
            && n !in ToSet(order[..k]) && AllDependencies(filled[n]) <= ToSet(order[..k]) && done <= ToSet(order[..k])
            && ToSet(order[..k + 1]) == ToSet(order[..k]) + {n} && DepsInside(filled, ToSet(order[..k + 1]))
            && forall p :: IsParentBlock(filled, n, p) ==> p in done
  {
    hide Prepared, T.TopologicalOrder, Collected, Traced, Ledger, Parented, Clear, Plain, Extends, AlmostTyped, DummyPure, DepsInside,
         Reached, OneChain, FitUpTo, ToSet, Distinct;
    NextInOrder(filled, order, k);
    SortedDone(filled, ToSet(order[..k]), tokens, done);
    var n := order[k];
    forall p | IsParentBlock(filled, n, p)
      ensures p in done
    {
      assert p in AllDependencies(filled[n]);
      PreparedTyped(filled);
      TypedNames(filled);
    }
  }

  lemma {:induction false} RunningLedger(deposit: int -> int, issued: int, filled: Nodes, order: seq<Name>, k: nat, nodes: Nodes,
                                         tokens: seq<Name>, done: set<Name>)
    requires Running(deposit, issued, filled, order, k, nodes, tokens, done) && k < |order| && Clear(filled)
    ensures LedgerBefore(deposit, filled, nodes, done, order[k])
  {
    hide Prepared, T.TopologicalOrder, Collected, Traced, Ledger, Parented, Clear, Plain, Grown, AlmostTyped, DummyPure, DepsInside,
         Reached, OneChain, FitUpTo, ToSet, Distinct, Sorted, Demand, AllDependencies;
    RunningNext(deposit, issued, filled, order, k, nodes, tokens, done);
    if order[k] != HTR {
      NothingTakenYet(filled, ToSet(order[..k]), done, order[k]);
    }
  }

  /** Whether completing the next node fails is settled by the description. */
  lemma {:induction false} RunningFits(deposit: int -> int, issued: int, filled: Nodes, order: seq<Name>, k: nat, nodes: Nodes,
                                       tokens: seq<Name>, done: set<Name>)
    requires Running(deposit, issued, filled, order, k, nodes, tokens, done) && k < |order| && Regular(filled)
    ensures order[k] in nodes && order[k] in filled && (NodeFits(issued, nodes, order[k]) <==> StepFits(issued, filled, order[k]))
  {
    hide Prepared, T.TopologicalOrder, Collected, Traced, Ledger, Parented, Clear, Plain, Grown, AlmostTyped, DummyPure, DepsInside,
         Reached, OneChain, FitUpTo, ToSet, Distinct, Sorted, LedgerBefore, NodeFits, StepFits, AllDependencies;
    RunningNext(deposit, issued, filled, order, k, nodes, tokens, done);
    RunningLedger(deposit, issued, filled, order, k, nodes, tokens, done);
    StepFitsIff(deposit, issued, filled, nodes, done, order[k]);
  }

  /** What a step leaves to the ledger. */
  lemma {:induction false} RunningPays(deposit: int -> int, issued: int, filled: Nodes, order: seq<Name>, k: nat, nodes: Nodes,
                                       tokens: seq<Name>, done: set<Name>, nodes': Nodes, done': set<Name>)
    requires Running(deposit, issued, filled, order, k, nodes, tokens, done) && k < |order| && Clear(filled)
    requires order[k] in nodes && NodeFits(issued, nodes, order[k]) && NodeStep(issued, nodes, nodes', order[k])
    requires Rewired(nodes, nodes', order[k]) && order[k] in filled
    requires done' == if filled[order[k]].kind == Token || order[k] == DUMMY then done else done + {order[k]}
    ensures Ledger(deposit, filled, nodes', done', {})
    ensures Regular(filled) ==> Parented(filled, nodes', done') && FitUpTo(issued, filled, order[..k + 1])
  {
    hide Prepared, T.TopologicalOrder, Collected, Traced, Ledger, Parented, Plain, Grown, AlmostTyped, DummyPure, DepsInside,
         Reached, OneChain, ToSet, Distinct, Sorted, LedgerBefore, NodeFits, AllDependencies, Rewired, ParentsTaken, Others,
         Given, BlockFilled, Resolved, BlockFits, IssueFits, AllSet, Net;
    var n := order[k];
    RunningNext(deposit, issued, filled, order, k, nodes, tokens, done);
    RunningLedger(deposit, issued, filled, order, k, nodes, tokens, done);
    LedgerStep(deposit, issued, filled, nodes, done, n, nodes');
    if Regular(filled) {
      RunningFits(deposit, issued, filled, order, k, nodes, tokens, done);
      ParentedStep(filled, nodes, done, n, nodes', done');
      assert order[..k + 1] == order[..k] + [n];
    }
  }

  lemma {:induction false} RunningStep(deposit: int -> int, issued: int, filled: Nodes, order: seq<Name>, k: nat, nodes: Nodes,
                                       tokens: seq<Name>, done: set<Name>, nodes': Nodes, tokens': seq<Name>, done': set<Name>)
    requires Running(deposit, issued, filled, order, k, nodes, tokens, done) && k < |order| && order[k] in filled
    requires order[k] in nodes && NodeFits(issued, nodes, order[k]) && NodeStep(issued, nodes, nodes', order[k])
    requires (order[k] == DUMMY ==> nodes[DUMMY].kind == Transaction) ==> Rewired(nodes, nodes', order[k])
    requires ParentsStep(nodes, nodes', order[k])
    requires tokens' == if filled[order[k]].kind == Token then tokens + [order[k]] else tokens
    requires done' == if filled[order[k]].kind == Token || order[k] == DUMMY then done else done + {order[k]}
    ensures Running(deposit, issued, filled, order, k + 1, nodes', tokens', done')
  {
    hide Prepared, T.TopologicalOrder, Collected, Traced, Ledger, Parented, Plain, Grown, AlmostTyped, DummyPure, DepsInside,
         Reached, OneChain, ToSet, Sorted, LedgerBefore, NodeFits, AllDependencies, Rewired, NodeStep, Clear, FitUpTo;
    var n := order[k];
    RunningNext(deposit, issued, filled, order, k, nodes, tokens, done);
    NodeStepFacts(issued, filled, nodes, nodes', n);
    PreparedTyped(filled);
    TypedNames(filled);
    KindsStay(filled, nodes);
    ParentsUpToStep(filled, nodes, ToSet(order[..k]), n, nodes');
    SortedStep(filled, ToSet(order[..k]), tokens, done, n);
    TokensDistinct(filled, ToSet(order[..k]), tokens, done, n);
    if DummyPure(nodes') {
      DummyPureBefore(nodes, nodes');
      CollectedStep(deposit, issued, filled, nodes, ToSet(order[..k]), tokens, done, n, nodes');
      if Plain(filled) {
        PlainDummy(filled, nodes);
        TraceNext(deposit, issued, filled, order, k, nodes, done, nodes', Reached(filled));
      }
    }
    if Clear(filled) {
      ClearDummy(filled);
      SameTargets(filled, nodes, DUMMY, DUMMY);
      RunningPays(deposit, issued, filled, order, k, nodes, tokens, done, nodes', done');
    }
  }

  lemma {:induction false} TokensDistinct(filled: Nodes, order: set<Name>, tokens: seq<Name>, done: set<Name>, n: Name)
    requires Sorted(filled, order, tokens, done) && Distinct(tokens) && n !in order
    ensures Distinct(tokens + [n])
  {
    forall i | 0 <= i < |tokens|
      ensures tokens[i] != n
    {
      assert tokens[i] in tokens;
    }
  }

  // ----- the token nodes -----

  /** Where the run stands after all nodes, and the first `k` token nodes. */
  ghost predicate Paying(deposit: int -> int, issued: int, filled: Nodes, order: seq<Name>, tokens: seq<Name>, done: set<Name>, k: nat,
                         nodes: Nodes)
  {
    && Prepared(filled) && T.TopologicalOrder(filled, order) && k <= |tokens| && Typed(nodes) && Grown(filled, nodes)
    && Sorted(filled, ToSet(order), tokens, done) && Distinct(tokens)
    && (forall n :: n in nodes && n !in filled ==> nodes[n].kind == Unknown)
    && ParentsUpTo(filled, nodes, filled.Keys)
    && (DummyPure(nodes) ==> AllSettled(deposit, issued, filled, done, nodes, done + ToSet(tokens[..k])))
    && (DummyPure(nodes) && Plain(filled) ==> Traced(filled, order, nodes, Reached(filled)))
    && (Clear(filled) ==> Ledger(deposit, filled, nodes, done, ToSet(tokens[..k])))
    && (Regular(filled) ==> FitUpTo(issued, filled, order) && TokensFitUpTo(filled, tokens[..k]))
  }

  ghost predicate TokensFitUpTo(filled: Nodes, names: seq<Name>) {
    forall n :: n in names ==> n in filled && TokenFits(filled, n)
  }

  lemma {:induction false} PayingStart(deposit: int -> int, issued: int, filled: Nodes, order: seq<Name>, nodes: Nodes, tokens: seq<Name>,
                                       done: set<Name>)
    requires Running(deposit, issued, filled, order, |order|, nodes, tokens, done)
    ensures Paying(deposit, issued, filled, order, tokens, done, 0, nodes)
  {
    hide Prepared, T.Ordered, Collected, Traced, Ledger, Parented, Plain, Grown, AlmostTyped, DummyPure, DepsInside,
         Reached, OneChain, Sorted, Clear, FitUpTo, AllSettled, ParentsUpTo;
    assert order[..|order|] == order;
    NoTokenYet(filled, ToSet(order), tokens, done);
    assert ToSet(tokens[..0]) == {};
    CollectedSettles(deposit, issued, filled, nodes, ToSet(order), done);
  }

  /** The next token node, and how the ledger stands before it. */
  lemma {:induction false} PayingNext(deposit: int -> int, issued: int, filled: Nodes, order: seq<Name>, tokens: seq<Name>, done: set<Name>,
                                      k: nat, nodes: Nodes)
    requires Paying(deposit, issued, filled, order, tokens, done, k, nodes) && k < |tokens|
    ensures var n := tokens[k];
            && n in filled && n in nodes && nodes[n].kind == filled[n].kind == Token && n != DUMMY && Typed(nodes)
            && ToSet(tokens[..k + 1]) == ToSet(tokens[..k]) + {n}
            && DUMMY !in done + ToSet(tokens[..k])
            && (Clear(filled) ==> TokenBefore(deposit, filled, nodes, done, ToSet(tokens[..k]), n))
  {
    hide Prepared, Traced, Ledger, Plain, Extends, AlmostTyped, DummyPure, DepsInside, T.Ordered, Reached, OneChain, Clear, FitUpTo,
         AllSettled, TokensFitUpTo;
    NextToken(filled, ToSet(order), tokens, done, k);
    PreparedTyped(filled);
    TypedNames(filled);
    assert forall x :: x in ToSet(tokens[..k]) ==> x in tokens;
    SortedTaken(filled, order, tokens, done);
  }

  lemma {:induction false} SortedTaken(filled: Nodes, order: seq<Name>, tokens: seq<Name>, done: set<Name>)
    requires T.TopologicalOrder(filled, order) && Sorted(filled, ToSet(order), tokens, done)
    ensures AllTaken(filled, done) && AllPaid(filled, ToSet(tokens)) && done <= filled.Keys
  {
    hide T.Ordered;
    forall m | m in filled && m != DUMMY
      ensures filled[m].kind == Token ==> m in ToSet(tokens)
      ensures filled[m].kind in {Transaction, OnChainBlueprint} ==> m in done
    {
      assert m in ToSet(order);
    }
  }

  lemma {:induction false} PayingFits(deposit: int -> int, issued: int, filled: Nodes, order: seq<Name>, tokens: seq<Name>, done: set<Name>,
                                      k: nat, nodes: Nodes)
    requires Paying(deposit, issued, filled, order, tokens, done, k, nodes) && k < |tokens| && Clear(filled)
    ensures tokens[k] in filled && tokens[k] in nodes
    ensures var n := tokens[k];
            Resolved(nodes, n) && Tokens(nodes, n) <= {HTR, n} && n in Tokens(nodes, n) <==> TokenFits(filled, n)
  {
    hide Paying, Resolved, Tokens, TokenFits, TokenBefore, Clear;
    PayingNext(deposit, issued, filled, order, tokens, done, k, nodes);
    TokenFitsIff(deposit, filled, nodes, done, ToSet(tokens[..k]), tokens[k]);
  }

  lemma {:induction false} PayingStep(deposit: int -> int, issued: int, filled: Nodes, order: seq<Name>, tokens: seq<Name>, done: set<Name>,
                                      k: nat, nodes: Nodes, nodes': Nodes)
    requires Paying(deposit, issued, filled, order, tokens, done, k, nodes) && k < |tokens| && tokens[k] in nodes && tokens[k] in nodes'
    requires Typed(nodes') && Grown(nodes, nodes') && nodes'.Keys == nodes.Keys
    requires forall m :: m in nodes && m != tokens[k] && m != DUMMY ==> nodes'[m] == nodes[m]
    requires Resolved(nodes, tokens[k]) && Tokens(nodes, tokens[k]) <= {HTR, tokens[k]} && tokens[k] in Tokens(nodes, tokens[k])
    requires TokenFilled(deposit, nodes', tokens[k]) && Rewired(nodes, nodes', tokens[k]) && SameLinks(nodes[tokens[k]], nodes'[tokens[k]])
    requires DummyGives(nodes, nodes', TokenLack(deposit, nodes, tokens[k]))
    ensures Paying(deposit, issued, filled, order, tokens, done, k + 1, nodes')
  {
    hide Prepared, T.TopologicalOrder, Traced, Ledger, Plain, Grown, AlmostTyped, DummyPure, DepsInside, Reached, OneChain, Sorted, Clear,
         FitUpTo, AllSettled, Distinct, ToSet, TokenFits, Tokens, Rewired, DummyGives, TokenLack, TokenBefore, Net;
    var n := tokens[k];
    PayingNext(deposit, issued, filled, order, tokens, done, k, nodes);
    GrownTransitive(filled, nodes, nodes');
    KindsStay(nodes, nodes');
    TypedNames(nodes);
    ParentsUpToSame(filled, nodes, filled.Keys, nodes');
    if DummyPure(nodes') {
      DummyPureBefore(nodes, nodes');
      TokenSettles(deposit, issued, filled, done, nodes, nodes', done + ToSet(tokens[..k]), n);
      assert done + ToSet(tokens[..k]) + {n} == done + ToSet(tokens[..k + 1]);
      if Plain(filled) {
        TraceToken(filled, order, nodes, nodes', n, Reached(filled));
      }
    }
    if Clear(filled) {
      ResolvedIsSet(nodes', n);
      TokenLedger(deposit, filled, nodes, done, ToSet(tokens[..k]), n, nodes');
      PayingFits(deposit, issued, filled, order, tokens, done, k, nodes);
    }
    assert tokens[..k + 1] == tokens[..k] + [n];
  }

  // ----- what is reached before the end -----

  /** All nodes but the dummy are completed. */
  ghost predicate Completed(deposit: int -> int, issued: int, filled: Nodes, order: seq<Name>, done: set<Name>, nodes: Nodes) {
    && Prepared(filled) && T.TopologicalOrder(filled, order) && Typed(nodes) && Grown(filled, nodes)
    && (forall n :: n in nodes && n !in filled ==> nodes[n].kind == Unknown)
    && (forall n :: n in filled && n != DUMMY && filled[n].kind != Token ==> n in done)
    && ParentsUpTo(filled, nodes, filled.Keys)
    && (DummyPure(nodes) ==>
          forall n :: n in filled && n != DUMMY ==> n in nodes && Settled(deposit, issued, nodes, n, DrainedBy(filled, done, n)))
    && (DummyPure(nodes) && Plain(filled) ==> Traced(filled, order, nodes, Reached(filled)))
    && (Clear(filled) ==> LedgerClosed(deposit, filled, nodes))
    && (Regular(filled) ==> AllFit(issued, filled))
  }

  /** No node but the dummy fails. */
  ghost predicate AllFit(issued: int, filled: Nodes) {
    && (forall n :: n in filled ==> StepFits(issued, filled, n))
    && forall n :: n in filled && n != DUMMY && filled[n].kind == Token ==> TokenFits(filled, n)
  }

  lemma {:induction false} PayingDone(deposit: int -> int, issued: int, filled: Nodes, order: seq<Name>, tokens: seq<Name>, done: set<Name>,
                                      nodes: Nodes)
    requires Paying(deposit, issued, filled, order, tokens, done, |tokens|, nodes)
    ensures Completed(deposit, issued, filled, order, done, nodes)
  {
    hide Prepared, T.Ordered, Traced, Ledger, Plain, Grown, AlmostTyped, DummyPure, DepsInside, Reached, OneChain, Sorted, Clear,
         AllSettled, Settled, TokenFits, StepFits, DrainedBy, Distinct, AllTaken, AllPaid;
    assert tokens[..|tokens|] == tokens;
    SortedAll(filled, ToSet(order), tokens, done);
    SortedTaken(filled, order, tokens, done);
    if DummyPure(nodes) {
      AllInOrder(deposit, issued, filled, ToSet(order), tokens, done, nodes, done + ToSet(tokens));
    }
    if Regular(filled) {
      FitAll(issued, filled, order, tokens, done);
    }
  }

  lemma {:induction false} FitAll(issued: int, filled: Nodes, order: seq<Name>, tokens: seq<Name>, done: set<Name>)
    requires T.TopologicalOrder(filled, order) && Sorted(filled, ToSet(order), tokens, done)
    ensures AllFit(issued, filled) <==> FitUpTo(issued, filled, order) && TokensFitUpTo(filled, tokens)
  {
    hide T.Ordered, TokenFits, StepFits;
    assert forall n :: n in order <==> n in ToSet(order);
    forall n | n in filled && n != DUMMY && filled[n].kind == Token
      ensures n in tokens
    {
      assert n in ToSet(order);
    }
  }

  lemma {:induction false} RunningFitted(deposit: int -> int, issued: int, filled: Nodes, order: seq<Name>, nodes: Nodes, tokens: seq<Name>,
                                         done: set<Name>)
    requires Running(deposit, issued, filled, order, |order|, nodes, tokens, done)
    ensures Regular(filled) ==> FitUpTo(issued, filled, order)
  {
    hide Prepared, T.TopologicalOrder, Collected, Traced, Ledger, Parented, Plain, Grown, AlmostTyped, DummyPure, DepsInside, Sorted,
         Regular, FitUpTo, Distinct;
    assert order[..|order|] == order;
  }

  lemma {:induction false} NotFitHere(issued: int, filled: Nodes, order: seq<Name>, k: nat)
    requires k < |order| && order[k] in filled
    ensures !StepFits(issued, filled, order[k]) ==> !FitUpTo(issued, filled, order)
  {
    hide StepFits;
    assert order[k] in order;
  }

  lemma {:induction false} DescribedDummy(nodes: Nodes)
    requires Described(nodes)
    ensures DUMMY in nodes
  {
  }

  lemma {:induction false} PayingFitted(deposit: int -> int, issued: int, filled: Nodes, order: seq<Name>, tokens: seq<Name>,
                                        done: set<Name>, nodes: Nodes)
    requires Paying(deposit, issued, filled, order, tokens, done, |tokens|, nodes)
    ensures Regular(filled) ==> TokensFitUpTo(filled, tokens)
  {
    hide Prepared, T.TopologicalOrder, Traced, Ledger, Plain, Grown, AlmostTyped, DummyPure, Sorted, Regular, TokensFitUpTo, Distinct,
         AllSettled;
    assert tokens[..|tokens|] == tokens;
  }

  lemma {:induction false} RegularIsClear(nodes: Nodes)
    requires Regular(nodes)
    ensures Clear(nodes)
  {
  }

  lemma {:induction false} NotAllFit(issued: int, filled: Nodes, order: seq<Name>)
    requires T.TopologicalOrder(filled, order)
    ensures AllFit(issued, filled) ==> FitUpTo(issued, filled, order)
  {
    hide T.Ordered, TokenFits, StepFits;
    assert forall n :: n in order <==> n in ToSet(order);
  }

  lemma {:induction false} RunningAllFit(deposit: int -> int, issued: int, filled: Nodes, order: seq<Name>, nodes: Nodes, tokens: seq<Name>,
                                         done: set<Name>)
    requires Running(deposit, issued, filled, order, |order|, nodes, tokens, done)
    ensures AllFit(issued, filled) <==> FitUpTo(issued, filled, order) && TokensFitUpTo(filled, tokens)
  {
    hide Prepared, T.TopologicalOrder, Collected, Traced, Ledger, Parented, Plain, Grown, AlmostTyped, DummyPure, DepsInside, Sorted,
         Regular, FitUpTo, TokensFitUpTo, AllFit, Distinct;
    assert order[..|order|] == order;
    FitAll(issued, filled, order, tokens, done);
  }

  // ----- the description and the run -----

  /** Nothing is described of the dummy, and once gaps are filled, nobody takes HTR from it: neither a
      transaction nor, for the deposit, a token node. */
  ghost predicate Unused(deposit: int -> int, nodes: Nodes) {
    DUMMY in nodes && Idle(deposit, Ready(nodes))
  }

  lemma {:induction false} FinishesIff(deposit: int -> int, issued: int, nodes: Nodes)
    requires DUMMY in nodes
    ensures Finishes(deposit, issued, nodes) <==>
            && (forall n :: n in nodes ==> Skipped(nodes, n) || ZerosAreFree(nodes[n].outputs))
            && !T.Cyclic(nodes) && !T.Missing(nodes) && AllFit(issued, Ready(nodes)) && DummyFits(deposit, Ready(nodes))
  {
    hide ZerosAreFree, T.Cyclic, T.Missing, StepFits, TokenFits, DummyFits, ReadyNode;
  }

  lemma {:induction false} ReadyAt(nodes: Nodes, n: Name)
    requires n in nodes
    ensures Ready(nodes)[n] == Known(nodes[n]).(outputs := Ready(nodes)[n].outputs)
    ensures n == DUMMY || nodes[n].kind == Genesis ==> Ready(nodes)[n] == Known(nodes[n])
  {
  }

  /** Filling gaps does not touch what makes a description regular. */
  lemma {:induction false} RegularReady(nodes: Nodes)
    ensures Regular(nodes) ==> Regular(Ready(nodes))
    ensures PlainKinds(nodes) ==> PlainKinds(Ready(nodes))
    ensures DUMMY in nodes ==> Ready(nodes)[DUMMY] == Known(nodes[DUMMY])
  {
    hide ReadyNode;
    var filled := Ready(nodes);
    forall n | n in nodes
      ensures filled[n] == Known(nodes[n]).(outputs := filled[n].outputs)
      ensures n == DUMMY || nodes[n].kind == Genesis ==> filled[n] == Known(nodes[n])
    {
      ReadyAt(nodes, n);
    }
    if OneChain(nodes) {
      forall n, p | n in filled && filled[n].kind == Block && IsParentBlock(filled, n, p)
        ensures GENESIS_BLOCK !in filled[n].parents
      {
        assert IsParentBlock(nodes, n, p);
      }
    }
  }

  /** Whether the dummy fails at the end, and whether it is removed. */
  lemma {:induction false} CompletedDummy(deposit: int -> int, issued: int, nodes: Nodes, order: seq<Name>, done: set<Name>,
                                          completed: Nodes)
    requires DUMMY in nodes && Completed(deposit, issued, Ready(nodes), order, done, completed)
    ensures DUMMY in completed && Typed(completed)
    ensures Regular(nodes) ==>
              AllFit(issued, Ready(nodes)) &&
              (Resolved(completed, DUMMY) && Tokens(completed, DUMMY) <= {HTR} && Net(completed, DUMMY, HTR) <= 0 <==>
               DummyFits(deposit, Ready(nodes)))
    ensures PlainKinds(nodes) && Resolved(completed, DUMMY) ==> (Tokens(completed, DUMMY) == {} <==> Unused(deposit, nodes))
  {
    hide Prepared, T.TopologicalOrder, Settled, DrainedBy, Traced, Plain, AlmostTyped, DummyPure, OneChain, AllFit, Resolved, Tokens, Net,
         DummyFits, Idle, ReadyNode, LedgerClosed, Reached, Extends;
    var filled := Ready(nodes);
    TypedNames(completed);
    RegularReady(nodes);
    if Regular(nodes) {
      DummyFitsIff(deposit, filled, completed);
    }
    if PlainKinds(nodes) && Resolved(completed, DUMMY) {
      if AllSet(filled[DUMMY].outputs) {
        IdleIff(deposit, filled, completed);
      } else {
        NotIdle(deposit, filled, completed);
      }
    }
  }

  lemma {:induction false} NotIdle(deposit: int -> int, filled: Nodes, nodes: Nodes)
    requires DUMMY in filled && DUMMY in nodes && Resolved(nodes, DUMMY) && Grown(filled, nodes) && !AllSet(filled[DUMMY].outputs)
    ensures Tokens(nodes, DUMMY) != {} && !Idle(deposit, filled)
  {
    NoTokens(nodes, DUMMY);
  }

  /** All that the description says about a finished run. */
  lemma {:induction false} RunDone(deposit: int -> int, issued: int, nodes: Nodes, order: seq<Name>, done: set<Name>, completed: Nodes,
                                   nodes': Nodes)
    requires DUMMY in nodes && PreparedFrom(nodes, Ready(nodes)) && Completed(deposit, issued, Ready(nodes), order, done, completed)
    requires DummyPure(completed) && Resolved(completed, DUMMY) && Finished(completed, nodes') && Linked(completed, nodes')
    requires DUMMY !in nodes' <==> Tokens(completed, DUMMY) == {}
    requires DUMMY !in nodes' ==> completed[DUMMY].outputs == []
    ensures forall n :: n in nodes' ==> (NodeDone(deposit, issued, nodes', n) <==> !Drained(nodes, n))
    ensures Preserves(nodes, nodes') && CompletedFrom(nodes, nodes')
    ensures PlainKinds(nodes) ==> (DUMMY !in nodes' <==> Unused(deposit, nodes))
    ensures Plain(nodes) ==>
              && (T.Missing(nodes') <==> Unused(deposit, nodes) && NamesDummy(nodes))
              && (T.Cyclic(nodes') <==> !Unused(deposit, nodes) && ReachesOrdinary(nodes))
  {
    hide Prepared, PreparedFrom, T.TopologicalOrder, Settled, DrainedBy, Traced, Plain, AlmostTyped, DummyPure, Resolved, Tokens, Unused,
         Ready, LedgerClosed, Reached, Grown, Finished, Linked, NodeDone, Drained, Preserves, T.Missing, T.Cyclic, NamesDummy,
         CompletedFrom, ParentsUpTo, ReachesOrdinary, AllFit, Regular, Clear, PlainKinds;
    var filled := Ready(nodes);
    PreservesRun(nodes, filled, completed, nodes');
    CompletedRun(nodes, filled, completed, nodes');
    forall n | n in nodes'
      ensures NodeDone(deposit, issued, nodes', n) <==> !Drained(nodes, n)
    {
      FinishedNode(deposit, issued, nodes, filled, done, completed, nodes', n);
    }
    CompletedDummy(deposit, issued, nodes, order, done, completed);
    if Plain(nodes) {
      PlainIsPlain(nodes);
      SameGraph(nodes, filled);
      SettledAtEnd(deposit, issued, filled, done, completed);
      GraphAtEnd(deposit, issued, filled, order, done, completed, nodes');
    }
  }

  lemma {:induction false} PlainIsPlain(nodes: Nodes)
    requires Plain(nodes)
    ensures PlainKinds(nodes)
  {
  }
}
