/** Descriptions that are built, and leave a node unbalanced, with a parent that is gone, or in a cycle. */
module FillerExample {
  import opened Wrappers
  import opened Sequences
  import opened DagNodes
  import opened Balances
  import opened DagBuilder
  import opened NodeBalance
  import opened FillerProgress
  import opened FillerGraph
  import opened FillerLedger
  import opened FillerRun
  import opened DefaultFiller
  import T = TopologicalSort

  const COIN := Name("coin")
  const SPENDER := Name("spender")
  const CHILD := Name("child")

  lemma {:induction false} Names()
    ensures COIN != SPENDER && COIN != CHILD && SPENDER != CHILD
    ensures {COIN, SPENDER, CHILD} !! {HTR, DUMMY, GENESIS_BLOCK, GENESIS_1, GENESIS_2}
    ensures HTR !in {DUMMY, GENESIS_BLOCK, GENESIS_1, GENESIS_2} && DUMMY !in {GENESIS_BLOCK, GENESIS_1, GENESIS_2}
    ensures GENESIS_BLOCK !in {GENESIS_1, GENESIS_2} && GENESIS_1 != GENESIS_2
  {
    assert |COIN.text| == 4 && |SPENDER.text| == 7 && |CHILD.text| == 5 && |HTR.text| == 3 && |DUMMY.text| == 5;
    assert CHILD.text[0] == 'c' && DUMMY.text[0] == 'd' && GENESIS_1.text[8] == '1' && GENESIS_2.text[8] == '2';
    assert |GENESIS_BLOCK.text| == 13 && |GENESIS_1.text| == 9 && |GENESIS_2.text| == 9;
  }

  lemma {:induction false} OneOutput(o: Output, t: Name)
    ensures Received([Some(o)], t) == Amount(Some(o), t)
  {
    var s := [Some(o)];
    assert s[..0] == [];
  }

  lemma {:induction false} TwoStatements(nodes: Nodes, a: Statement, b: Statement)
    ensures AfterAll(nodes, [a, b][..0]) == nodes && AfterAll(nodes, [a, b][..1]) == After(nodes, a)
    ensures AfterAll(nodes, [a, b]) == After(After(nodes, a), b)
  {
    hide After;
    assert [a][..0] == [];
    assert AfterAll(nodes, [a]) == After(nodes, a);
    assert [a, b][..1] == [a];
  }

  lemma {:induction false} ThreeStatements(nodes: Nodes, a: Statement, b: Statement, c: Statement)
    ensures AfterAll(nodes, [a, b, c][..0]) == nodes && AfterAll(nodes, [a, b, c][..1]) == After(nodes, a)
    ensures AfterAll(nodes, [a, b, c][..2]) == After(After(nodes, a), b)
    ensures AfterAll(nodes, [a, b, c]) == After(After(After(nodes, a), b), c)
  {
    hide After;
    TwoStatements(nodes, a, b);
    assert [a, b, c][..2] == [a, b] && [a, b, c][..1] == [a, b][..1];
  }

  // ----- descriptions without blocks and tokens, where nothing but the dummy spends -----

  /** The genesis nodes and the dummy are as they were, but for what the dummy depends on; everything
      else is a transaction or a blueprint without inputs. */
  ghost predicate Small(genesisTokens: int, nodes: Nodes) {
    && GENESIS_BLOCK in nodes && nodes[GENESIS_BLOCK] == NewNode(Genesis).(outputs := [Some(Output(genesisTokens, HTR, []))])
    && GENESIS_1 in nodes && nodes[GENESIS_1] == NewNode(Genesis) && GENESIS_2 in nodes && nodes[GENESIS_2] == NewNode(Genesis)
    && DUMMY in nodes && nodes[DUMMY] == NewNode(Transaction).(deps := nodes[DUMMY].deps)
    && forall n :: n in nodes && n !in GENESIS_NAMES && n != DUMMY ==>
         nodes[n].kind in {Unknown, Transaction, OnChainBlueprint} && nodes[n].inputs == {} && ZerosAreFree(nodes[n].outputs)
  }

  lemma {:induction false} SmallIsRegular(genesisTokens: int, nodes: Nodes)
    requires Small(genesisTokens, nodes)
    ensures Regular(nodes) && Plain(nodes) && PlainKinds(nodes)
    ensures forall n :: n in nodes ==> Skipped(nodes, n) || ZerosAreFree(nodes[n].outputs)
  {
    Names();
  }

  /** The same once gaps are filled. */
  ghost predicate SmallFilled(genesisTokens: int, nodes: Nodes, filled: Nodes) {
    && filled.Keys == nodes.Keys
    && GENESIS_BLOCK in filled && filled[GENESIS_BLOCK] == NewNode(Genesis).(outputs := [Some(Output(genesisTokens, HTR, []))])
    && GENESIS_1 in filled && filled[GENESIS_1] == NewNode(Genesis) && GENESIS_2 in filled && filled[GENESIS_2] == NewNode(Genesis)
    && DUMMY in filled && filled[DUMMY] == NewNode(Transaction).(deps := filled[DUMMY].deps)
    && forall n :: n in filled && n !in GENESIS_NAMES && n != DUMMY ==>
         && filled[n].kind in {Transaction, OnChainBlueprint} && filled[n].inputs == {} && AllSet(filled[n].outputs)
         && filled[n].balances == nodes[n].balances
  }

  lemma {:induction false} ReadySet(nodes: Nodes, n: Name)
    requires n in nodes && n != DUMMY && nodes[n].kind !in {Genesis, Block}
    ensures AllSet(Ready(nodes)[n].outputs)
  {
  }

  lemma {:induction false} SmallReady(genesisTokens: int, nodes: Nodes)
    requires Small(genesisTokens, nodes)
    ensures SmallFilled(genesisTokens, nodes, Ready(nodes))
  {
    hide ReadyNode, ZerosAreFree, AllSet;
    Names();
    ReadyAt(nodes, GENESIS_BLOCK);
    ReadyAt(nodes, GENESIS_1);
    ReadyAt(nodes, GENESIS_2);
    ReadyAt(nodes, DUMMY);
    forall n | n in nodes && n !in GENESIS_NAMES && n != DUMMY
      ensures Ready(nodes)[n] == Known(nodes[n]).(outputs := Ready(nodes)[n].outputs) && AllSet(Ready(nodes)[n].outputs)
    {
      ReadyAt(nodes, n);
      ReadySet(nodes, n);
    }
  }

  lemma {:induction false} SmallFits(issued: int, genesisTokens: int, nodes: Nodes, filled: Nodes)
    requires SmallFilled(genesisTokens, nodes, filled)
    ensures AllFit(issued, filled) && forall n :: n in filled ==> filled[n].kind != Token
  {
    hide BlockFits, IssueFits, TokenFits;
  }

  lemma {:induction false} SmallDummyFits(deposit: int -> int, genesisTokens: int, nodes: Nodes, filled: Nodes)
    requires SmallFilled(genesisTokens, nodes, filled)
    requires Taking(deposit, filled) == 0 || Taking(deposit, filled) <= genesisTokens
    ensures DummyFits(deposit, filled)
  {
    hide Taking, AllSet;
    var gb := Input(GENESIS_BLOCK, 0);
    assert Slot(filled, gb) == Some(Output(genesisTokens, HTR, []));
    SpentAdd(filled, {}, gb, HTR);
    assert {} + {gb} == {gb};
    assert OutputTokens([]) == {};
  }

  /** Then what is taken from the dummy is all that matters. */
  lemma {:induction false} SmallFinishes(deposit: int -> int, issued: int, genesisTokens: int, nodes: Nodes)
    requires Small(genesisTokens, nodes) && !T.Cyclic(nodes) && !T.Missing(nodes)
    requires Taking(deposit, Ready(nodes)) == 0 || Taking(deposit, Ready(nodes)) <= genesisTokens
    ensures Finishes(deposit, issued, nodes)
  {
    hide AllFit, ZerosAreFree, T.Cyclic, T.Missing, Taking, SmallFilled, DummyFits, Finishes, Ready;
    SmallIsRegular(genesisTokens, nodes);
    SmallReady(genesisTokens, nodes);
    SmallFits(issued, genesisTokens, nodes, Ready(nodes));
    SmallDummyFits(deposit, genesisTokens, nodes, Ready(nodes));
    FinishesIff(deposit, issued, nodes);
  }

  /** Without token nodes, only transactions take from the dummy. */
  lemma {:induction false} SmallTaking(deposit: int -> int, genesisTokens: int, nodes: Nodes, filled: Nodes)
    requires SmallFilled(genesisTokens, nodes, filled)
    ensures forall n :: DepositShortage(deposit, filled, n) == 0
    ensures Taking(deposit, filled) == Demand(filled, filled.Keys, HTR)
  {
    hide AllSet, Net, Demand;
    SmallFits(0, genesisTokens, nodes, filled);
    TotalZero(DepositShortages(deposit, filled), filled.Keys);
  }

  lemma {:induction false} SmallUnused(deposit: int -> int, genesisTokens: int, nodes: Nodes)
    requires Small(genesisTokens, nodes) && forall m :: Shortage(Ready(nodes), m, HTR) == 0
    ensures Unused(deposit, nodes) && Taking(deposit, Ready(nodes)) == 0
  {
    hide Ready, Shortage, DepositShortage, AllSet, ZerosAreFree, Taking;
    SmallReady(genesisTokens, nodes);
    SmallTaking(deposit, genesisTokens, nodes, Ready(nodes));
    TotalZero(Shortages(Ready(nodes), HTR), Ready(nodes).Keys);
  }

  /** One node depends on others that depend on nothing. */
  lemma {:induction false} Shallow(nodes: Nodes, last: Name)
    requires last in nodes && last !in AllDependencies(nodes[last]) && AllDependencies(nodes[last]) <= nodes.Keys
    requires forall n :: n in nodes && n != last ==> AllDependencies(nodes[n]) == {}
    ensures !T.Cyclic(nodes) && !T.Missing(nodes)
  {
    hide AllDependencies;
    forall p | T.Path(nodes, p) && |p| >= 2
      ensures p[0] != p[|p| - 1]
    {
      assert p[1] in AllDependencies(nodes[p[0]]);
      assert p[|p| - 1] in AllDependencies(nodes[p[|p| - 2]]);
    }
  }

  /** A node with one output of one token. */
  lemma {:induction false} Moves(nodes: Nodes, n: Name, o: Output, t: Name)
    requires n in nodes && nodes[n].inputs == {} && nodes[n].outputs == [Some(o)]
    ensures Net(nodes, n, t) == Amount(Some(o), t)
  {
    OneOutput(o, t);
  }

  lemma {:induction false} NodeReady(nodes: Nodes, n: Name)
    requires n in nodes && n != DUMMY && nodes[n].kind !in {Genesis, Block} && nodes[n].inputs == {}
    ensures nodes[n].outputs == [] ==> Ready(nodes)[n].outputs == [Some(Output(1, HTR, ["f4"]))]
    ensures |nodes[n].outputs| == 1 && nodes[n].outputs[0].Some? && nodes[n].outputs[0].value.amount != 0 ==>
              Ready(nodes)[n].outputs == nodes[n].outputs
    ensures Ready(nodes)[n].inputs == {} && Ready(nodes)[n].balances == nodes[n].balances
  {
  }

  lemma {:induction false} NoShortage(genesisTokens: int, nodes: Nodes, filled: Nodes, m: Name, t: Name)
    requires SmallFilled(genesisTokens, nodes, filled) && (m !in filled || m in GENESIS_NAMES || m == DUMMY)
    ensures Shortage(filled, m, t) == 0
  {
  }

  // ----- a blueprint that is not balanced -----

  const COIN_DESCRIPTION: seq<Statement> :=
    [OutputIs(SPENDER, 0, Output(10, COIN, [])), BalanceIs(COIN, HTR, 1), BlueprintAttribute(COIN)]

  /** What the description says. */
  ghost predicate Coined(genesisTokens: int, nodes: Nodes) {
    && Small(genesisTokens, nodes) && nodes[DUMMY].deps == {}
    && nodes.Keys == {GENESIS_BLOCK, GENESIS_1, GENESIS_2, DUMMY, COIN, SPENDER}
    && nodes[COIN] == Node(OnChainBlueprint, {}, [], {}, {}, map[HTR := 1])
    && nodes[SPENDER] == NewNode(Unknown).(outputs := [Some(Output(10, COIN, []))], deps := {COIN})
  }

  lemma {:induction false} NamedCoin(genesisTokens: int, nodes: Nodes)
    requires nodes == After(Initial(genesisTokens), COIN_DESCRIPTION[0])
    ensures nodes.Keys == {GENESIS_BLOCK, GENESIS_1, GENESIS_2, DUMMY, COIN, SPENDER} && nodes[COIN] == NewNode(Token)
    ensures forall n :: n in Initial(genesisTokens) ==> nodes[n] == Initial(genesisTokens)[n]
    ensures nodes[SPENDER] == NewNode(Unknown).(outputs := [Some(Output(10, COIN, []))], deps := {COIN})
  {
    Names();
  }

  lemma {:induction false} CoinSaid(genesisTokens: int)
    ensures Readable(Initial(genesisTokens), COIN_DESCRIPTION)
    ensures Coined(genesisTokens, AfterAll(Initial(genesisTokens), COIN_DESCRIPTION))
  {
    hide After, Coined, Refused, Initial;
    var named := After(Initial(genesisTokens), COIN_DESCRIPTION[0]);
    NamedCoin(genesisTokens, named);
    ThreeStatements(Initial(genesisTokens), COIN_DESCRIPTION[0], COIN_DESCRIPTION[1], COIN_DESCRIPTION[2]);
    BlueprintCoin(genesisTokens, named);
  }

  lemma {:induction false} BlueprintCoin(genesisTokens: int, named: Nodes)
    requires named == After(Initial(genesisTokens), COIN_DESCRIPTION[0])
    ensures !Refused(Initial(genesisTokens), COIN_DESCRIPTION[0]) && !Refused(named, COIN_DESCRIPTION[1])
    ensures !Refused(After(named, COIN_DESCRIPTION[1]), COIN_DESCRIPTION[2])
    ensures Coined(genesisTokens, After(After(named, COIN_DESCRIPTION[1]), COIN_DESCRIPTION[2]))
  {
    Names();
    NamedCoin(genesisTokens, named);
    var nodes := After(After(named, COIN_DESCRIPTION[1]), COIN_DESCRIPTION[2]);
    assert nodes[COIN] == Node(OnChainBlueprint, {}, [], {}, {}, map[HTR := 1]);
  }

  lemma {:induction false} CoinTakes(deposit: int -> int, genesisTokens: int, nodes: Nodes)
    requires Coined(genesisTokens, nodes)
    ensures Taking(deposit, Ready(nodes)) == 0 && Drained(nodes, COIN)
    ensures !T.Cyclic(nodes) && !T.Missing(nodes)
  {
    hide Ready, ZerosAreFree, AllSet, Net, Taking, T.Cyclic, T.Missing;
    Names();
    SmallReady(genesisTokens, nodes);
    NodeReady(nodes, COIN);
    NodeReady(nodes, SPENDER);
    var filled := Ready(nodes);
    forall m
      ensures Shortage(filled, m, HTR) == 0
    {
      if m == COIN {
        Moves(filled, COIN, Output(1, HTR, ["f4"]), HTR);
      } else if m == SPENDER {
        Moves(filled, SPENDER, Output(10, COIN, []), HTR);
      } else {
        NoShortage(genesisTokens, nodes, filled, m, HTR);
      }
    }
    SmallUnused(deposit, genesisTokens, nodes);
    Moves(nodes, SPENDER, Output(10, COIN, []), COIN);
    assert Drains(nodes, SPENDER, COIN);
    Shallow(nodes, SPENDER);
  }

  /**
   A build that finishes with `coin` unbalanced: it is named as the token of an output and then gets a
   blueprint attribute. Its one HTR is its wanted balance, so it is balanced first; then `spender`, which
   depends on it, takes ten of its token from it.
   */
  method BlueprintOnToken(genesisTokens: int, deposit: int -> int, issued: int) returns (r: Outcome, nodes: Nodes)
    ensures r.Done? && COIN in nodes && !NodeDone(deposit, issued, nodes, COIN)
  {
    hide Small, NodeDone, Drained, Finishes, Regular, Plain, PlainKinds, Unused, Initial, AfterAll, Readable, T.Cyclic, T.Missing, Taking,
         NamesDummy, ReachesOrdinary;
    ghost var said := AfterAll(Initial(genesisTokens), COIN_DESCRIPTION);
    CoinSaid(genesisTokens);
    CoinTakes(deposit, genesisTokens, said);
    SmallIsRegular(genesisTokens, said);
    SmallFinishes(deposit, issued, genesisTokens, said);
    Names();
    r, nodes := Build(COIN_DESCRIPTION, genesisTokens, deposit, issued);
  }

  // ----- a parent that is gone -----

  const CHILD_DESCRIPTION: seq<Statement> := [ParentEdge(CHILD, DUMMY), BalanceIs(CHILD, HTR, 1)]

  ghost predicate Leaning(genesisTokens: int, nodes: Nodes) {
    && Small(genesisTokens, nodes) && nodes[DUMMY].deps == {}
    && nodes.Keys == {GENESIS_BLOCK, GENESIS_1, GENESIS_2, DUMMY, CHILD}
    && nodes[CHILD] == Node(Unknown, {}, [], {DUMMY}, {}, map[HTR := 1])
  }

  lemma {:induction false} ChildSaid(genesisTokens: int)
    ensures Readable(Initial(genesisTokens), CHILD_DESCRIPTION)
    ensures Leaning(genesisTokens, AfterAll(Initial(genesisTokens), CHILD_DESCRIPTION))
  {
    Names();
    TwoStatements(Initial(genesisTokens), CHILD_DESCRIPTION[0], CHILD_DESCRIPTION[1]);
    var nodes := After(After(Initial(genesisTokens), CHILD_DESCRIPTION[0]), CHILD_DESCRIPTION[1]);
    assert nodes[CHILD] == Node(Unknown, {}, [], {DUMMY}, {}, map[HTR := 1]);
  }

  lemma {:induction false} ChildTakes(deposit: int -> int, genesisTokens: int, nodes: Nodes)
    requires Leaning(genesisTokens, nodes)
    ensures Taking(deposit, Ready(nodes)) == 0 && Unused(deposit, nodes) && NamesDummy(nodes)
    ensures !T.Cyclic(nodes) && !T.Missing(nodes)
  {
    hide Ready, ZerosAreFree, AllSet, Net, Taking, T.Cyclic, T.Missing, Unused;
    Names();
    SmallReady(genesisTokens, nodes);
    NodeReady(nodes, CHILD);
    var filled := Ready(nodes);
    forall m
      ensures Shortage(filled, m, HTR) == 0
    {
      if m == CHILD {
        Moves(filled, CHILD, Output(1, HTR, ["f4"]), HTR);
      } else {
        NoShortage(genesisTokens, nodes, filled, m, HTR);
      }
    }
    SmallUnused(deposit, genesisTokens, nodes);
    assert DUMMY in Named(nodes[CHILD]);
    Shallow(nodes, CHILD);
  }

  /** A build that finishes with a parent missing: `child` is given the one HTR it wants, so nothing is
      taken from the dummy, which is removed; `child` keeps it as a parent. */
  method ParentThatIsGone(genesisTokens: int, deposit: int -> int, issued: int) returns (r: Outcome, nodes: Nodes)
    ensures r.Done? && DUMMY !in nodes && T.Missing(nodes)
  {
    hide Small, NodeDone, Drained, Finishes, Regular, Plain, PlainKinds, Unused, Initial, AfterAll, Readable, T.Cyclic, T.Missing, Taking,
         NamesDummy, ReachesOrdinary;
    ghost var said := AfterAll(Initial(genesisTokens), CHILD_DESCRIPTION);
    ChildSaid(genesisTokens);
    ChildTakes(deposit, genesisTokens, said);
    SmallIsRegular(genesisTokens, said);
    SmallFinishes(deposit, issued, genesisTokens, said);
    r, nodes := Build(CHILD_DESCRIPTION, genesisTokens, deposit, issued);
  }

  // ----- a cycle -----

  const PAYER_DESCRIPTION: seq<Statement> := [OrderBefore(DUMMY, SPENDER), OutputIs(SPENDER, 0, Output(5, HTR, []))]

  ghost predicate Preceding(genesisTokens: int, nodes: Nodes) {
    && Small(genesisTokens, nodes) && nodes[DUMMY].deps == {SPENDER}
    && nodes.Keys == {GENESIS_BLOCK, GENESIS_1, GENESIS_2, DUMMY, SPENDER}
    && nodes[SPENDER] == NewNode(Unknown).(outputs := [Some(Output(5, HTR, []))])
  }

  lemma {:induction false} PayerSaid(genesisTokens: int)
    ensures Readable(Initial(genesisTokens), PAYER_DESCRIPTION)
    ensures Preceding(genesisTokens, AfterAll(Initial(genesisTokens), PAYER_DESCRIPTION))
  {
    Names();
    TwoStatements(Initial(genesisTokens), PAYER_DESCRIPTION[0], PAYER_DESCRIPTION[1]);
    var nodes := After(After(Initial(genesisTokens), PAYER_DESCRIPTION[0]), PAYER_DESCRIPTION[1]);
    assert nodes[SPENDER] == NewNode(Unknown).(outputs := [Some(Output(5, HTR, []))]);
  }

  lemma {:induction false} PayerTakes(deposit: int -> int, genesisTokens: int, nodes: Nodes)
    requires Preceding(genesisTokens, nodes)
    ensures Taking(deposit, Ready(nodes)) == 5 && !Unused(deposit, nodes)
  {
    hide Ready, ZerosAreFree, AllSet, Net, Taking;
    Names();
    SmallReady(genesisTokens, nodes);
    NodeReady(nodes, SPENDER);
    var filled := Ready(nodes);
    Moves(filled, SPENDER, Output(5, HTR, []), HTR);
    assert Shortage(filled, SPENDER, HTR) == 5;
    forall m | m != SPENDER
      ensures Shortage(filled, m, HTR) == 0
    {
      NoShortage(genesisTokens, nodes, filled, m, HTR);
    }
    SmallTaking(deposit, genesisTokens, nodes, filled);
    TotalWithin(Shortages(filled, HTR), {SPENDER}, filled.Keys);
    TotalAdd(Shortages(filled, HTR), {}, SPENDER);
    assert {} + {SPENDER} == {SPENDER};
  }

  lemma {:induction false} PayerGraph(genesisTokens: int, nodes: Nodes)
    requires Preceding(genesisTokens, nodes)
    ensures ReachesOrdinary(nodes) && !T.Cyclic(nodes) && !T.Missing(nodes)
  {
    hide ZerosAreFree, T.Cyclic, T.Missing;
    Names();
    var p := [DUMMY, SPENDER];
    assert T.Path(nodes, p) && Ordinary(nodes, p[|p| - 1]);
    Shallow(nodes, DUMMY);
  }

  /** A build that finishes with a cycle: `spender` is short of five HTR, so the dummy stays, and `spender`
      is made to depend on it; but the dummy depends on `spender`. */
  method CycleThroughDummy(genesisTokens: int, deposit: int -> int, issued: int) returns (r: Outcome, nodes: Nodes)
    ensures genesisTokens >= 5 ==> r.Done? && DUMMY in nodes && T.Cyclic(nodes)
  {
    hide Small, NodeDone, Drained, Finishes, Regular, Plain, PlainKinds, Unused, Initial, AfterAll, Readable, T.Cyclic, T.Missing, Taking,
         NamesDummy, ReachesOrdinary;
    ghost var said := AfterAll(Initial(genesisTokens), PAYER_DESCRIPTION);
    PayerSaid(genesisTokens);
    PayerTakes(deposit, genesisTokens, said);
    PayerGraph(genesisTokens, said);
    SmallIsRegular(genesisTokens, said);
    if genesisTokens >= 5 {
      SmallFinishes(deposit, issued, genesisTokens, said);
    }
    r, nodes := Build(PAYER_DESCRIPTION, genesisTokens, deposit, issued);
  }
}
