/** The filler completes a DAG description so that every transaction moves the tokens it should. */
module DefaultFiller {
  import opened Wrappers
  import opened DagNodes
  import opened Sequences
  import opened Balances
  import opened DagBuilder
  import opened NodeBalance
  import opened FillerProgress
  import opened FillerGraph
  import opened FillerLedger
  import opened FillerRun
  import T = TopologicalSort

  type Amounts = map<Name, int>

  function Get(m: Amounts, t: Name): int {
    if t in m then m[t] else 0
  }

  // ----- calculate_balance -----

  lemma {:induction false} AmountAdded(sums: Amounts, o: Output)
    ensures forall t :: Get(sums[o.token := Get(sums, o.token) + o.amount], t) == Get(sums, t) + Amount(Some(o), t)
  {
  }

  method SumInputs(nodes: Nodes, inputs: set<Input>) returns (r: Option<Amounts>)
    ensures r.Some? <==> forall i :: i in inputs ==> Slot(nodes, i).Some?
    ensures r.Some? ==> r.value.Keys == SlotTokens(nodes, inputs)
    ensures r.Some? ==> forall t :: Get(r.value, t) == Spent(nodes, inputs, t)
  {
    hide Spent, Slot, Amount, Get;
    var sums: Amounts := map[];
    var left := inputs;
    ghost var done: set<Input> := {};
    NothingSummed(nodes);
    while left != {}
      invariant left !! done && left + done == inputs
      invariant forall i :: i in done ==> Slot(nodes, i).Some?
      invariant sums.Keys == SlotTokens(nodes, done)
      invariant forall t :: Get(sums, t) == Spent(nodes, done, t)
      decreases |left|
    {
      var i :| i in left;
      var slot := Slot(nodes, i);
      if slot.None? {
        return None;
      }
      AmountAdded(sums, slot.value);
      forall t
        ensures Spent(nodes, done + {i}, t) == Spent(nodes, done, t) + Amount(slot, t)
      {
        SpentAdd(nodes, done, i, t);
      }
      sums := sums[slot.value.token := Get(sums, slot.value.token) + slot.value.amount];
      left := left - {i};
      done := done + {i};
    }
    assert done == inputs;
    r := Some(sums);
  }

  lemma {:induction false} NothingSummed(nodes: Nodes)
    ensures forall t :: Get(map[], t) == Spent(nodes, {}, t) == Received([], t) == 0
  {
  }

  method SumOutputs(outputs: seq<Option<Output>>) returns (r: Option<Amounts>)
    ensures r.Some? <==> forall k :: 0 <= k < |outputs| ==> outputs[k].Some?
    ensures r.Some? ==> r.value.Keys == OutputTokens(outputs)
    ensures r.Some? ==> forall t :: Get(r.value, t) == Received(outputs, t)
  {
    hide Amount, Get;
    var sums: Amounts := map[];
    NothingSummed(map[]);
    var k := 0;
    while k < |outputs|
      invariant 0 <= k <= |outputs|
      invariant forall j :: 0 <= j < k ==> outputs[j].Some?
      invariant sums.Keys == OutputTokens(outputs[..k])
      invariant forall t :: Get(sums, t) == Received(outputs[..k], t)
    {
      if outputs[k].None? {
        return None;
      }
      var o := outputs[k].value;
      AmountAdded(sums, o);
      assert outputs[..k + 1][..k] == outputs[..k];
      TokensStep(outputs, k);
      sums := sums[o.token := Get(sums, o.token) + o.amount];
      k := k + 1;
    }
    assert outputs[..k] == outputs;
    r := Some(sums);
  }

  lemma {:induction false} TokensStep(outputs: seq<Option<Output>>, k: nat)
    requires k < |outputs| && outputs[k].Some?
    ensures OutputTokens(outputs[..k + 1]) == OutputTokens(outputs[..k]) + {outputs[k].value.token}
  {
    assert outputs[..k + 1] == outputs[..k] + [outputs[k]];
    assert outputs[..k + 1][k] == outputs[k];
  }

  /** Outputs minus inputs for every token that occurs or has a target; none if something is not set. */
  method CalculateBalance(nodes: Nodes, n: Name) returns (r: Option<Amounts>)
    requires n in nodes
    ensures r.Some? <==> Resolved(nodes, n)
    ensures r.Some? ==> forall t :: Get(r.value, t) == Net(nodes, n, t)
    ensures r.Some? ==> r.value.Keys == Tokens(nodes, n)
  {
    hide Spent, Received, Slot;
    var ins := SumInputs(nodes, nodes[n].inputs);
    if ins.None? {
      return None;
    }
    var outs := SumOutputs(nodes[n].outputs);
    if outs.None? {
      return None;
    }
    var keys := ins.value.Keys + outs.value.Keys + nodes[n].balances.Keys;
    r := Some(map t | t in keys :: Get(outs.value, t) - Get(ins.value, t));
  }

  // ----- get_next_index -----

  /** The first free slot, or a new one at the end. */
  method GetNextIndex(outputs: seq<Option<Output>>) returns (outputs': seq<Option<Output>>, index: nat)
    ensures index < |outputs'| && outputs'[index].None?
    ensures forall k :: 0 <= k < index ==> outputs'[k].Some?
    ensures outputs' == if index < |outputs| then outputs else outputs + [None]
  {
    index := 0;
    while index < |outputs|
      invariant 0 <= index <= |outputs|
      invariant forall k :: 0 <= k < index ==> outputs[k].Some?
    {
      if outputs[index].None? {
        return outputs, index;
      }
      index := index + 1;
    }
    outputs' := outputs + [None];
  }

  // ----- gaps -----

  /** Free slots and placeholders are given one HTR; an output of zero must be a placeholder. */
  method FillGaps(outputs: seq<Option<Output>>) returns (r: Option<seq<Option<Output>>>)
    ensures r.Some? <==> ZerosAreFree(outputs)
    ensures r.Some? ==> GapsFilled(outputs, r.value)
  {
    var filled := outputs;
    var k := 0;
    while k < |outputs|
      invariant 0 <= k <= |outputs| == |filled|
      invariant filled[k..] == outputs[k..] && GapsFilled(outputs[..k], filled[..k]) && ZerosAreFree(outputs[..k])
    {
      assert outputs[k..][0] == outputs[k] == filled[k];
      if outputs[k].None? {
        filled := filled[k := Some(Output(1, HTR, ["f5"]))];
      } else if outputs[k].value.amount == 0 {
        if !Placeholder(outputs[k].value) {
          return None;
        }
        filled := filled[k := Some(Output(1, HTR, ["f6"]))];
      }
      GapsStep(outputs, filled, k);
      k := k + 1;
    }
    assert outputs[..k] == outputs && filled[..k] == filled;
    r := Some(filled);
  }

  lemma {:induction false} GapsStep(a: seq<Option<Output>>, b: seq<Option<Output>>, k: nat)
    requires k < |a| == |b| && GapsFilled(a[..k], b[..k])
    requires b[k] == GapFilled(a[k])
    ensures GapsFilled(a[..k + 1], b[..k + 1])
  {
    forall j | 0 <= j < k + 1
      ensures b[j] == GapFilled(a[j])
    {
      if j < k {
        assert a[..k][j] == a[j] && b[..k][j] == b[j];
      }
    }
  }

  lemma {:induction false} NoCandidates()
    ensures ToSet<Name>([]) == {}
  {
  }

  class Filler {
    const builder: Builder
    const deposit: int -> int
    const issued: int

    constructor (builder: Builder, deposit: int -> int, issued: int)
      ensures this.builder == builder && this.deposit == deposit && this.issued == issued
    {
      this.builder, this.deposit, this.issued := builder, deposit, issued;
    }

    method PlaceOutput(name: Name, o: Output) returns (index: nat)
      requires name in builder.nodes
      modifies builder
      ensures name in builder.nodes && Placed(old(builder.nodes)[name].outputs, index, o, builder.nodes[name].outputs)
      ensures builder.nodes == old(builder.nodes)[name := old(builder.nodes)[name].(outputs := builder.nodes[name].outputs)]
    {
      var outputs;
      outputs, index := GetNextIndex(builder.nodes[name].outputs);
      builder.nodes := builder.nodes[name := builder.nodes[name].(outputs := outputs[index := Some(o)])];
    }

    /** Adds candidates as parents until there are `target` of them, or no more candidates. */
    method FillParents(name: Name, target: nat, candidates: seq<Name>)
      requires name in builder.nodes
      modifies builder
      ensures name in builder.nodes
      ensures builder.nodes == old(builder.nodes)[name := old(builder.nodes)[name].(parents := builder.nodes[name].parents)]
      ensures old(builder.nodes)[name].parents <= builder.nodes[name].parents
      ensures builder.nodes[name].parents <= old(builder.nodes)[name].parents + ToSet(Sources(candidates))
      ensures |builder.nodes[name].parents| ==
              if builder.nodes[name].kind == Genesis then |old(builder.nodes)[name].parents|
              else FilledCount(old(builder.nodes)[name].parents, target, ToSet(Sources(candidates)))
    {
      var node := builder.nodes[name];
      if node.kind == Genesis || |node.parents| >= target {
        return;
      }
      var from := Sources(candidates);
      var parents := node.parents;
      var k := 0;
      assert ToSet(from[..0]) == {};
      while k < |from| && |parents| < target
        invariant 0 <= k <= |from|
        invariant parents == node.parents + ToSet(from[..k]) && |parents| <= target
      {
        assert from[..k + 1] == from[..k] + [from[k]];
        parents := parents + {from[k]};
        k := k + 1;
      }
      assert from[..|from|] == from;
      T.Smaller(parents, node.parents + ToSet(from));
      builder.nodes := builder.nodes[name := node.(parents := parents)];
    }

    /** A new output of the dummy, which spends the genesis block. */
    method TakeFromDummy(amount: int) returns (i: Input)
      requires DUMMY in builder.nodes
      modifies builder
      ensures Taken(old(builder.nodes), amount, HTR, i, builder.nodes)
      ensures DUMMY in builder.nodes && Refers(old(builder.nodes)[DUMMY], builder.nodes[DUMMY], GENESIS_NAMES, iset{GENESIS_BLOCK})
      ensures |builder.nodes[DUMMY].parents| ==
              if builder.nodes[DUMMY].kind == Genesis then |old(builder.nodes)[DUMMY].parents|
              else FilledCount(old(builder.nodes)[DUMMY].parents, 2, {GENESIS_1, GENESIS_2})
      ensures amount != 0 ==> DummyGives(old(builder.nodes), builder.nodes, amount)
    {
      hide AlmostTyped, Taken, Placed, FilledCount, Given;
      ghost var before := builder.nodes;
      var dummy := builder.nodes[DUMMY];
      builder.nodes := builder.nodes[DUMMY := dummy.(inputs := dummy.inputs + {Input(GENESIS_BLOCK, 0)})];
      FillParents(DUMMY, 2, []);
      assert ToSet(Sources([])) == {GENESIS_1, GENESIS_2};
      var index := PlaceOutput(DUMMY, Output(amount, HTR, ["f1"]));
      i := Input(DUMMY, index);
      TakenFromDummy(before, amount, index, builder.nodes);
      if amount != 0 {
        GivenPlaced(before[DUMMY].outputs, index, Output(amount, HTR, ["f1"]), builder.nodes[DUMMY].outputs);
      }
    }

    /** A new output of the token's node. */
    method TakeFromToken(amount: int, token: Name) returns (i: Input)
      requires token != HTR
      modifies builder
      ensures Taken(old(builder.nodes), amount, token, i, builder.nodes)
      ensures token in old(builder.nodes) ==>
                && Placed(old(builder.nodes)[token].outputs, i.index, Output(amount, token, ["f2"]), builder.nodes[token].outputs)
                && builder.nodes == old(builder.nodes)[token := old(builder.nodes)[token].(outputs := builder.nodes[token].outputs)]
    {
      hide AlmostTyped;
      ghost var before := builder.nodes;
      if token !in builder.nodes {
        builder.nodes := builder.nodes[token := NewNode(Unknown)];
      }
      var index := PlaceOutput(token, Output(amount, token, ["f2"]));
      i := Input(token, index);
      if Typed(before) && TokenName(before, token) {
        TypedPlaced(before, token, index, Output(amount, token, ["f2"]), builder.nodes[token]);
      }
    }

    /** An input worth `amount`: from the dummy for HTR, from the token's node for another token. */
    method FindTxin(amount: int, token: Name, ghost n: Name, ghost homes: iset<Name>) returns (i: Input)
      requires DUMMY in builder.nodes
      modifies builder
      ensures Taken(old(builder.nodes), amount, token, i, builder.nodes)
      ensures token != HTR && token in old(builder.nodes) ==>
                && Placed(old(builder.nodes)[token].outputs, i.index, Output(amount, token, ["f2"]), builder.nodes[token].outputs)
                && builder.nodes == old(builder.nodes)[token := old(builder.nodes)[token].(outputs := builder.nodes[token].outputs)]
      ensures n != DUMMY ==> Wired(old(builder.nodes), builder.nodes, n, {}, homes)
      ensures token == HTR && amount != 0 ==> DummyGives(old(builder.nodes), builder.nodes, amount)
    {
      hide Taken, Refers, DummyGives;
      ghost var before := builder.nodes;
      if token == HTR {
        i := TakeFromDummy(amount);
        TakenGrows(before, amount, token, i, builder.nodes);
        if n != DUMMY {
          WiredDummy(before, builder.nodes, n, {}, homes);
        }
      } else {
        i := TakeFromToken(amount, token);
        TakenGrows(before, amount, token, i, builder.nodes);
        WiredToken(before, builder.nodes, token, n, {}, homes);
      }
    }

    /**
     Balances a node: afterwards it moves exactly its targets, unless it gave out too much of a token
     of its own name. Every other node gets outputs of its own token for what this one is short of.
     */
    method BalanceNode(n: Name) returns (r: Outcome)
      requires n in builder.nodes && DUMMY in builder.nodes
      modifies builder
      ensures r.Done? <==> Resolved(old(builder.nodes), n)
      ensures r.Done? ==> Balancing(old(builder.nodes), builder.nodes, n, {})
      ensures r.Done? && n != DUMMY ==> Wired(old(builder.nodes), builder.nodes, n, {}, Homes(old(builder.nodes), n))
      ensures r.Done? && n != DUMMY && !Short(old(builder.nodes), n, DUMMY) ==>
                DummyGives(old(builder.nodes), builder.nodes, Lack(old(builder.nodes), n, HTR))
      ensures r.Done? && n != DUMMY ==> (Balanced(builder.nodes, n) <==> n == HTR || !Short(old(builder.nodes), n, n))
    {
      hide Balancing, Taken, Resolved, Net, Placed, Balanced, Wired, DummyGives, Tidy;
      ghost var before := builder.nodes;
      var balance := CalculateBalance(builder.nodes, n);
      if balance.None? {
        return Raised;
      }
      var left := balance.value.Keys;
      BalancingStart(before, n, left);
      TidyStart(before, n, left);
      while left != {}
        invariant n in builder.nodes && DUMMY in builder.nodes && builder.nodes[n].balances == before[n].balances
        invariant left <= balance.value.Keys
        invariant Balancing(before, builder.nodes, n, left) && Tidy(before, builder.nodes, n, left)
        decreases |left|
      {
        var t :| t in left;
        var diff := balance.value[t] - Target(builder.nodes[n], t);
        assert balance.value[t] == Net(before, n, t) by { assert Get(balance.value, t) == balance.value[t]; }
        ghost var nodes0 := builder.nodes;
        if diff < 0 {
          var index := PlaceOutput(n, Output(-diff, t, ["f3"]));
          SurplusStep(before, nodes0, n, left, t, index, Output(-diff, t, ["f3"]), builder.nodes);
          TidySkip(before, nodes0, n, left, t, builder.nodes);
        } else if diff > 0 {
          var i := FindTxin(diff, t, n, Homes(before, n));
          ghost var nodes1 := builder.nodes;
          BalancingNode(before, nodes0, n, left);
          assert n in nodes1 by { TakenGrows(nodes0, diff, t, i, nodes1); }
          builder.nodes := builder.nodes[n := builder.nodes[n].(inputs := builder.nodes[n].inputs + {i})];
          assert Short(before, n, t) && Lack(before, n, t) == diff;
          TidyShort(before, nodes0, n, left, t, i, nodes1, builder.nodes);
          if Home(t) != n {
            ShortStep(before, nodes0, n, left, t, i, Output(diff, t, ["f2"]), nodes1, builder.nodes);
          } else if n == DUMMY {
            DummyStep(before, nodes0, left, t, diff, i, nodes1, builder.nodes);
          } else {
            OwnStep(before, nodes0, n, left, i, Output(diff, t, ["f2"]), nodes1, builder.nodes);
          }
        } else {
          EvenStep(before, nodes0, n, left, t);
          assert nodes0 == nodes0[n := nodes0[n].(outputs := nodes0[n].outputs)];
          TidySkip(before, nodes0, n, left, t, nodes0);
        }
        left := left - {t};
        BalancingNode(before, builder.nodes, n, left);
      }
      if n != DUMMY {
        BalancingDone(before, builder.nodes, n);
        TidyDone(before, builder.nodes, n);
      }
      r := Done;
    }

    /** The one block among the parents of a block; a second one fails. Parents without a node get one. */
    method FindParentBlock(n: Name) returns (r: Outcome, parent: Option<Name>)
      requires Typed(builder.nodes) && n in builder.nodes
      modifies builder
      ensures Typed(builder.nodes) && Opened(old(builder.nodes), builder.nodes)
      ensures builder.nodes.Keys <= old(builder.nodes).Keys + old(builder.nodes)[n].parents
      ensures r.Done? <==> forall p, q :: IsParentBlock(old(builder.nodes), n, p) && IsParentBlock(old(builder.nodes), n, q) ==> p == q
      ensures r.Done? ==> old(builder.nodes)[n].parents <= builder.nodes.Keys
      ensures r.Done? ==> forall p :: IsParentBlock(old(builder.nodes), n, p) <==> parent == Some(p)
    {
      hide AlmostTyped, TypedNode;
      ghost var before := builder.nodes;
      parent := None;
      var left := builder.nodes[n].parents;
      while left != {}
        invariant n in builder.nodes && left <= builder.nodes[n].parents
        invariant Typed(builder.nodes) && Opened(before, builder.nodes)
        invariant before[n].parents - left <= builder.nodes.Keys <= before.Keys + before[n].parents
        invariant forall p :: IsParentBlock(before, n, p) && p !in left <==> parent == Some(p)
        decreases |left|
      {
        var p :| p in left;
        if p !in builder.nodes {
          NodeCreated(builder.nodes, HTR, p, Unknown);
          builder.nodes := builder.nodes[p := NewNode(Unknown)];
        }
        assert IsParentBlock(before, n, p) <==> builder.nodes[p].kind == Block;
        if builder.nodes[p].kind == Block {
          if parent.Some? {
            assert IsParentBlock(before, n, parent.value);
            return Raised, parent;
          }
          parent := Some(p);
        }
        left := left - {p};
      }
      r := Done;
    }

    /** The parents that a block can take over from its parent block: all but blocks; each must have a node. */
    method ParentCandidates(names: set<Name>) returns (r: Outcome, candidates: seq<Name>)
      ensures r.Done? <==> forall c :: c in names && c != GENESIS_BLOCK ==> c in builder.nodes
      ensures r.Done? ==>
                ToSet(candidates) ==
                set c | c in names && c != GENESIS_BLOCK && c in builder.nodes && builder.nodes[c].kind != Block
    {
      candidates := [];
      var left := names;
      while left != {}
        invariant left <= names
        invariant forall c :: c in names - left && c != GENESIS_BLOCK ==> c in builder.nodes
        invariant ToSet(candidates) ==
                  set c | c in names - left && c != GENESIS_BLOCK && c in builder.nodes && builder.nodes[c].kind != Block
        decreases |left|
      {
        var c :| c in left;
        if c != GENESIS_BLOCK {
          if c !in builder.nodes {
            return Raised, candidates;
          }
          if builder.nodes[c].kind != Block {
            assert ToSet(candidates + [c]) == ToSet(candidates) + {c};
            candidates := candidates + [c];
          }
        }
        left := left - {c};
      }
      r := Done;
    }

    /** A block gets exactly three parents, with the genesis block if it had no block among them; it
        fails exactly if that cannot be. */
    method FillBlockParents(n: Name) returns (r: Outcome)
      requires Typed(builder.nodes) && n in builder.nodes && builder.nodes[n].kind == Block
      modifies builder
      ensures r.Done? <==> ParentsFit(old(builder.nodes), n)
      ensures r.Done? ==> Typed(builder.nodes) && n in builder.nodes
      ensures r.Done? ==> builder.nodes[n] == old(builder.nodes)[n].(parents := builder.nodes[n].parents)
      ensures r.Done? ==> |builder.nodes[n].parents| == 3 && old(builder.nodes)[n].parents <= builder.nodes[n].parents
      ensures r.Done? ==> forall m :: m in old(builder.nodes) && m != n ==> m in builder.nodes && builder.nodes[m] == old(builder.nodes)[m]
      ensures r.Done? ==> forall m :: m in builder.nodes && m !in old(builder.nodes) ==> builder.nodes[m].kind == Unknown
      ensures r.Done? ==> Rewired(old(builder.nodes), builder.nodes, n) && ParentsTaken(old(builder.nodes), builder.nodes, n)
    {
      hide AlmostTyped, TypedNode, ParentsFit, FilledCount, SourceSet, Candidates, IsParentBlock, ToSet, Sources, Rewired, ParentsTaken;
      ghost var before := builder.nodes;
      var parent;
      r, parent := FindParentBlock(n);
      if r.Raised? {
        TwoParentBlocks(before, n);
        return;
      }
      ghost var found := builder.nodes;
      FitsIff(before, n, parent);
      var candidates: seq<Name> := [];
      if parent.None? {
        NoCandidates();
        builder.nodes := builder.nodes[n := builder.nodes[n].(parents := builder.nodes[n].parents + {GENESIS_BLOCK})];
      } else {
        r, candidates := ParentCandidates(builder.nodes[parent.value].parents);
        CandidatesAgree(before, found, n, parent.value);
        if r.Raised? {
          return;
        }
      }
      SourcesOf(candidates);
      FillParents(n, 3, candidates);
      TypedSpending(found, n, builder.nodes[n]);
      assert builder.nodes == found[n := builder.nodes[n]];
      if |builder.nodes[n].parents| != 3 {
        return Raised;
      }
      CandidatesWithin(before, parent);
      DummyIsNoBlock(before);
      RewiredBlock(before, builder.nodes, n, parent, ToSet(candidates));
      ParentsTakenFrom(before, builder.nodes, n, parent, ToSet(candidates));
    }

    /** Fills in the tokens a block issues; it fails exactly if the block spends something, has more than one
        output, cannot have three parents, or gives out too much. */
    method FillBlock(n: Name) returns (r: Outcome)
      requires Typed(builder.nodes) && n in builder.nodes && builder.nodes[n].kind == Block
      modifies builder
      ensures r.Done? <==>
              && old(builder.nodes)[n].inputs == {} && |old(builder.nodes)[n].outputs| <= 1
              && ParentsFit(old(builder.nodes), n) && IssueFits(issued, old(builder.nodes), n)
      ensures r.Done? ==> n in builder.nodes && BlockFilled(issued, builder.nodes, n) && Typed(builder.nodes)
      ensures r.Done? ==> Issued(issued - Net(old(builder.nodes), n, HTR), old(builder.nodes)[n], builder.nodes[n])
      ensures r.Done? ==> Grown(old(builder.nodes), builder.nodes)
      ensures r.Done? ==> forall m :: m in old(builder.nodes) && m != n ==> builder.nodes[m] == old(builder.nodes)[m]
      ensures r.Done? ==> forall m :: m in builder.nodes && m !in old(builder.nodes) ==> builder.nodes[m].kind == Unknown
      ensures r.Done? ==> Rewired(old(builder.nodes), builder.nodes, n) && ParentsTaken(old(builder.nodes), builder.nodes, n)
    {
      hide AlmostTyped, ParentsFit, IssueFits, BlockFilled, Extends, Rewired, ParentsTaken;
      ghost var before := builder.nodes;
      if builder.nodes[n].inputs != {} || |builder.nodes[n].outputs| > 1 {
        return Raised;
      }
      r := FillBlockParents(n);
      if r.Raised? {
        return;
      }
      ghost var middle := builder.nodes;
      IssueSame(issued, before, middle, n);
      GrownByParents(before, middle, n);
      r := IssueTokens(n);
      if r.Done? {
        GrownTransitive(before, middle, builder.nodes);
        DummyIsNoBlock(before);
        RewiredOutputs(before, middle, builder.nodes, n);
        ParentsTakenSame(before, middle, builder.nodes, n);
      }
    }

    /** Appends an output for what is missing of the issued tokens. */
    method IssueTokens(n: Name) returns (r: Outcome)
      requires Typed(builder.nodes) && n in builder.nodes && builder.nodes[n].inputs == {}
      modifies builder
      ensures r.Done? <==> IssueFits(issued, old(builder.nodes), n)
      ensures r.Done? ==> n in builder.nodes && BlockFilled(issued, builder.nodes, n) && Typed(builder.nodes)
      ensures r.Done? ==> Grown(old(builder.nodes), builder.nodes)
      ensures r.Done? ==> builder.nodes == old(builder.nodes)[n := old(builder.nodes)[n].(outputs := builder.nodes[n].outputs)]
      ensures r.Done? ==> Issued(issued - Net(old(builder.nodes), n, HTR), old(builder.nodes)[n], builder.nodes[n])
    {
      hide AlmostTyped, Net, Slot, Extends, Tokens;
      var balance := CalculateBalance(builder.nodes, n);
      if balance.None? || !(balance.value.Keys <= {HTR}) {
        return Raised;
      }
      var diff := Get(balance.value, HTR);
      if diff < 0 || diff > issued {
        return Raised;
      }
      ghost var before := builder.nodes;
      GrownReflexive(before);
      if diff < issued {
        var o := Output(issued - diff, HTR, ["f7"]);
        var outputs := builder.nodes[n].outputs + [Some(o)];
        builder.nodes := builder.nodes[n := builder.nodes[n].(outputs := outputs)];
        NetPlaced(before, n, |before[n].outputs|, o, outputs, builder.nodes);
        TypedPlaced(before, n, |before[n].outputs|, o, builder.nodes[n]);
      }
      r := Done;
    }

    /** Balances the HTR of a token node against the deposit for what it mints. */
    method FillToken(n: Name) returns (r: Outcome)
      requires Typed(builder.nodes) && n in builder.nodes && n != DUMMY && builder.nodes[n].kind == Token
      modifies builder
      ensures r.Done? <==>
              Resolved(old(builder.nodes), n) && Tokens(old(builder.nodes), n) <= {HTR, n} && n in Tokens(old(builder.nodes), n)
      ensures r.Done? ==> n in builder.nodes && TokenFilled(deposit, builder.nodes, n) && Typed(builder.nodes)
      ensures r.Done? ==> Grown(old(builder.nodes), builder.nodes) && builder.nodes.Keys == old(builder.nodes).Keys
      ensures r.Done? ==> forall m :: m in old(builder.nodes) && m != n && m != DUMMY ==> builder.nodes[m] == old(builder.nodes)[m]
      ensures r.Done? ==> Rewired(old(builder.nodes), builder.nodes, n)
      ensures r.Done? ==> DummyGives(old(builder.nodes), builder.nodes, TokenLack(deposit, old(builder.nodes), n))
      ensures r.Done? ==> SameLinks(old(builder.nodes)[n], builder.nodes[n])
      ensures r.Done? && TokenFilled(deposit, old(builder.nodes), n) ==> builder.nodes == old(builder.nodes)
    {
      hide AlmostTyped, Net, Slot, Grown, Tokens, Placed, Taken, HtrReached, TokenFilled, Rewired, Wired, DummyGives;
      ghost var before := builder.nodes;
      assert n != HTR && DUMMY in builder.nodes by { TypedNames(before); }
      var balance := CalculateBalance(builder.nodes, n);
      if balance.None? || !(balance.value.Keys <= {HTR, n}) || n !in balance.value {
        return Raised;
      }
      var target := Target(builder.nodes[n], HTR) - deposit(balance.value[n]);
      var diff := Get(balance.value, HTR) - target;
      assert balance.value[n] == Get(balance.value, n);
      GrownReflexive(before);
      RewiredSelf(before, n);
      DummyGivesNothing(before, before);
      FilledTarget(deposit, before, n);
      if diff == 0 {
        AlreadyReached(before, n, target);
      }
      if diff < 0 {
        var o := Output(-diff, HTR, ["f8"]);
        var index := PlaceOutput(n, o);
        TokenSurplus(before, n, target, index, o, builder.nodes);
        RewiredOutputs(before, before, builder.nodes, n);
        DummyStays(before, before, builder.nodes, 0);
      } else if diff > 0 {
        var i := FindTxin(diff, HTR, n, iset{DUMMY});
        ghost var taken := builder.nodes;
        TakenFacts(before, diff, HTR, i, taken, n);
        builder.nodes := builder.nodes[n := builder.nodes[n].(inputs := builder.nodes[n].inputs + {i})];
        TokenShort(before, n, target, i, taken, builder.nodes);
        HomeOf(before, diff, HTR, i, taken);
        ReachedKeys(before, builder.nodes, n, target);
        RewiredToken(before, taken, builder.nodes, n, i);
        DummyFirst(before, before, taken, builder.nodes, diff);
      }
      TokenReached(deposit, before, builder.nodes, n, target);
      r := Done;
    }

    /** Takes the dummy out if it was never used, or gives it the rest of what it spends. */
    method FillDummy() returns (r: Outcome)
      requires DUMMY in builder.nodes
      modifies builder
      ensures r.Done? <==>
              && Resolved(old(builder.nodes), DUMMY) && Tokens(old(builder.nodes), DUMMY) <= {HTR}
              && Net(old(builder.nodes), DUMMY, HTR) <= 0
      ensures r.Done? && DUMMY in builder.nodes && Net(old(builder.nodes), DUMMY, HTR) == 0 ==> builder.nodes == old(builder.nodes)
      ensures r.Done? ==> DummyFilled(old(builder.nodes), builder.nodes)
      ensures r.Done? ==> (DUMMY !in builder.nodes <==> Tokens(old(builder.nodes), DUMMY) == {})
    {
      hide AlmostTyped, Net, Slot, Extends, Placed;
      ghost var before := builder.nodes;
      var balance := CalculateBalance(builder.nodes, DUMMY);
      if balance.None? {
        return Raised;
      }
      if balance.value == map[] {
        NoTokens(before, DUMMY);
        builder.nodes := builder.nodes - {DUMMY};
        return Done;
      }
      if balance.value.Keys != {HTR} || balance.value[HTR] > 0 {
        return Raised;
      }
      var diff := balance.value[HTR];
      assert diff == Get(balance.value, HTR);
      GrownReflexive(before);
      if diff < 0 {
        var o := Output(-diff, HTR, []);
        var index := PlaceOutput(DUMMY, o);
        NetPlaced(before, DUMMY, index, o, builder.nodes[DUMMY].outputs, builder.nodes);
      }
      r := Done;
    }

    /** Nodes of unknown kind become transactions. */
    method KnowKinds()
      requires Described(builder.nodes)
      modifies builder
      ensures Described(builder.nodes) && builder.nodes.Keys == old(builder.nodes).Keys
      ensures forall n :: n in builder.nodes ==> builder.nodes[n] == Known(old(builder.nodes)[n])
    {
      hide AlmostTyped, TypedNode, Referring;
      ghost var before := builder.nodes;
      var left := builder.nodes.Keys;
      while left != {}
        invariant left <= before.Keys == builder.nodes.Keys && Described(builder.nodes)
        invariant forall n :: n in before ==> builder.nodes[n] == if n in left then before[n] else Known(before[n])
        decreases |left|
      {
        var n :| n in left;
        if builder.nodes[n].kind == Unknown {
          KindGiven(builder.nodes, HTR, n, Transaction);
          WithNodeReferring(builder.nodes, n, Transaction);
          builder.nodes := builder.nodes[n := builder.nodes[n].(kind := Transaction)];
        }
        left := left - {n};
      }
    }

    /** Fills the gaps of one node; fails on an output of zero that is no placeholder. */
    method FillNodeOutputs(n: Name) returns (r: Outcome)
      requires Described(builder.nodes) && n in builder.nodes
      modifies builder
      ensures r.Done? <==> Skipped(old(builder.nodes), n) || ZerosAreFree(old(builder.nodes)[n].outputs)
      ensures r.Done? ==> Described(builder.nodes) && n in builder.nodes && NodeFilled(old(builder.nodes), n, builder.nodes[n])
      ensures r.Done? ==> builder.nodes == old(builder.nodes)[n := builder.nodes[n]]
    {
      hide AlmostTyped, Referring, GapsFilled;
      var node := builder.nodes[n];
      if Skipped(builder.nodes, n) {
        return Done;
      }
      var outputs := node.outputs;
      if node.inputs == {} && node.outputs == [] {
        outputs := [Some(Output(1, HTR, ["f4"]))];
      }
      var filled := FillGaps(outputs);
      if filled.None? {
        return Raised;
      }
      TypedAt(builder.nodes, n);
      ReferringAt(builder.nodes, n);
      FilledTyped(builder.nodes, n, node.(outputs := filled.value));
      NodeChanged(builder.nodes, HTR, n, node.(outputs := filled.value));
      ChangedReferring(builder.nodes, n, node.(outputs := filled.value));
      builder.nodes := builder.nodes[n := node.(outputs := filled.value)];
      r := Done;
    }

    /** Fills the gaps of all nodes. */
    method FillOutputs() returns (r: Outcome)
      requires Described(builder.nodes)
      modifies builder
      ensures r.Done? <==> forall n :: n in old(builder.nodes) ==>
                Skipped(old(builder.nodes), n) || ZerosAreFree(old(builder.nodes)[n].outputs)
      ensures r.Done? ==> Described(builder.nodes) && builder.nodes.Keys == old(builder.nodes).Keys
      ensures r.Done? ==> forall n :: n in builder.nodes ==> NodeFilled(old(builder.nodes), n, builder.nodes[n])
    {
      hide Described, NodeFilled, ZerosAreFree;
      ghost var before := builder.nodes;
      var left := builder.nodes.Keys;
      while left != {}
        invariant left <= before.Keys == builder.nodes.Keys && Described(builder.nodes)
        invariant forall n :: n in left ==> builder.nodes[n] == before[n]
        invariant forall n :: n in before && n !in left ==> Skipped(before, n) || ZerosAreFree(before[n].outputs)
        invariant forall n :: n in before && n !in left ==> NodeFilled(before, n, builder.nodes[n])
        decreases |left|
      {
        var n :| n in left;
        ghost var nodes0 := builder.nodes;
        r := FillNodeOutputs(n);
        if r.Raised? {
          return;
        }
        FilledHere(nodes0, before, n, builder.nodes[n]);
        left := left - {n};
      }
      r := Done;
    }

    /** Parents and tokens of an ordinary or blueprint transaction. */
    method FillTransaction(n: Name) returns (r: Outcome)
      requires Typed(builder.nodes) && n in builder.nodes && BalancedHere(builder.nodes, n)
      modifies builder
      ensures r.Done? <==> Resolved(old(builder.nodes), n)
      ensures r.Done? ==> NodeStep(issued, old(builder.nodes), builder.nodes, n) && builder.nodes.Keys == old(builder.nodes).Keys
      ensures r.Done? && n != DUMMY ==> Rewired(old(builder.nodes), builder.nodes, n)
      ensures r.Done? ==> ParentsStep(old(builder.nodes), builder.nodes, n)
    {
      hide AlmostTyped, Extends, Balanced, Balancing, Resolved, NodeStep, Rewired, Wired, Net, Target, DummyGives,
           ParentsFilled, FilledCount;
      ghost var before := builder.nodes;
      FillParents(n, 2, []);
      ghost var middle := builder.nodes;
      TypedSpending(before, n, middle[n]);
      assert middle == before[n := middle[n]];
      TypedNames(before);
      ParentsMoveNothing(before, middle, n);
      NotShortOfDummy(middle, n);
      r := BalanceNode(n);
      if r.Done? {
        BalancedNodeStep(issued, before, middle, builder.nodes, n);
        if n != DUMMY {
          GenesisParents(before, n);
          RewiredParents(before, middle, n);
          RewiredBalanced(before, middle, builder.nodes, n);
          TwoParentsFilled(before[n], middle[n]);
        }
        BalancedParents(before, middle, builder.nodes, n);
      }
    }

    /** Completes one node. */
    method FillNode(n: Name) returns (r: Outcome)
      requires Typed(builder.nodes) && n in builder.nodes
      modifies builder
      ensures r.Done? <==> NodeFits(issued, old(builder.nodes), n)
      ensures r.Done? ==> NodeStep(issued, old(builder.nodes), builder.nodes, n)
      ensures r.Done? && (n == DUMMY ==> old(builder.nodes)[n].kind == Transaction) ==> Rewired(old(builder.nodes), builder.nodes, n)
      ensures r.Done? ==> ParentsStep(old(builder.nodes), builder.nodes, n)
    {
      hide FilledCount, Sources, AlmostTyped, Extends, Resolved, BlockFilled, Net, Others, Rewired, ParentsFit, IssueFits,
           ParentsTaken, DummyGives;
      ghost var before := builder.nodes;
      GrownReflexive(before);
      RewiredSelf(before, n);
      TypedNames(before);
      r := Done;
      match builder.nodes[n].kind
      case Genesis =>
      case Block =>
        r := FillBlock(n);
        if r.Done? {
          ThreeParents(before, builder.nodes, n);
        }
      case Transaction =>
        if n != DUMMY {
          r := FillTransaction(n);
        }
      case OnChainBlueprint =>
        r := FillTransaction(n);
      case Token =>
        FillParents(n, 2, []);
        TypedSpending(before, n, builder.nodes[n]);
        assert builder.nodes == before[n := builder.nodes[n]];
        GrownByParents(before, builder.nodes, n);
        if n != DUMMY {
          GenesisParents(before, n);
          RewiredParents(before, builder.nodes, n);
          TwoParentsFilled(before[n], builder.nodes[n]);
        }
      case Unknown =>
        r := Raised;
    }

    /** Completes the nodes in their order, and collects the token nodes for later. */
    method FillInOrder(order: seq<Name>) returns (r: Outcome, tokens: seq<Name>, ghost done: set<Name>)
      requires Prepared(builder.nodes) && T.TopologicalOrder(builder.nodes, order)
      modifies builder
      ensures r.Done? ==> Running(deposit, issued, old(builder.nodes), order, |order|, builder.nodes, tokens, done)
      ensures Regular(old(builder.nodes)) ==> (r.Done? <==> FitUpTo(issued, old(builder.nodes), order))
    {
      hide Running, NodeStep, NodeFits, Rewired, Regular, StepFits, Prepared, T.TopologicalOrder, FitUpTo, AlmostTyped, AllDependencies,
           IsParentBlock, DepsInside, ToSet;
      ghost var filled := builder.nodes;
      tokens, done := [], {};
      RunningStart(deposit, issued, filled, order);
      var k := 0;
      while k < |order|
        invariant 0 <= k <= |order| && Running(deposit, issued, filled, order, k, builder.nodes, tokens, done)
      {
        var n := order[k];
        ghost var nodes0 := builder.nodes;
        RunningNext(deposit, issued, filled, order, k, nodes0, tokens, done);
        if Regular(filled) {
          RunningFits(deposit, issued, filled, order, k, nodes0, tokens, done);
          NotFitHere(issued, filled, order, k);
        }
        var isToken := builder.nodes[n].kind == Token;
        r := FillNode(n);
        if r.Raised? {
          return;
        }
        ghost var tokens0, done0 := tokens, done;
        if isToken {
          tokens := tokens + [n];
        } else if n != DUMMY {
          done := done + {n};
        }
        RunningStep(deposit, issued, filled, order, k, nodes0, tokens0, done0, builder.nodes, tokens, done);
        k := k + 1;
      }
      RunningFitted(deposit, issued, filled, order, builder.nodes, tokens, done);
      r := Done;
    }

    /** Completes the token nodes, once everything that takes tokens from them is done. */
    method FillTokens(tokens: seq<Name>, ghost filled: Nodes, ghost order: seq<Name>, ghost done: set<Name>) returns (r: Outcome)
      requires Paying(deposit, issued, filled, order, tokens, done, 0, builder.nodes)
      modifies builder
      ensures r.Done? ==> Paying(deposit, issued, filled, order, tokens, done, |tokens|, builder.nodes)
      ensures Regular(filled) ==> (r.Done? <==> TokensFitUpTo(filled, tokens))
    {
      hide Paying, TokenFilled, Rewired, Regular, TokenFits, Tokens, Resolved, DummyGives, Grown, AlmostTyped;
      var k := 0;
      while k < |tokens|
        invariant 0 <= k <= |tokens| && Paying(deposit, issued, filled, order, tokens, done, k, builder.nodes)
      {
        var n := tokens[k];
        ghost var nodes0 := builder.nodes;
        PayingNext(deposit, issued, filled, order, tokens, done, k, nodes0);
        if Regular(filled) {
          RegularIsClear(filled);
          PayingFits(deposit, issued, filled, order, tokens, done, k, nodes0);
        }
        r := FillToken(n);
        if r.Raised? {
          return;
        }
        PayingStep(deposit, issued, filled, order, tokens, done, k, nodes0, builder.nodes);
        k := k + 1;
      }
      PayingFitted(deposit, issued, filled, order, tokens, done, builder.nodes);
      r := Done;
    }

    /** All but blocks, genesis and the dummy itself come to depend on the dummy. */
    method DependOnDummy()
      requires DUMMY in builder.nodes
      modifies builder
      ensures builder.nodes.Keys == old(builder.nodes).Keys
      ensures forall n :: n in builder.nodes ==>
                builder.nodes[n] ==
                if n == DUMMY || old(builder.nodes)[n].kind in {Block, Genesis} then old(builder.nodes)[n]
                else old(builder.nodes)[n].(deps := old(builder.nodes)[n].deps + {DUMMY})
    {
      ghost var before := builder.nodes;
      var left := builder.nodes.Keys;
      while left != {}
        invariant left <= before.Keys == builder.nodes.Keys
        invariant forall n :: n in before ==>
                    builder.nodes[n] ==
                    if n in left || n == DUMMY || before[n].kind in {Block, Genesis} then before[n]
                    else before[n].(deps := before[n].deps + {DUMMY})
        decreases |left|
      {
        var n :| n in left;
        if builder.nodes[n].kind !in {Block, Genesis} && n != DUMMY {
          builder.nodes := builder.nodes[n := builder.nodes[n].(deps := builder.nodes[n].deps + {DUMMY})];
        }
        left := left - {n};
      }
    }

    /** Kinds, gaps and the order in which to complete the nodes. */
    method Begin() returns (r: Outcome, order: seq<Name>)
      requires Described(builder.nodes)
      modifies builder
      ensures r.Done? <==>
              && (forall n :: n in old(builder.nodes) ==> Skipped(old(builder.nodes), n) || ZerosAreFree(old(builder.nodes)[n].outputs))
              && !T.Cyclic(old(builder.nodes)) && !T.Missing(old(builder.nodes))
      ensures r.Done? ==> Prepared(builder.nodes) && PreparedFrom(old(builder.nodes), builder.nodes)
      ensures r.Done? ==> T.TopologicalOrder(builder.nodes, order)
    {
      hide Described, NodeFilled, T.Cyclic, T.Missing, T.TopologicalOrder, Prepared, PreparedFrom, ZerosAreFree;
      ghost var before := builder.nodes;
      order := [];
      KnowKinds();
      ghost var known := builder.nodes;
      KnownSkips(before, known);
      r := FillOutputs();
      if r.Raised? {
        return;
      }
      PreparedAll(before, known, builder.nodes);
      SameDependencies(before, builder.nodes);
      SameDependencies(builder.nodes, before);
      var raised;
      order, raised := T.TopologicalSorting(builder.nodes);
      if raised {
        r := Raised;
      }
    }

    /** The nodes in their order, then the tokens: everything but the dummy. */
    method Complete(order: seq<Name>) returns (r: Outcome, ghost done: set<Name>)
      requires Prepared(builder.nodes) && T.TopologicalOrder(builder.nodes, order)
      modifies builder
      ensures r.Done? ==> Completed(deposit, issued, old(builder.nodes), order, done, builder.nodes)
      ensures Regular(old(builder.nodes)) ==> (r.Done? <==> AllFit(issued, old(builder.nodes)))
    {
      hide Running, Paying, Completed, Regular, AllFit, FitUpTo, TokensFitUpTo, T.TopologicalOrder;
      ghost var before := builder.nodes;
      var tokens;
      r, tokens, done := FillInOrder(order);
      if r.Raised? {
        NotAllFit(issued, before, order);
        return;
      }
      PayingStart(deposit, issued, before, order, builder.nodes, tokens, done);
      RunningAllFit(deposit, issued, before, order, builder.nodes, tokens, done);
      r := FillTokens(tokens, before, order, done);
      if r.Done? {
        PayingDone(deposit, issued, before, order, tokens, done, builder.nodes);
      }
    }

    /** The dummy, at the end. It fails exactly if the dummy does not only spend HTR. */
    method Finish() returns (r: Outcome)
      requires Typed(builder.nodes) && DUMMY in builder.nodes
      modifies builder
      ensures r.Done? <==>
              && Resolved(old(builder.nodes), DUMMY) && Tokens(old(builder.nodes), DUMMY) <= {HTR}
              && Net(old(builder.nodes), DUMMY, HTR) <= 0
      ensures r.Done? ==> Finished(old(builder.nodes), builder.nodes)
      ensures r.Done? ==> (DUMMY !in builder.nodes <==> Tokens(old(builder.nodes), DUMMY) == {})
      ensures r.Done? ==> Linked(old(builder.nodes), builder.nodes)
      ensures r.Done? && DUMMY !in builder.nodes ==> old(builder.nodes)[DUMMY].outputs == []
    {
      hide AlmostTyped, Grown, Resolved, Net, Tokens, DummyFilled;
      ghost var before := builder.nodes;
      r := FillDummy();
      if r.Raised? {
        return;
      }
      ghost var cleared := builder.nodes;
      if DUMMY in builder.nodes {
        DependOnDummy();
      }
      FilledLinks(before, cleared, builder.nodes);
      assert Finished(before, builder.nodes) by {
        assert DummyFilled(before, cleared) && DepsAdded(cleared, builder.nodes);
      }
    }

    /**
     Runs the filler. For a regular description, what it says settles whether the run finishes. When it
     does, every node moves what it should, except exactly the blueprints that some transaction takes
     tokens from; nothing that the description says was changed. The description also settles whether
     the dummy is removed, and whether the nodes can be put in order again.
     */
    method Run() returns (r: Outcome)
      requires Described(builder.nodes)
      modifies builder
      ensures Regular(old(builder.nodes)) ==> (r.Done? <==> Finishes(deposit, issued, old(builder.nodes)))
      ensures r.Done? ==> forall n :: n in builder.nodes ==>
                (NodeDone(deposit, issued, builder.nodes, n) <==> !Drained(old(builder.nodes), n))
      ensures r.Done? ==> Preserves(old(builder.nodes), builder.nodes) && CompletedFrom(old(builder.nodes), builder.nodes)
      ensures r.Done? ==> !T.Cyclic(old(builder.nodes)) && !T.Missing(old(builder.nodes))
      ensures r.Done? && PlainKinds(old(builder.nodes)) ==> (DUMMY !in builder.nodes <==> Unused(deposit, old(builder.nodes)))
      ensures r.Done? && Plain(old(builder.nodes)) ==>
                && (T.Missing(builder.nodes) <==> Unused(deposit, old(builder.nodes)) && NamesDummy(old(builder.nodes)))
                && (T.Cyclic(builder.nodes) <==> !Unused(deposit, old(builder.nodes)) && ReachesOrdinary(old(builder.nodes)))
    {
      hide CompletedFrom, Described, Preserves, NodeDone, T.Cyclic, T.Missing, T.TopologicalOrder, Prepared, PreparedFrom, Drained,
           Completed, Finished, ZerosAreFree, Tokens, Plain, Linked, NamesDummy, ReachesOrdinary, Regular, Finishes, AllFit,
           Unused, Resolved, Net, PlainKinds;
      ghost var before := builder.nodes;
      DescribedDummy(before);
      var order;
      r, order := Begin();
      FinishesIff(deposit, issued, before);
      if r.Raised? {
        return;
      }
      ghost var filled := builder.nodes;
      PreparedIsReady(before, filled);
      RegularReady(before);
      ghost var done;
      r, done := Complete(order);
      if r.Raised? {
        return;
      }
      ghost var completed := builder.nodes;
      CompletedDummy(deposit, issued, before, order, done, completed);
      r := Finish();
      if r.Done? {
        RunDone(deposit, issued, before, order, done, completed, builder.nodes);
      }
    }
  }

  /**
   Builds from a description. What the statements say settles whether a regular one can be built. If it
   is, every node moves what it should, except exactly the blueprints that some transaction takes tokens
   from, and the description settles whether the result can be put in order again.
   */
  method Build(statements: seq<Statement>, genesisTokens: int, deposit: int -> int, issued: int) returns (r: Outcome, nodes: Nodes)
    ensures r.Done? ==> Readable(Initial(genesisTokens), statements)
    ensures var said := AfterAll(Initial(genesisTokens), statements);
            && (Regular(said) ==> (r.Done? <==> Readable(Initial(genesisTokens), statements) && Finishes(deposit, issued, said)))
            && (r.Done? ==> forall n :: n in nodes ==> (NodeDone(deposit, issued, nodes, n) <==> !Drained(said, n)))
            && (r.Done? ==> Says(Initial(genesisTokens), statements, said))
            && (r.Done? ==> Preserves(said, nodes) && CompletedFrom(said, nodes) && !T.Cyclic(said) && !T.Missing(said))
            && (r.Done? && PlainKinds(said) ==> (DUMMY !in nodes <==> Unused(deposit, said)))
            && (r.Done? && Plain(said) ==>
                  && (T.Missing(nodes) <==> Unused(deposit, said) && NamesDummy(said))
                  && (T.Cyclic(nodes) <==> !Unused(deposit, said) && ReachesOrdinary(said)))
  {
    hide Says, CompletedFrom, Described, NodeDone, Drained, Preserves, Plain, NamesDummy, ReachesOrdinary, T.Missing, T.Cyclic, AfterAll,
         Initial, Refused,
         Regular, Finishes, Unused, PlainKinds;
    var builder := new Builder(genesisTokens);
    r := builder.Parse(statements);
    nodes := builder.nodes;
    if r.Done? {
      var filler := new Filler(builder, deposit, issued);
      r := filler.Run();
      nodes := builder.nodes;
    }
  }
}
