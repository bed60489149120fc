/**
 What the metadata of blocks and transactions must say about the DAG: scores, voided blocks,
 first blocks, best tips and the height index, with the walks that compute them.
 */
module BlockMetadata {
  import opened Dag
  import opened Sequences

  ghost function Blocks(dag: Store): set<VertexId> {
    set b | b in dag && dag[b].isBlock
  }

  // ----- what the metadata must say about the DAG -----

  ghost predicate ScoresExact(dag: Store, known: set<VertexId>, score: map<VertexId, nat>)
    requires WellFormed(dag)
  {
    && score.Keys == known
    && forall b :: b in known ==> IsBlock(dag, b) && score[b] == ConeWork(dag, b)
  }

  /** The known blocks that are not voided are those on the chain of `p`. */
  ghost predicate Executed(dag: Store, known: set<VertexId>, voided: set<VertexId>, p: VertexId)
    requires WellFormed(dag)
  {
    && p in known && IsBlock(dag, p)
    && (forall c :: OnChain(dag, c, p) ==> c in known)
    && forall c :: c in known ==> IsBlock(dag, c) && (c !in voided <==> OnChain(dag, c, p))
  }

  /** `b` confirms `t`, and its parent does not. */
  ghost predicate ConfirmsFirst(dag: Store, b: VertexId, t: VertexId)
    requires WellFormed(dag)
  {
    && IsBlock(dag, b) && !IsGenesis(dag, b) && t in TxPast(dag, b)
    && IsBlock(dag, BlockParent(dag, b)) && t !in TxPast(dag, BlockParent(dag, b))
  }

  /** `first_block` is set on exactly the past of `p`, to the first confirming block of its chain. */
  ghost predicate Markers(dag: Store, p: VertexId, firstBlock: map<VertexId, VertexId>)
    requires WellFormed(dag)
  {
    && IsBlock(dag, p)
    && firstBlock.Keys == TxPast(dag, p)
    && forall t :: t in firstBlock ==> OnChain(dag, firstBlock[t], p) && ConfirmsFirst(dag, firstBlock[t], t)
  }

  ghost predicate Highest(dag: Store, known: set<VertexId>, b: VertexId)
    requires WellFormed(dag)
  {
    && IsBlock(dag, b) && b in known
    && forall c :: c in known && IsBlock(dag, c) ==> ConeWork(dag, c) <= ConeWork(dag, b)
  }

  ghost predicate TipsExact(dag: Store, known: set<VertexId>, tips: seq<VertexId>)
    requires WellFormed(dag)
  {
    && |tips| > 0
    && Distinct(tips)
    && forall b :: b in tips <==> Highest(dag, known, b)
  }

  /** The blocks common to the chains of all tips are those on the chain of `p`. */
  ghost predicate Meet(dag: Store, tips: seq<VertexId>, p: VertexId)
    requires WellFormed(dag)
  {
    && IsBlock(dag, p)
    && (forall t :: t in tips ==> IsBlock(dag, t) && OnChain(dag, p, t))
    && forall c :: (forall t :: t in tips ==> OnChain(dag, c, t)) ==> OnChain(dag, c, p)
  }

  ghost predicate Indexed(dag: Store, tips: seq<VertexId>, index: seq<VertexId>, x: VertexId)
    requires WellFormed(dag)
  {
    x in tips && IsBlock(dag, x) && index == Chain(dag, x)
  }

  // ----- facts about markers -----

  /** The markers no later than `q` are on exactly the past of `q`. */
  ghost predicate PrunesAt(dag: Store, q: VertexId, firstBlock: map<VertexId, VertexId>)
    requires WellFormed(dag)
  {
    && IsBlock(dag, q)
    && (forall t :: t in firstBlock ==> IsBlock(dag, firstBlock[t]))
    && forall t :: t in TxPast(dag, q) <==>
                   t in firstBlock && IsBlock(dag, firstBlock[t]) && dag[firstBlock[t]].timestamp <= dag[q].timestamp
  }

  lemma {:induction false} MarkersPrune(dag: Store, p: VertexId, q: VertexId, firstBlock: map<VertexId, VertexId>)
    requires WellFormed(dag) && Markers(dag, p, firstBlock) && OnChain(dag, q, p)
    ensures PrunesAt(dag, q, firstBlock)
  {
    OnChainPrefix(dag, q, p);
    TxPastMonotone(dag, q, p);
    forall t
      ensures t in TxPast(dag, q) <==>
              t in firstBlock && IsBlock(dag, firstBlock[t]) && dag[firstBlock[t]].timestamp <= dag[q].timestamp
    {
      if t in firstBlock {
        var b := firstBlock[t];
        OnChainTotal(dag, b, q, p);
        OnChainTotal(dag, q, b, p);
        if dag[b].timestamp <= dag[q].timestamp {
          TxPastMonotone(dag, b, q);
        } else {
          OnChainStep(dag, q, b);
          TxPastMonotone(dag, q, BlockParent(dag, b));
        }
      }
    }
  }

  /** Going back from a block to its parent takes away the markers of that block and no others. */
  lemma {:induction false} UnmarkedExactly(dag: Store, block: VertexId, before: map<VertexId, VertexId>,
                                           after: map<VertexId, VertexId>)
    requires WellFormed(dag) && IsBlock(dag, block) && !IsGenesis(dag, block) && Markers(dag, block, before)
    requires IsBlock(dag, BlockParent(dag, block)) && Markers(dag, BlockParent(dag, block), after)
    ensures Unmarked(before, block, after)
  {
    hide WellFormed, TxPast, Chain;
    var parent := BlockParent(dag, block);
    OnChainStep(dag, parent, parent);
    OnChainStep(dag, parent, block);
    forall t | t in before
      ensures t in after <==> before[t] != block
    {
      if before[t] != block {
        OnChainStep(dag, before[t], block);
        TxPastMonotone(dag, before[t], parent);
      }
    }
    forall t | t in after
      ensures t in before && before[t] == after[t]
    {
      OnChainStep(dag, after[t], block);
      TxPastMonotone(dag, parent, block);
      ConfirmsFirstUnique(dag, block, before[t], after[t], t);
    }
  }

  ghost predicate Unmarked(before: map<VertexId, VertexId>, block: VertexId, after: map<VertexId, VertexId>) {
    && (forall t :: t in before ==> (t in after <==> before[t] != block))
    && forall t :: t in after ==> t in before && after[t] == before[t]
  }

  /** Markers are determined by the chain, so re-marking after unmarking restores them. */
  lemma {:induction false} MarkersUnique(dag: Store, p: VertexId, m: map<VertexId, VertexId>,
                                         n: map<VertexId, VertexId>)
    requires WellFormed(dag) && Markers(dag, p, m) && Markers(dag, p, n)
    ensures m == n
  {
    forall t | t in m
      ensures m[t] == n[t]
    {
      ConfirmsFirstUnique(dag, p, m[t], n[t], t);
    }
  }

  lemma {:induction false} ConfirmsFirstUnique(dag: Store, p: VertexId, a: VertexId, b: VertexId, t: VertexId)
    requires WellFormed(dag) && IsBlock(dag, p) && OnChain(dag, a, p) && OnChain(dag, b, p)
    requires ConfirmsFirst(dag, a, t) && ConfirmsFirst(dag, b, t)
    ensures a == b
  {
    OnChainTotal(dag, a, b, p);
    OnChainTotal(dag, b, a, p);
    if a != b {
      if OnChain(dag, a, b) {
        OnChainStep(dag, a, b);
        TxPastMonotone(dag, a, BlockParent(dag, b));
      } else {
        OnChainStep(dag, b, a);
        TxPastMonotone(dag, b, BlockParent(dag, a));
      }
    }
  }

  /** `after` is `before` with the markers of `txs` set to `block`. */
  ghost predicate Marked(before: map<VertexId, VertexId>, txs: set<VertexId>, block: VertexId,
                         after: map<VertexId, VertexId>) {
    && after.Keys == before.Keys + txs
    && forall t :: t in after ==> after[t] == if t in txs then block else before[t]
  }

  lemma {:induction false} MarkedTrans(before: map<VertexId, VertexId>, s: set<VertexId>, block: VertexId,
                                       mid: map<VertexId, VertexId>, t: set<VertexId>, after: map<VertexId, VertexId>)
    requires Marked(before, s, block, mid) && Marked(mid, t, block, after)
    ensures Marked(before, s + t, block, after)
  {
  }

  lemma {:induction false} MarkOne(dag: Store, fork: VertexId, before: map<VertexId, VertexId>, txs: set<VertexId>,
                                   firstBlock: map<VertexId, VertexId>, tx: VertexId, block: VertexId)
    requires WellFormed(dag) && IsBlock(dag, block) && PrunesAt(dag, fork, firstBlock)
    requires dag[fork].timestamp < dag[block].timestamp
    requires Marked(before, txs, block, firstBlock) && tx !in firstBlock
    ensures PrunesAt(dag, fork, firstBlock[tx := block])
    ensures Marked(before, txs + {tx}, block, firstBlock[tx := block])
  {
  }

  ghost predicate ScoresOf(dag: Store, score: map<VertexId, nat>)
    requires WellFormed(dag)
  {
    forall b :: b in score ==> IsBlock(dag, b) && score[b] == ConeWork(dag, b)
  }

  lemma {:induction false} ParentScored(dag: Store, block: VertexId, score: map<VertexId, nat>)
    requires WellFormed(dag) && IsBlock(dag, block) && !IsGenesis(dag, block)
    requires forall c :: OnChain(dag, c, block) && c != block ==> c in score
    ensures IsBlock(dag, BlockParent(dag, block)) && BlockParent(dag, block) in score
    ensures forall c :: OnChain(dag, c, BlockParent(dag, block)) ==> c in score
  {
    BlockParentIsBlock(dag, block);
    var parent := BlockParent(dag, block);
    OnChainStep(dag, parent, parent);
    forall c | OnChain(dag, c, parent)
      ensures c in score
    {
      OnChainStep(dag, c, block);
      OnChainPrefix(dag, c, parent);
    }
  }

  lemma {:induction false} AddGain(dag: Store, base: set<VertexId>, done: set<VertexId>, more: set<VertexId>)
    requires base <= done <= dag.Keys && more <= dag.Keys
    ensures Work(dag, done + more - base) == Work(dag, done - base) + Work(dag, more - done)
  {
    WorkUnion(dag, done - base, more - done);
    assert done - base + (more - done) == done + more - base;
  }

  /** Marking the transactions that `block` confirms first extends exact markers by one block. */
  lemma {:induction false} MarkersStep(dag: Store, block: VertexId, before: map<VertexId, VertexId>,
                                       after: map<VertexId, VertexId>)
    requires WellFormed(dag) && IsBlock(dag, block) && !IsGenesis(dag, block)
    requires IsBlock(dag, BlockParent(dag, block)) && Markers(dag, BlockParent(dag, block), before)
    requires Marked(before, TxPast(dag, block) - TxPast(dag, BlockParent(dag, block)), block, after)
    ensures Markers(dag, block, after)
  {
    var parent := BlockParent(dag, block);
    OnChainStep(dag, parent, block);
    TxPastMonotone(dag, parent, block);
    forall t | t in after
      ensures OnChain(dag, after[t], block) && ConfirmsFirst(dag, after[t], t)
    {
      OnChainStep(dag, after[t], block);
    }
  }

  /** The state of the score computation of `block` after its first `n` parents. */
  ghost predicate Scored(dag: Store, block: VertexId, fork: VertexId, mark: bool, n: nat,
                         before: map<VertexId, VertexId>,
                         used: set<VertexId>, gain: nat, firstBlock: map<VertexId, VertexId>)
    requires WellFormed(dag) && IsBlock(dag, block) && !IsGenesis(dag, block)
    requires IsBlock(dag, BlockParent(dag, block)) && IsBlock(dag, fork) && n <= |dag[block].parents|
  {
    var base := TxPast(dag, BlockParent(dag, block));
    var done := base + ReachOfParents(dag, block, n);
    && done <= dag.Keys
    && used + TxPast(dag, fork) == done
    && gain == Work(dag, done - base)
    && Marked(before, if mark then done - base else {}, block, firstBlock)
    && (mark ==> before.Keys == base)
  }

  lemma {:induction false} ScoredFirst(dag: Store, block: VertexId, fork: VertexId, mark: bool,
                                       before: map<VertexId, VertexId>, used: set<VertexId>)
    requires WellFormed(dag) && IsBlock(dag, block) && !IsGenesis(dag, block)
    requires IsBlock(dag, BlockParent(dag, block)) && IsBlock(dag, fork)
    requires used + TxPast(dag, fork) == TxPast(dag, BlockParent(dag, block))
    requires mark ==> before.Keys == TxPast(dag, BlockParent(dag, block))
    ensures Scored(dag, block, fork, mark, 1, before, used, 0, before)
  {
    TxPastClosed(dag, BlockParent(dag, block));
    var base := TxPast(dag, BlockParent(dag, block));
    assert base + ReachOfParents(dag, block, 1) == base;
    assert base - base == {};
  }

  lemma TxParentIsTx(dag: Store, block: VertexId, i: nat)
    requires WellFormed(dag) && IsBlock(dag, block) && 1 <= i < |dag[block].parents|
    ensures IsTx(dag, dag[block].parents[i])
  {
    assert Shaped(dag, block);
  }

  lemma {:induction false} ScoredDone(dag: Store, block: VertexId, fork: VertexId, mark: bool, n: nat,
                                      before: map<VertexId, VertexId>, used: set<VertexId>, gain: nat,
                                      firstBlock: map<VertexId, VertexId>)
    returns (done: set<VertexId>)
    requires WellFormed(dag) && IsBlock(dag, block) && !IsGenesis(dag, block)
    requires IsBlock(dag, BlockParent(dag, block)) && IsBlock(dag, fork) && n <= |dag[block].parents|
    requires Scored(dag, block, fork, mark, n, before, used, gain, firstBlock)
    ensures done == used + TxPast(dag, fork) && TxClosed(dag, done) && done <= dag.Keys
    ensures done == TxPast(dag, BlockParent(dag, block)) + ReachOfParents(dag, block, n)
    ensures mark ==> firstBlock.Keys == done
  {
    done := used + TxPast(dag, fork);
    TxPastClosed(dag, BlockParent(dag, block));
    ReachOfParentsClosed(dag, block, n);
  }

  lemma {:induction false} ScoredStep(dag: Store, block: VertexId, fork: VertexId, mark: bool, n: nat,
                                      before: map<VertexId, VertexId>, used: set<VertexId>, gain: nat,
                                      firstBlock: map<VertexId, VertexId>,
                                      used': set<VertexId>, more: nat, firstBlock': map<VertexId, VertexId>)
    requires WellFormed(dag) && IsBlock(dag, block) && !IsGenesis(dag, block)
    requires IsBlock(dag, BlockParent(dag, block)) && IsBlock(dag, fork) && 1 <= n < |dag[block].parents|
    requires Scored(dag, block, fork, mark, n, before, used, gain, firstBlock)
    requires IsTx(dag, dag[block].parents[n]) && TxReach(dag, dag[block].parents[n]) <= dag.Keys
    requires used' + TxPast(dag, fork) == used + TxPast(dag, fork) + TxReach(dag, dag[block].parents[n])
    requires more == Work(dag, TxReach(dag, dag[block].parents[n]) - (used + TxPast(dag, fork)))
    requires Marked(firstBlock, if mark then TxReach(dag, dag[block].parents[n]) - (used + TxPast(dag, fork)) else {},
                    block, firstBlock')
    ensures Scored(dag, block, fork, mark, n + 1, before, used', gain + more, firstBlock')
  {
    var base := TxPast(dag, BlockParent(dag, block));
    var done := base + ReachOfParents(dag, block, n);
    var reach := TxReach(dag, dag[block].parents[n]);
    assert done == used + TxPast(dag, fork);
    assert base + ReachOfParents(dag, block, n + 1) == done + reach;
    AddGain(dag, base, done, reach);
    if mark {
      MarkedTrans(before, done - base, block, firstBlock, reach - done, firstBlock');
      assert done - base + (reach - done) == done + reach - base;
    }
  }

  lemma {:induction false} ScoredLast(dag: Store, block: VertexId, fork: VertexId, mark: bool,
                                      before: map<VertexId, VertexId>, used: set<VertexId>, gain: nat,
                                      firstBlock: map<VertexId, VertexId>)
    requires WellFormed(dag) && IsBlock(dag, block) && !IsGenesis(dag, block)
    requires IsBlock(dag, BlockParent(dag, block)) && IsBlock(dag, fork)
    requires Scored(dag, block, fork, mark, |dag[block].parents|, before, used, gain, firstBlock)
    ensures used + TxPast(dag, fork) == TxPast(dag, block) && TxPast(dag, block) <= dag.Keys
    ensures gain == Work(dag, TxPast(dag, block) - TxPast(dag, BlockParent(dag, block)))
    ensures Marked(before, if mark then TxPast(dag, block) - TxPast(dag, BlockParent(dag, block)) else {},
                   block, firstBlock)
  {
  }

  // ----- unmarking -----

  /** The walk that clears the markers of `block`, with `visited` cleared so far. */
  ghost predicate Unmarking(dag: Store, block: VertexId, before: map<VertexId, VertexId>, visited: set<VertexId>,
                            pending: set<VertexId>, firstBlock: map<VertexId, VertexId>)
    requires WellFormed(dag) && IsBlock(dag, block) && !IsGenesis(dag, block)
    requires IsBlock(dag, BlockParent(dag, block))
  {
    var base := TxPast(dag, BlockParent(dag, block));
    && visited <= TxPast(dag, block) - base
    && firstBlock.Keys == before.Keys - visited
    && (forall t :: t in firstBlock ==> firstBlock[t] == before[t])
    && pending <= dag.Keys
    && (forall d :: d in pending && IsTx(dag, d) ==> d in TxPast(dag, block))
    && TxClosedUpTo(dag, visited, base + pending)
    && (forall i :: 1 <= i < |dag[block].parents| ==> dag[block].parents[i] in visited + base + pending)
  }

  lemma {:induction false} UnmarkStart(dag: Store, block: VertexId, before: map<VertexId, VertexId>)
    requires WellFormed(dag) && IsBlock(dag, block) && !IsGenesis(dag, block)
    ensures IsBlock(dag, BlockParent(dag, block))
    ensures Unmarking(dag, block, before, {}, Deps(dag, block), before)
  {
    BlockParentIsBlock(dag, block);
    assert Connected(dag, block) && Shaped(dag, block);
    forall d | d in Deps(dag, block) && IsTx(dag, d)
      ensures d in TxPast(dag, block)
    {
      var i :| 0 <= i < |dag[block].parents| && d == dag[block].parents[i];
      TxParentsInPast(dag, block, |dag[block].parents|, i);
    }
  }

  lemma {:induction false} UnmarkSkip(dag: Store, block: VertexId, before: map<VertexId, VertexId>,
                                      visited: set<VertexId>,
                                      pending: set<VertexId>, firstBlock: map<VertexId, VertexId>, x: VertexId)
    requires WellFormed(dag) && IsBlock(dag, block) && !IsGenesis(dag, block)
    requires IsBlock(dag, BlockParent(dag, block)) && Markers(dag, block, before)
    requires Unmarking(dag, block, before, visited, pending, firstBlock)
    requires x in pending && (dag[x].isBlock || x !in firstBlock || firstBlock[x] != block)
    ensures Unmarking(dag, block, before, visited, pending - {x}, firstBlock)
  {
    hide WellFormed, TxPast, Chain;
    var base := TxPast(dag, BlockParent(dag, block));
    if !dag[x].isBlock && x !in visited {
      assert x in before && before[x] != block;
      OnChainStep(dag, before[x], block);
      TxPastMonotone(dag, before[x], BlockParent(dag, block));
      assert x in base;
    }
    assert dag[x].isBlock || x in visited || x in base;
    forall u, d | u in visited && IsTx(dag, u) && d in TxDeps(dag, u)
      ensures d in visited || d in base + (pending - {x})
    {
      assert d in visited || d in base + pending;
    }
    forall i | 1 <= i < |dag[block].parents|
      ensures dag[block].parents[i] in visited + base + (pending - {x})
    {
      TxParentIsTx(dag, block, i);
    }
  }

  lemma {:induction false} UnmarkVisit(dag: Store, block: VertexId, before: map<VertexId, VertexId>,
                                       visited: set<VertexId>,
                                       pending: set<VertexId>, firstBlock: map<VertexId, VertexId>, x: VertexId)
    requires WellFormed(dag) && IsBlock(dag, block) && !IsGenesis(dag, block)
    requires IsBlock(dag, BlockParent(dag, block)) && Markers(dag, block, before)
    requires Unmarking(dag, block, before, visited, pending, firstBlock)
    requires x in pending && IsTx(dag, x) && x in firstBlock && firstBlock[x] == block
    ensures x !in visited && x in TxPast(dag, block)
    ensures Unmarking(dag, block, before, visited + {x}, pending - {x} + Deps(dag, x), firstBlock - {x})
  {
    hide WellFormed, TxPast, Chain;
    var base := TxPast(dag, BlockParent(dag, block));
    DepsOlder(dag, x);
    assert ConfirmsFirst(dag, before[x], x);
    TxPastClosed(dag, block);
    var pending' := pending - {x} + Deps(dag, x);
    forall d | d in pending' && IsTx(dag, d)
      ensures d in TxPast(dag, block)
    {
      if d in Deps(dag, x) {
        assert d in TxDeps(dag, x);
      }
    }
    forall u, d | u in visited + {x} && IsTx(dag, u) && d in TxDeps(dag, u)
      ensures d in visited + {x} || d in base + pending'
    {
      if u in visited {
        assert d in visited || d in base + pending;
      }
    }
  }

  /** Nothing pending: exactly the markers of `block` are gone. */
  lemma {:induction false} UnmarkDone(dag: Store, block: VertexId, before: map<VertexId, VertexId>,
                                      visited: set<VertexId>,
                                      firstBlock: map<VertexId, VertexId>)
    requires WellFormed(dag) && IsBlock(dag, block) && !IsGenesis(dag, block)
    requires IsBlock(dag, BlockParent(dag, block)) && Markers(dag, block, before)
    requires Unmarking(dag, block, before, visited, {}, firstBlock)
    ensures Markers(dag, BlockParent(dag, block), firstBlock)
  {
    var parent := BlockParent(dag, block);
    var base := TxPast(dag, parent);
    TxPastClosed(dag, parent);
    TxPastMonotone(dag, parent, block) by { OnChainStep(dag, parent, block); OnChainStep(dag, parent, parent); }
    forall u, d | u in base + visited && IsTx(dag, u) && d in TxDeps(dag, u)
      ensures d in base + visited
    {
      assert u in visited ==> d in visited || d in base + {};
    }
    ReachWithin(dag, block, |dag[block].parents|, base + visited);
    assert TxPast(dag, block) == base + visited;
    forall t | t in firstBlock
      ensures OnChain(dag, firstBlock[t], parent) && ConfirmsFirst(dag, firstBlock[t], t)
    {
      OnChainStep(dag, before[t], block);
      assert t in base;
    }
  }

  lemma {:induction false} ReachWithin(dag: Store, block: VertexId, n: nat, s: set<VertexId>)
    requires WellFormed(dag) && IsBlock(dag, block) && n <= |dag[block].parents|
    requires TxClosed(dag, s) && forall i :: 1 <= i < n ==> dag[block].parents[i] in s
    ensures ReachOfParents(dag, block, n) <= s
  {
    if n > 1 {
      assert Shaped(dag, block);
      ReachWithin(dag, block, n - 1, s);
      TxReachLeast(dag, dag[block].parents[n - 1], s);
    }
  }
}
