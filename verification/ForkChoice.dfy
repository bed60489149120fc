/** Fork choice on values: what each case of a block arrival does to tips, executed blocks and the height index. */
module ForkChoice {
  import opened Dag
  import opened Sequences
  import opened BlockMetadata

  ghost predicate AncestorsIn(dag: Store, block: VertexId, known: set<VertexId>)
    requires WellFormed(dag) && IsBlock(dag, block)
  {
    forall c :: OnChain(dag, c, block) && c != block ==> c in known
  }

  // ----- the fork block of `block`: its closest proper ancestor on the chain of `p` -----

  /** Every proper ancestor of `block` on the chain of `p` is on the chain of its ancestor `a`. */
  ghost predicate ForkAbove(dag: Store, block: VertexId, p: VertexId, a: VertexId)
    requires WellFormed(dag) && IsBlock(dag, block) && IsBlock(dag, p)
  {
    && IsBlock(dag, a) && a != block && OnChain(dag, a, block)
    && forall c :: OnChain(dag, c, block) && c != block && OnChain(dag, c, p) ==> OnChain(dag, c, a)
  }

  ghost predicate ForkOf(dag: Store, block: VertexId, p: VertexId, fork: VertexId)
    requires WellFormed(dag) && IsBlock(dag, block) && IsBlock(dag, p)
  {
    ForkAbove(dag, block, p, fork) && OnChain(dag, fork, p)
  }

  lemma {:induction false} ForkStart(dag: Store, block: VertexId, p: VertexId)
    requires WellFormed(dag) && IsBlock(dag, block) && !IsGenesis(dag, block) && IsBlock(dag, p)
    ensures ForkAbove(dag, block, p, BlockParent(dag, block))
  {
    hide WellFormed, Chain;
    BlockParentIsBlock(dag, block);
    var a := BlockParent(dag, block);
    OnChainStep(dag, a, a);
    OnChainStep(dag, a, block);
    forall c | OnChain(dag, c, block) && c != block && OnChain(dag, c, p)
      ensures OnChain(dag, c, a)
    {
      OnChainStep(dag, c, block);
    }
  }

  lemma {:induction false} ForkStep(dag: Store, block: VertexId, known: set<VertexId>, voided: set<VertexId>,
                                    p: VertexId, a: VertexId)
    requires WellFormed(dag) && IsBlock(dag, block) && IsBlock(dag, p)
    requires Executed(dag, known, voided, p) && AncestorsIn(dag, block, known)
    requires ForkAbove(dag, block, p, a) && a in voided
    ensures !IsGenesis(dag, a) && IsBlock(dag, BlockParent(dag, a))
    ensures dag[BlockParent(dag, a)].timestamp < dag[a].timestamp
    ensures ForkAbove(dag, block, p, BlockParent(dag, a))
  {
    hide WellFormed, Chain;
    if IsGenesis(dag, a) {
      GenesisOnChain(dag, a, p);
      assert false;
    }
    BlockParentIsBlock(dag, a);
    var b := BlockParent(dag, a);
    OnChainStep(dag, b, b);
    OnChainStep(dag, b, a);
    OnChainTrans(dag, b, a, block);
    OnChainPrefix(dag, a, block);
    forall c | OnChain(dag, c, block) && c != block && OnChain(dag, c, p)
      ensures OnChain(dag, c, b)
    {
      OnChainStep(dag, c, a);
    }
  }

  lemma {:induction false} ForkFound(dag: Store, block: VertexId, known: set<VertexId>, voided: set<VertexId>,
                                     p: VertexId, a: VertexId)
    requires WellFormed(dag) && IsBlock(dag, block) && IsBlock(dag, p)
    requires Executed(dag, known, voided, p) && AncestorsIn(dag, block, known)
    requires ForkAbove(dag, block, p, a) && a !in voided
    ensures ForkOf(dag, block, p, a)
  {
  }

  lemma {:induction false} ForkIsHead(dag: Store, block: VertexId, p: VertexId, fork: VertexId)
    requires WellFormed(dag) && IsBlock(dag, block) && IsBlock(dag, p) && ForkOf(dag, block, p, fork)
    requires OnChain(dag, p, block) && p != block
    ensures fork == p
  {
    OnChainStep(dag, p, p);
    assert OnChain(dag, p, fork);
    OnChainPrefix(dag, p, fork);
    OnChainPrefix(dag, fork, p);
  }

  // ----- voiding the executed chain from its head, and executing a side chain -----

  lemma {:induction false} VoidHead(dag: Store, known: set<VertexId>, voided: set<VertexId>, p: VertexId)
    requires WellFormed(dag) && Executed(dag, known, voided, p) && !IsGenesis(dag, p)
    ensures Executed(dag, known, voided + {p}, BlockParent(dag, p))
  {
    hide WellFormed, Chain;
    BlockParentIsBlock(dag, p);
    var q := BlockParent(dag, p);
    OnChainStep(dag, q, q);
    OnChainStep(dag, q, p);
    forall c
      ensures c != p ==> (OnChain(dag, c, p) <==> OnChain(dag, c, q))
      ensures !OnChain(dag, p, q)
    {
      OnChainStep(dag, c, p);
      if OnChain(dag, p, q) {
        OnChainPrefix(dag, p, q);
      }
    }
  }

  /** From `head` down to `common`, where the executed chain ends at `q` on the way. */
  ghost predicate Descending(dag: Store, known: set<VertexId>, voided: set<VertexId>, q: VertexId,
                             head: VertexId, common: VertexId)
    requires WellFormed(dag)
  {
    && Executed(dag, known, voided, q)
    && head in known && IsBlock(dag, head) && OnChain(dag, q, head)
    && IsBlock(dag, common) && OnChain(dag, common, q)
  }

  lemma {:induction false} DescendFacts(dag: Store, known: set<VertexId>, voided: set<VertexId>, q: VertexId,
                                        head: VertexId, common: VertexId)
    requires WellFormed(dag) && Descending(dag, known, voided, q, head, common)
    requires dag[head].timestamp > dag[common].timestamp
    ensures !IsGenesis(dag, head) && IsBlock(dag, BlockParent(dag, head))
    ensures dag[BlockParent(dag, head)].timestamp < dag[head].timestamp
    ensures head !in voided <==> head == q
  {
    hide WellFormed, Chain;
    OnChainTrans(dag, common, q, head);
    OnChainStep(dag, common, head);
    BlockParentIsBlock(dag, head);
    OnChainPrefix(dag, q, head);
    OnChainStep(dag, q, q);
    if OnChain(dag, head, q) {
      OnChainPrefix(dag, head, q);
    }
  }

  lemma {:induction false} DescendVoided(dag: Store, known: set<VertexId>, voided: set<VertexId>, q: VertexId,
                                         head: VertexId, common: VertexId)
    requires WellFormed(dag) && Descending(dag, known, voided, q, head, common)
    requires dag[head].timestamp > dag[common].timestamp && head in voided
    requires Closed(dag, known)
    ensures Descending(dag, known, voided, q, BlockParent(dag, head), common)
  {
    hide WellFormed, Chain;
    DescendFacts(dag, known, voided, q, head, common);
    OnChainStep(dag, q, head);
    var b := BlockParent(dag, head);
    OnChainStep(dag, b, b);
    OnChainStep(dag, b, head);
  }

  lemma {:induction false} DescendHead(dag: Store, known: set<VertexId>, voided: set<VertexId>,
                                       head: VertexId, common: VertexId)
    requires WellFormed(dag) && Descending(dag, known, voided, head, head, common)
    requires dag[head].timestamp > dag[common].timestamp
    requires Closed(dag, known)
    ensures !IsGenesis(dag, head)
    ensures Descending(dag, known, voided + {head}, BlockParent(dag, head), BlockParent(dag, head), common)
  {
    hide WellFormed, Chain;
    DescendFacts(dag, known, voided, head, head, common);
    VoidHead(dag, known, voided, head);
    OnChainStep(dag, common, head);
    var b := BlockParent(dag, head);
    OnChainStep(dag, b, b);
    OnChainStep(dag, b, head);
  }

  lemma {:induction false} DescendDone(dag: Store, known: set<VertexId>, voided: set<VertexId>, q: VertexId,
                                       head: VertexId, common: VertexId)
    requires WellFormed(dag) && Descending(dag, known, voided, q, head, common)
    requires dag[head].timestamp <= dag[common].timestamp
    ensures q == common
  {
    hide WellFormed, Chain;
    OnChainTrans(dag, common, q, head);
    OnChainPrefix(dag, common, head);
    OnChainPrefix(dag, q, head);
    OnChainPrefix(dag, common, q);
  }

  /** After one head has been voided down to `common`, every other head still descends from it. */
  lemma {:induction false} DescendAgain(dag: Store, known: set<VertexId>, voided: set<VertexId>, p: VertexId,
                                        head: VertexId, common: VertexId, voided': set<VertexId>)
    requires WellFormed(dag) && Descending(dag, known, voided, p, head, common)
    requires Executed(dag, known, voided', common)
    ensures Descending(dag, known, voided', common, head, common)
  {
    OnChainTrans(dag, common, p, head);
    OnChainStep(dag, common, common);
  }

  ghost predicate Closed(dag: Store, known: set<VertexId>)
    requires WellFormed(dag)
  {
    forall b, c :: b in known && IsBlock(dag, b) && OnChain(dag, c, b) ==> c in known
  }

  /** The chain of `block` is executed above `cur` and the chain of `p` below; in between it is voided. */
  ghost predicate Executing(dag: Store, known: set<VertexId>, voided: set<VertexId>, p: VertexId,
                            block: VertexId, cur: VertexId)
    requires WellFormed(dag)
  {
    && IsBlock(dag, p) && IsBlock(dag, block) && IsBlock(dag, cur)
    && block in known
    && (forall c :: OnChain(dag, c, block) ==> c in known)
    && OnChain(dag, p, cur) && OnChain(dag, cur, block)
    && forall c :: c in known ==>
         && IsBlock(dag, c)
         && (c !in voided <==> OnChain(dag, c, p) || (OnChain(dag, c, block) && !OnChain(dag, c, cur)))
  }

  lemma {:induction false} ExecuteStart(dag: Store, known: set<VertexId>, voided: set<VertexId>, p: VertexId,
                                        block: VertexId)
    requires WellFormed(dag) && Executed(dag, known, voided, p)
    requires IsBlock(dag, block) && block in known && Closed(dag, known) && OnChain(dag, p, block)
    ensures Executing(dag, known, voided, p, block, block)
  {
    OnChainStep(dag, block, block);
  }

  lemma {:induction false} ExecuteStep(dag: Store, known: set<VertexId>, voided: set<VertexId>, p: VertexId,
                                       block: VertexId, cur: VertexId)
    requires WellFormed(dag) && Executing(dag, known, voided, p, block, cur) && cur in voided
    ensures !IsGenesis(dag, cur) && IsBlock(dag, BlockParent(dag, cur))
    ensures dag[BlockParent(dag, cur)].timestamp < dag[cur].timestamp
    ensures Executing(dag, known, voided - {cur}, p, block, BlockParent(dag, cur))
  {
    hide WellFormed, Chain;
    OnChainStep(dag, p, p);
    OnChainStep(dag, p, cur);
    assert cur != p;
    BlockParentIsBlock(dag, cur);
    var b := BlockParent(dag, cur);
    OnChainStep(dag, b, b);
    OnChainStep(dag, b, cur);
    OnChainTrans(dag, b, cur, block);
    if OnChain(dag, cur, b) {
      OnChainPrefix(dag, cur, b);
      assert false;
    }
    forall c | c in known
      ensures c !in voided - {cur} <==> OnChain(dag, c, p) || (OnChain(dag, c, block) && !OnChain(dag, c, b))
    {
      OnChainStep(dag, c, cur);
    }
  }

  lemma {:induction false} ExecuteDone(dag: Store, known: set<VertexId>, voided: set<VertexId>, p: VertexId,
                                       block: VertexId, cur: VertexId)
    requires WellFormed(dag) && Executing(dag, known, voided, p, block, cur) && cur !in voided
    ensures Executed(dag, known, voided, block)
  {
    hide WellFormed, Chain;
    OnChainStep(dag, cur, cur);
    assert OnChain(dag, cur, p);
    OnChainPrefix(dag, cur, p);
    OnChainPrefix(dag, p, cur);
    assert cur == p;
    forall c | OnChain(dag, c, p)
      ensures OnChain(dag, c, block)
    {
      OnChainTrans(dag, c, p, block);
    }
  }

  // ----- the whole state, and how the best tips change -----

  /**
   Everything the metadata must say, for the blocks in `known`: scores are the work of the past
   cone, the tip cache holds the highest-score blocks, the executed blocks are the common prefix
   of their chains (it ends at `p`), the markers are exact for that prefix, and the height index
   is the chain of the best tip `x`.
   */
  ghost predicate Consistent(dag: Store, known: set<VertexId>, score: map<VertexId, nat>,
                             firstBlock: map<VertexId, VertexId>, voided: set<VertexId>,
                             tips: seq<VertexId>, index: seq<VertexId>, p: VertexId, x: VertexId)
  {
    && WellFormed(dag) && Closed(dag, known)
    && ScoresExact(dag, known, score)
    && voided <= known
    && Executed(dag, known, voided, p)
    && Markers(dag, p, firstBlock)
    && TipsExact(dag, known, tips)
    && Meet(dag, tips, p)
    && Indexed(dag, tips, index, x)
  }

  function Children(dag: Store, v: VertexId): set<VertexId> {
    set c | c in dag && v in dag[c].parents
  }

  /** Nothing verifies the block that is being added. */
  ghost predicate Arriving(dag: Store, block: VertexId) {
    Children(dag, block) == {}
  }

  lemma {:induction false} KnownIsClosed(dag: Store, block: VertexId)
    requires WellFormed(dag) && IsBlock(dag, block) && Arriving(dag, block)
    ensures Closed(dag, Blocks(dag) - {block})
    ensures Closed(dag, Blocks(dag))
    ensures AncestorsIn(dag, block, Blocks(dag) - {block})
  {
    hide WellFormed, Chain;
    forall b, c | IsBlock(dag, b) && OnChain(dag, c, b)
      ensures IsBlock(dag, c) && (c == block ==> b == block)
    {
      OnChainPrefix(dag, c, b);
      if c == block && b != block {
        var n := NextOnChain(dag, block, b);
        assert false;
      }
    }
  }

  /** The child of `a` on the way up to `b`. */
  lemma {:induction false} NextOnChain(dag: Store, a: VertexId, b: VertexId) returns (n: VertexId)
    requires WellFormed(dag) && IsBlock(dag, b) && OnChain(dag, a, b) && a != b
    ensures IsBlock(dag, n) && OnChain(dag, n, b) && n in Children(dag, a)
    decreases dag[b].timestamp
  {
    hide WellFormed, Chain;
    OnChainStep(dag, a, b);
    BlockParentIsBlock(dag, b);
    var parent := BlockParent(dag, b);
    if a == parent {
      n := b;
      OnChainStep(dag, b, b);
    } else {
      n := NextOnChain(dag, a, parent);
      OnChainStep(dag, n, b);
    }
  }

  /** A new block, whether voided or not, does not change what is executed among the others. */
  lemma {:induction false} NewBlockVoided(dag: Store, known: set<VertexId>, voided: set<VertexId>, p: VertexId,
                                          block: VertexId)
    requires WellFormed(dag) && Executed(dag, known, voided, p) && known == Blocks(dag) - {block} && IsBlock(dag, block)
    ensures block in voided ==> Executed(dag, Blocks(dag), voided, p)
    ensures Executed(dag, known, voided + {block}, p)
    ensures p in known && IsBlock(dag, p)
  {
    hide WellFormed, Chain;
  }

  lemma {:induction false} NewBlockExecuted(dag: Store, known: set<VertexId>, voided: set<VertexId>, block: VertexId)
    requires WellFormed(dag) && IsBlock(dag, block) && !IsGenesis(dag, block) && known == Blocks(dag) - {block}
    requires Executed(dag, known, voided, BlockParent(dag, block)) && block !in voided
    ensures Executed(dag, Blocks(dag), voided, block)
  {
    hide WellFormed, Chain;
    forall c
      ensures OnChain(dag, c, block) <==> c == block || OnChain(dag, c, BlockParent(dag, block))
    {
      OnChainStep(dag, c, block);
    }
  }

  lemma {:induction false} ScoresStep(dag: Store, block: VertexId, score: map<VertexId, nat>)
    requires WellFormed(dag) && IsBlock(dag, block)
    requires ScoresExact(dag, Blocks(dag) - {block}, score)
    ensures ScoresOf(dag, score) && score.Keys == Blocks(dag) - {block}
    ensures ScoresExact(dag, Blocks(dag), score[block := ConeWork(dag, block)])
    ensures ScoresOf(dag, score[block := ConeWork(dag, block)])
  {
  }

  lemma {:induction false} ScoreKept(dag: Store, score: map<VertexId, nat>, block: VertexId)
    requires WellFormed(dag) && IsBlock(dag, block) && ScoresOf(dag, score) && block in score
    ensures score[block := ConeWork(dag, block)] == score
  {
  }

  /** Two best tips on one chain are the same block. */
  lemma {:induction false} TipsApart(dag: Store, known: set<VertexId>, tips: seq<VertexId>, a: VertexId, b: VertexId)
    requires WellFormed(dag) && TipsExact(dag, known, tips)
    requires a in tips && b in tips && IsBlock(dag, b) && OnChain(dag, a, b)
    ensures a == b
  {
    hide WellFormed, Chain, ConeWork;
    ConeWorkMonotone(dag, a, b);
    assert Highest(dag, known, a) && Highest(dag, known, b);
  }

  lemma {:induction false} Singleton(s: seq<VertexId>, v: VertexId)
    requires |s| > 0 && Distinct(s) && forall t :: t in s ==> t == v
    ensures s == [v]
  {
    assert s[0] in s && s[|s| - 1] in s;
  }

  /** Case (i): the parent is executed and has no other child, so it is the only best tip. */
  lemma {:induction false} SingleHead(dag: Store, known: set<VertexId>, voided: set<VertexId>, tips: seq<VertexId>,
                                      p: VertexId, parent: VertexId, block: VertexId)
    requires WellFormed(dag) && Closed(dag, known) && Executed(dag, known, voided, p)
    requires TipsExact(dag, known, tips) && Meet(dag, tips, p)
    requires block !in known && parent in known && parent !in voided
    requires Children(dag, parent) == {block}
    ensures tips == [parent] && p == parent
  {
    hide WellFormed, Chain;
    forall t | t in tips
      ensures t == parent
    {
      OnChainTrans(dag, parent, p, t);
      assert Highest(dag, known, t);
      if t != parent {
        var n := NextOnChain(dag, parent, t);
        assert false;
      }
    }
    Singleton(tips, parent);
    OnChainPrefix(dag, p, parent);
    OnChainPrefix(dag, parent, p);
  }

  /** An executed best tip is the only best tip. */
  lemma {:induction false} ExecutedTipIsOnly(dag: Store, known: set<VertexId>, voided: set<VertexId>,
                                             tips: seq<VertexId>,
                                             p: VertexId, a: VertexId, b: VertexId)
    requires WellFormed(dag) && Executed(dag, known, voided, p)
    requires TipsExact(dag, known, tips) && Meet(dag, tips, p)
    requires a in tips && a !in voided && b in tips
    ensures a == b
  {
    hide WellFormed, Chain;
    assert Highest(dag, known, a);
    OnChainTrans(dag, a, p, b);
    TipsApart(dag, known, tips, a, b);
  }

  lemma {:induction false} OneValidHead(dag: Store, known: set<VertexId>, voided: set<VertexId>, tips: seq<VertexId>,
                                        p: VertexId, i: nat)
    requires WellFormed(dag) && Executed(dag, known, voided, p)
    requires TipsExact(dag, known, tips) && Meet(dag, tips, p)
    requires i < |tips| && tips[i] !in voided
    ensures forall j :: 0 <= j < |tips| && j != i ==> tips[j] in voided
  {
    hide WellFormed, Chain, Meet, Executed;
    forall j | 0 <= j < |tips| && tips[j] !in voided
      ensures i == j
    {
      ExecutedTipIsOnly(dag, known, voided, tips, p, tips[i], tips[j]);
    }
  }

  lemma {:induction false} LowerScore(dag: Store, known: set<VertexId>, tips: seq<VertexId>, block: VertexId,
                                      best: VertexId)
    requires WellFormed(dag) && IsBlock(dag, block) && known == Blocks(dag) - {block}
    requires TipsExact(dag, known, tips) && best in tips && IsBlock(dag, best)
    requires ConeWork(dag, block) < ConeWork(dag, best)
    ensures TipsExact(dag, Blocks(dag), tips)
  {
    hide WellFormed, Chain, ConeWork;
    assert Highest(dag, known, best);
    forall b
      ensures Highest(dag, known, b) <==> Highest(dag, Blocks(dag), b)
    {
    }
  }

  lemma {:induction false} HigherScore(dag: Store, known: set<VertexId>, tips: seq<VertexId>, block: VertexId,
                                       best: VertexId)
    requires WellFormed(dag) && IsBlock(dag, block) && known == Blocks(dag) - {block}
    requires TipsExact(dag, known, tips) && best in tips && IsBlock(dag, best)
    requires ConeWork(dag, block) > ConeWork(dag, best)
    ensures TipsExact(dag, Blocks(dag), [block])
    ensures Meet(dag, [block], block)
  {
    hide WellFormed, Chain, ConeWork;
    assert Highest(dag, known, best);
    OnChainStep(dag, block, block);
    forall b
      ensures b in [block] <==> Highest(dag, Blocks(dag), b)
    {
    }
    forall c | forall t :: t in [block] ==> OnChain(dag, c, t)
      ensures OnChain(dag, c, block)
    {
      assert block in [block];
    }
  }

  lemma {:induction false} EqualScore(dag: Store, known: set<VertexId>, tips: seq<VertexId>, block: VertexId,
                                      best: VertexId,
                                      p: VertexId, common: VertexId)
    requires WellFormed(dag) && IsBlock(dag, block) && known == Blocks(dag) - {block}
    requires TipsExact(dag, known, tips) && best in tips && IsBlock(dag, best)
    requires ConeWork(dag, block) == ConeWork(dag, best)
    requires Meet(dag, tips, p) && p in known && Closed(dag, known) && ForkOf(dag, block, p, common)
    ensures TipsExact(dag, Blocks(dag), tips + [block])
    ensures Meet(dag, tips + [block], common)
  {
    hide WellFormed, Chain, ConeWork;
    assert Highest(dag, known, best);
    var tips' := tips + [block];
    forall b
      ensures b in tips' <==> Highest(dag, Blocks(dag), b)
    {
      assert b in tips' <==> b in tips || b == block;
    }
    assert block !in tips;
    forall t | t in tips'
      ensures IsBlock(dag, t) && OnChain(dag, common, t)
    {
      if t in tips {
        OnChainTrans(dag, common, p, t);
      }
    }
    forall c | forall t :: t in tips' ==> OnChain(dag, c, t)
      ensures OnChain(dag, c, common)
    {
      assert block in tips';
      forall t | t in tips
        ensures OnChain(dag, c, t)
      {
        assert t in tips';
      }
      assert OnChain(dag, c, p);
      if c == block {
        assert false;
      }
    }
  }

  lemma {:induction false} TipsKnown(dag: Store, known: set<VertexId>, tips: seq<VertexId>, block: VertexId)
    requires WellFormed(dag) && TipsExact(dag, known, tips) && block !in known
    ensures |tips| > 0 && block !in tips && forall t :: t in tips ==> IsBlock(dag, t) && t in known
  {
    assert forall t :: t in tips ==> Highest(dag, known, t);
  }

  lemma {:induction false} ForkFacts(dag: Store, block: VertexId, p: VertexId, fork: VertexId)
    requires WellFormed(dag) && IsBlock(dag, block) && IsBlock(dag, p) && ForkOf(dag, block, p, fork)
    ensures IsBlock(dag, fork) && OnChain(dag, fork, block) && fork != block && OnChain(dag, fork, p)
  {
  }

  /** `fork` is the newest block that the chain of `block` shares with the chains of all tips. */
  ghost predicate NewestCommon(dag: Store, tips: seq<VertexId>, block: VertexId, fork: VertexId)
    requires WellFormed(dag) && IsBlock(dag, block)
  {
    && IsBlock(dag, fork) && (forall t :: t in tips ==> IsBlock(dag, t))
    && forall c :: OnChain(dag, c, fork) <==> OnChain(dag, c, block) && forall t :: t in tips ==> OnChain(dag, c, t)
  }

  lemma {:induction false} ForkIsNewest(dag: Store, known: set<VertexId>, tips: seq<VertexId>, p: VertexId, block: VertexId, fork: VertexId)
    requires WellFormed(dag) && IsBlock(dag, block) && IsBlock(dag, p) && Arriving(dag, block) && block !in tips
    requires TipsExact(dag, known, tips) && Meet(dag, tips, p) && ForkOf(dag, block, p, fork)
    ensures NewestCommon(dag, tips, block, fork)
  {
    hide WellFormed, Chain, ConeWork;
    var first := tips[0];
    assert first in tips;
    if OnChain(dag, block, first) {
      var n := NextOnChain(dag, block, first);
    }
    forall c
      ensures OnChain(dag, c, fork) <==> OnChain(dag, c, block) && forall t :: t in tips ==> OnChain(dag, c, t)
    {
      if OnChain(dag, c, fork) {
        OnChainTrans(dag, c, fork, block);
        OnChainTrans(dag, c, fork, p);
        forall t | t in tips
          ensures OnChain(dag, c, t)
        {
          OnChainTrans(dag, c, p, t);
        }
      }
    }
  }

  /** Every best tip descends from the fork block, through the end `p` of the executed chain. */
  lemma {:induction false} HeadsDescend(dag: Store, known: set<VertexId>, voided: set<VertexId>, tips: seq<VertexId>,
                                        p: VertexId, block: VertexId, common: VertexId)
    requires WellFormed(dag) && IsBlock(dag, block) && Executed(dag, known, voided, p)
    requires TipsExact(dag, known, tips) && Meet(dag, tips, p) && ForkOf(dag, block, p, common)
    ensures forall i :: 0 <= i < |tips| ==> Descending(dag, known, voided, p, tips[i], common)
  {
    hide WellFormed, Chain;
    forall i | 0 <= i < |tips|
      ensures Descending(dag, known, voided, p, tips[i], common)
    {
      assert tips[i] in tips;
      assert Highest(dag, known, tips[i]);
    }
  }

  /** In a tie every old head ends up voided. */
  lemma {:induction false} TieVoids(dag: Store, known: set<VertexId>, voided: set<VertexId>, tips: seq<VertexId>,
                                    p: VertexId, block: VertexId, common: VertexId, h: VertexId)
    requires WellFormed(dag) && IsBlock(dag, block) && IsBlock(dag, p) && Executed(dag, known, voided, common)
    requires TipsExact(dag, known, tips) && Meet(dag, tips, p) && ForkOf(dag, block, p, common)
    requires h in tips && IsBlock(dag, h) && ConeWork(dag, block) == ConeWork(dag, h)
    ensures h in voided
  {
    hide WellFormed, Chain, ConeWork;
    assert Highest(dag, known, h);
    if h !in voided {
      OnChainTrans(dag, h, common, block);
      ConeWorkMonotone(dag, h, block);
      ConeWorkMonotone(dag, common, block);
      OnChainPrefix(dag, h, common);
      OnChainPrefix(dag, common, block);
    }
  }

  /** The fork block is a best tip exactly when no best tip is left behind by `block`. */
  lemma {:induction false} TipLeftBehind(dag: Store, known: set<VertexId>, tips: seq<VertexId>,
                                         p: VertexId, block: VertexId, common: VertexId)
    requires WellFormed(dag) && IsBlock(dag, block) && block !in known && IsBlock(dag, p)
    requires TipsExact(dag, known, tips) && Meet(dag, tips, p) && ForkOf(dag, block, p, common)
    ensures common in tips <==> forall t :: t in tips ==> OnChain(dag, t, block)
    ensures common !in tips ==> forall t :: t in tips ==> IsBlock(dag, t) && OnChain(dag, common, t) && t != common
  {
    hide WellFormed, Chain, ConeWork;
    forall t | t in tips
      ensures OnChain(dag, common, t)
      ensures common in tips ==> t == common
    {
      OnChainTrans(dag, common, p, t);
      if common in tips {
        TipsApart(dag, known, tips, common, t);
      }
    }
    if forall t :: t in tips ==> OnChain(dag, t, block) {
      var t := tips[0];
      forall c | c in tips
        ensures OnChain(dag, t, c)
      {
        OnChainTotal(dag, t, c, block);
        OnChainTotal(dag, c, t, block);
        if OnChain(dag, t, c) {
          TipsApart(dag, known, tips, t, c);
        } else {
          TipsApart(dag, known, tips, c, t);
        }
      }
      assert OnChain(dag, t, p);
      assert Highest(dag, known, t);
      assert OnChain(dag, t, common);
      OnChainPrefix(dag, t, common);
      OnChainPrefix(dag, common, t);
    }
  }

  /** The new block is not on the indexed chain. */
  lemma {:induction false} NotIndexed(dag: Store, known: set<VertexId>, x: VertexId, block: VertexId)
    requires WellFormed(dag) && IsBlock(dag, block) && Closed(dag, known) && block !in known
    requires IsBlock(dag, x) && x in known
    ensures !(Height(dag, block) < |Chain(dag, x)| && Chain(dag, x)[Height(dag, block)] == block)
  {
    assert !OnChain(dag, block, x);
  }

  // ----- rewriting the height index -----

  /** Two blocks of one chain at the same height agree; an index entry names its whole chain. */
  lemma {:induction false} SharedPrefix(dag: Store, x: VertexId, a: VertexId)
    requires WellFormed(dag) && IsBlock(dag, x) && IsBlock(dag, a)
    requires Height(dag, a) < |Chain(dag, x)| && Chain(dag, x)[Height(dag, a)] == a
    ensures Chain(dag, x)[..Height(dag, a) + 1] == Chain(dag, a)
  {
    OnChainPrefix(dag, a, x);
  }

  /** `items` are the blocks from `block` down to, but without, `a`, each with its height. */
  ghost predicate Collected(dag: Store, block: VertexId, a: VertexId, items: seq<(nat, VertexId)>)
    requires WellFormed(dag) && IsBlock(dag, block) && IsBlock(dag, a)
  {
    && |items| == Height(dag, block) - Height(dag, a)
    && forall i :: 0 <= i < |items| ==>
         items[i] == (Height(dag, block) - i, Chain(dag, block)[Height(dag, block) - i])
  }

  lemma {:induction false} NotGenesis(dag: Store, x: VertexId, a: VertexId)
    requires WellFormed(dag) && IsBlock(dag, x) && IsBlock(dag, a)
    requires !(Height(dag, a) < |Chain(dag, x)| && Chain(dag, x)[Height(dag, a)] == a)
    ensures !IsGenesis(dag, a) && IsBlock(dag, BlockParent(dag, a))
    ensures dag[BlockParent(dag, a)].timestamp < dag[a].timestamp
    ensures Height(dag, BlockParent(dag, a)) + 1 == Height(dag, a)
  {
    if IsGenesis(dag, a) {
      GenesisOnChain(dag, a, x);
      OnChainPrefix(dag, a, x);
      assert false;
    }
    BlockParentIsBlock(dag, a);
    OnChainStep(dag, a, a);
  }

  lemma {:induction false} CollectStep(dag: Store, block: VertexId, a: VertexId, items: seq<(nat, VertexId)>)
    requires WellFormed(dag) && IsBlock(dag, block) && IsBlock(dag, a) && !IsGenesis(dag, a)
    requires IsBlock(dag, BlockParent(dag, a)) && OnChain(dag, a, block)
    requires Collected(dag, block, a, items)
    ensures Collected(dag, block, BlockParent(dag, a), items + [(Height(dag, a), a)])
    ensures OnChain(dag, BlockParent(dag, a), block) && BlockParent(dag, a) != block
  {
    hide WellFormed, Chain;
    var b := BlockParent(dag, a);
    OnChainPrefix(dag, a, block);
    OnChainStep(dag, b, b);
    OnChainStep(dag, b, a);
    OnChainTrans(dag, b, a, block);
  }

  lemma {:induction false} CollectUndo(dag: Store, block: VertexId, a: VertexId, items: seq<(nat, VertexId)>)
    returns (b: VertexId)
    requires WellFormed(dag) && IsBlock(dag, block) && IsBlock(dag, a) && OnChain(dag, a, block)
    requires |items| > 0 && Collected(dag, block, a, items)
    ensures IsBlock(dag, b) && OnChain(dag, b, block) && !IsGenesis(dag, b) && BlockParent(dag, b) == a
    ensures items[|items| - 1] == (Height(dag, b), b) && Height(dag, b) == Height(dag, a) + 1
    ensures Collected(dag, block, b, items[..|items| - 1])
  {
    hide WellFormed, Chain;
    OnChainPrefix(dag, a, block);
    b := Chain(dag, block)[Height(dag, a) + 1];
    assert OnChain(dag, b, block);
    AtHeight(dag, block, Height(dag, a) + 1);
    OnChainStep(dag, b, b);
    OnChainStep(dag, BlockParent(dag, b), b);
    OnChainStep(dag, BlockParent(dag, b), BlockParent(dag, b));
    OnChainTrans(dag, BlockParent(dag, b), b, block);
    OnChainPrefix(dag, BlockParent(dag, b), block);
  }

  /** The block at position `h` of a chain has height `h`. */
  lemma {:induction false} AtHeight(dag: Store, b: VertexId, h: nat)
    requires WellFormed(dag) && IsBlock(dag, b) && h <= Height(dag, b)
    ensures IsBlock(dag, Chain(dag, b)[h]) && Height(dag, Chain(dag, b)[h]) == h
    ensures OnChain(dag, Chain(dag, b)[h], b)
    decreases dag[b].timestamp
  {
    OnChainStep(dag, b, b);
    if h < Height(dag, b) {
      BlockParentIsBlock(dag, b);
      AtHeight(dag, BlockParent(dag, b), h);
    }
  }

  lemma {:induction false} ChainEnd(dag: Store, b: VertexId)
    requires WellFormed(dag) && IsBlock(dag, b) && !IsGenesis(dag, b)
    ensures IsBlock(dag, BlockParent(dag, b))
    ensures Chain(dag, b) == Chain(dag, BlockParent(dag, b)) + [b]
  {
    BlockParentIsBlock(dag, b);
  }

  lemma {:induction false} CollectedAll(dag: Store, block: VertexId, a: VertexId)
    requires WellFormed(dag) && IsBlock(dag, block) && IsBlock(dag, a) && OnChain(dag, a, block)
    requires Collected(dag, block, a, [])
    ensures a == block
  {
    OnChainPrefix(dag, a, block);
  }

  // ----- growth of the store -----

  /** A vertex that was accepted by validation: everything it needs is stored. */
  ghost predicate CanAdd(dag: Store, id: VertexId, v: Vertex) {
    id !in dag && WellFormed(dag[id := v])
  }

  ghost predicate Acceptable(dag: Store, arrivals: seq<(VertexId, Vertex)>)
    decreases |arrivals|
  {
    arrivals != [] ==>
      && CanAdd(dag, arrivals[0].0, arrivals[0].1)
      && Acceptable(dag[arrivals[0].0 := arrivals[0].1], arrivals[1..])
  }

  function AfterArrivals(dag: Store, arrivals: seq<(VertexId, Vertex)>): Store
    decreases |arrivals|
  {
    if arrivals == [] then dag else AfterArrivals(dag[arrivals[0].0 := arrivals[0].1], arrivals[1..])
  }

  lemma {:induction false} GrowExtends(dag: Store, id: VertexId, v: Vertex)
    requires WellFormed(dag) && CanAdd(dag, id, v)
    ensures Extends(dag, dag[id := v])
    ensures v.isBlock ==> Blocks(dag[id := v]) - {id} == Blocks(dag) && Arriving(dag[id := v], id)
    ensures !v.isBlock ==> Blocks(dag[id := v]) == Blocks(dag)
  {
    var dag' := dag[id := v];
    forall c | c in dag'
      ensures id !in dag'[c].parents
    {
      if id in dag'[c].parents {
        var i :| 0 <= i < |dag'[c].parents| && dag'[c].parents[i] == id;
        assert id in Deps(dag', c);
        DepsOlder(dag', c);
        if c != id {
          assert id in Deps(dag, c);
          DepsOlder(dag, c);
        }
      }
    }
  }

  lemma {:induction false} GenesisAtStart(dag: Store, b: VertexId)
    requires WellFormed(dag) && IsBlock(dag, b)
    ensures IsGenesis(dag, Chain(dag, b)[0])
    decreases dag[b].timestamp
  {
    if !IsGenesis(dag, b) {
      BlockParentIsBlock(dag, b);
      GenesisAtStart(dag, BlockParent(dag, b));
    }
  }

  lemma {:induction false} NotSecondGenesis(dag: Store, id: VertexId, v: Vertex, p: VertexId)
    requires WellFormed(dag) && CanAdd(dag, id, v) && IsBlock(dag, p)
    ensures !IsGenesis(dag[id := v], id)
  {
    GenesisAtStart(dag, p);
    assert IsGenesis(dag[id := v], Chain(dag, p)[0]);
  }

  /** Nothing about the blocks already there changes when the store grows. */
  ghost predicate Stable(dag: Store, dag': Store)
    requires WellFormed(dag) && WellFormed(dag')
  {
    forall b :: IsBlock(dag, b) ==>
      && IsBlock(dag', b) && dag'[b] == dag[b]
      && Chain(dag', b) == Chain(dag, b)
      && TxPast(dag', b) == TxPast(dag, b)
      && ConeWork(dag', b) == ConeWork(dag, b)
  }

  lemma {:induction false} GrowStable(dag: Store, dag': Store)
    requires Extends(dag, dag')
    ensures Stable(dag, dag')
  {
    hide WellFormed, Chain, TxPast, ConeWork;
    forall b | IsBlock(dag, b)
      ensures Chain(dag', b) == Chain(dag, b)
      ensures TxPast(dag', b) == TxPast(dag, b)
      ensures ConeWork(dag', b) == ConeWork(dag, b)
    {
      BlockStable(dag, dag', b);
    }
  }

  lemma {:induction false} GrowMarkers(dag: Store, dag': Store, p: VertexId, firstBlock: map<VertexId, VertexId>)
    requires WellFormed(dag) && WellFormed(dag') && Stable(dag, dag') && Markers(dag, p, firstBlock)
    ensures Markers(dag', p, firstBlock)
  {
    hide WellFormed, Chain, TxPast, ConeWork;
  }

  lemma {:induction false} GrowTips(dag: Store, dag': Store, tips: seq<VertexId>)
    requires WellFormed(dag) && WellFormed(dag') && Stable(dag, dag')
    requires TipsExact(dag, Blocks(dag), tips)
    ensures TipsExact(dag', Blocks(dag), tips)
  {
    hide WellFormed, Chain, TxPast, ConeWork;
    forall b
      ensures Highest(dag, Blocks(dag), b) <==> Highest(dag', Blocks(dag), b)
    {
    }
  }

  lemma {:induction false} GrowMeet(dag: Store, dag': Store, tips: seq<VertexId>, p: VertexId)
    requires WellFormed(dag) && WellFormed(dag') && Stable(dag, dag') && Meet(dag, tips, p)
    ensures Meet(dag', tips, p)
  {
    hide WellFormed, Chain, TxPast, ConeWork;
    forall c | forall t :: t in tips ==> OnChain(dag', c, t)
      ensures OnChain(dag', c, p)
    {
      forall t | t in tips
        ensures OnChain(dag, c, t)
      {
        assert OnChain(dag', c, t);
      }
      assert OnChain(dag, c, p);
    }
  }

  lemma {:induction false} Grow(dag: Store, dag': Store, score: map<VertexId, nat>,
                                firstBlock: map<VertexId, VertexId>, voided: set<VertexId>,
                                tips: seq<VertexId>, index: seq<VertexId>, p: VertexId, x: VertexId)
    requires Extends(dag, dag')
    requires Consistent(dag, Blocks(dag), score, firstBlock, voided, tips, index, p, x)
    ensures Consistent(dag', Blocks(dag), score, firstBlock, voided, tips, index, p, x)
  {
    hide WellFormed, Chain, TxPast, ConeWork, Markers, TipsExact, Meet;
    GrowStable(dag, dag');
    GrowMarkers(dag, dag', p, firstBlock);
    GrowTips(dag, dag', tips);
    GrowMeet(dag, dag', tips, p);
  }

  /** The state with only the genesis block. */
  lemma {:induction false} GenesisConsistent(dag: Store, g: VertexId)
    requires WellFormed(dag) && dag.Keys == {g} && IsGenesis(dag, g)
    ensures Consistent(dag, Blocks(dag), map[g := dag[g].work], map[], {}, [g], [g], g, g)
  {
    assert Blocks(dag) == {g};
    assert Chain(dag, g) == [g];
    assert ChainSet(dag, g) == {g};
    WorkRemove(dag, {g}, g);
    assert {g} - {g} == {};
    assert ConeWork(dag, g) == dag[g].work;
    forall b
      ensures b in [g] <==> Highest(dag, Blocks(dag), b)
    {
    }
    forall c | forall t :: t in [g] ==> OnChain(dag, c, t)
      ensures OnChain(dag, c, g)
    {
      assert g in [g];
    }
  }

  // ----- what holds in every consistent state -----

  /** The blocks that are not voided are exactly those common to the chains of all best tips. */
  lemma {:induction false} ExecutedIsCommonPrefix(dag: Store, score: map<VertexId, nat>,
                                                  firstBlock: map<VertexId, VertexId>, voided: set<VertexId>,
                                                  tips: seq<VertexId>, index: seq<VertexId>, p: VertexId, x: VertexId, b: VertexId)
    requires Consistent(dag, Blocks(dag), score, firstBlock, voided, tips, index, p, x) && IsBlock(dag, b)
    ensures b !in voided <==> forall t :: t in tips ==> IsBlock(dag, t) && OnChain(dag, b, t)
  {
    hide WellFormed, Chain, TxPast, ConeWork, Markers, TipsExact;
    if b !in voided {
      forall t | t in tips
        ensures OnChain(dag, b, t)
      {
        OnChainTrans(dag, b, p, t);
      }
    }
  }

  /** `first_block` is the earliest block that is not voided and has the transaction in its past. */
  lemma {:induction false} FirstBlockIsEarliest(dag: Store, score: map<VertexId, nat>,
                                                firstBlock: map<VertexId, VertexId>, voided: set<VertexId>,
                                                tips: seq<VertexId>, index: seq<VertexId>, p: VertexId, x: VertexId, t: VertexId)
    requires Consistent(dag, Blocks(dag), score, firstBlock, voided, tips, index, p, x)
    ensures t in firstBlock <==> exists b :: IsBlock(dag, b) && b !in voided && t in TxPast(dag, b)
    ensures t in firstBlock ==>
              && IsBlock(dag, firstBlock[t]) && firstBlock[t] !in voided && t in TxPast(dag, firstBlock[t])
              && forall b :: IsBlock(dag, b) && b !in voided && t in TxPast(dag, b) ==> OnChain(dag, firstBlock[t], b)
  {
    hide WellFormed, Chain, TxPast, ConeWork, TipsExact, Meet;
    OnChainStep(dag, p, p);
    forall b | IsBlock(dag, b) && b !in voided && t in TxPast(dag, b)
      ensures t in firstBlock && OnChain(dag, firstBlock[t], b)
    {
      TxPastMonotone(dag, b, p);
      var f := firstBlock[t];
      OnChainTotal(dag, f, b, p);
      OnChainTotal(dag, b, f, p);
      if !OnChain(dag, f, b) {
        OnChainStep(dag, b, f);
        TxPastMonotone(dag, b, BlockParent(dag, f));
        assert false;
      }
    }
  }

  /** The index is the parent path from genesis to a highest-score block, without gaps, and has
      every block that is not voided at its own height. */
  lemma {:induction false} IndexIsBestChain(dag: Store, score: map<VertexId, nat>,
                                            firstBlock: map<VertexId, VertexId>, voided: set<VertexId>,
                                            tips: seq<VertexId>, index: seq<VertexId>, p: VertexId, x: VertexId)
    requires Consistent(dag, Blocks(dag), score, firstBlock, voided, tips, index, p, x)
    ensures |index| > 0 && IsGenesis(dag, index[0])
    ensures Highest(dag, Blocks(dag), index[|index| - 1])
    ensures forall i :: 0 < i < |index| ==>
              IsBlock(dag, index[i]) && !IsGenesis(dag, index[i]) && BlockParent(dag, index[i]) == index[i - 1]
    ensures forall b :: IsBlock(dag, b) && b !in voided ==> Height(dag, b) < |index| && index[Height(dag, b)] == b
  {
    GenesisAtStart(dag, x);
    assert Highest(dag, Blocks(dag), x);
    forall i | 0 < i < |index|
      ensures IsBlock(dag, index[i]) && !IsGenesis(dag, index[i]) && BlockParent(dag, index[i]) == index[i - 1]
    {
      LinkAtHeight(dag, x, i);
    }
    forall b | IsBlock(dag, b) && b !in voided
      ensures Height(dag, b) < |index| && index[Height(dag, b)] == b
    {
      OnChainTrans(dag, b, p, x);
      OnChainPrefix(dag, b, x);
    }
  }

  lemma {:induction false} LinkAtHeight(dag: Store, b: VertexId, h: nat)
    requires WellFormed(dag) && IsBlock(dag, b) && 0 < h <= Height(dag, b)
    ensures IsBlock(dag, Chain(dag, b)[h]) && !IsGenesis(dag, Chain(dag, b)[h])
    ensures BlockParent(dag, Chain(dag, b)[h]) == Chain(dag, b)[h - 1]
    decreases dag[b].timestamp
  {
    OnChainStep(dag, b, b);
    BlockParentIsBlock(dag, b);
    if h < Height(dag, b) {
      LinkAtHeight(dag, BlockParent(dag, b), h);
    }
  }
}
