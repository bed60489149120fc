/** The block consensus: fork choice, scores, first blocks and the height index, step by step. */
module BlockConsensus {
  import opened Dag
  import opened BlockMetadata
  import opened ForkChoice
  import opened HeightIndex
  import opened Wrappers

  class Consensus {
    var dag: Store
    var score: map<VertexId, nat>
    var firstBlock: map<VertexId, VertexId>
    var voided: set<VertexId>
    var bestTips: seq<VertexId>
    var heightIndex: seq<VertexId>

    /** One walk of the score computation, from one transaction parent of `block`.
        Any pending vertex may be taken next, so the result holds for every visiting order. */
    method ScoreWalk(root: VertexId, block: VertexId, used: set<VertexId>, mark: bool, newest: nat,
                     ghost fork: VertexId, ghost done: set<VertexId>)
      returns (gain: nat, used': set<VertexId>)
      requires WellFormed(dag) && IsTx(dag, root) && IsBlock(dag, block)
      requires PrunesAt(dag, fork, firstBlock)
      requires newest == dag[fork].timestamp < dag[block].timestamp
      requires done == used + TxPast(dag, fork) && TxClosed(dag, done) && done <= dag.Keys
      requires mark ==> firstBlock.Keys == done
      modifies this`firstBlock
      ensures PrunesAt(dag, fork, firstBlock)
      ensures used' + TxPast(dag, fork) == done + TxReach(dag, root)
      ensures TxClosed(dag, done + TxReach(dag, root)) && TxReach(dag, root) <= dag.Keys
      ensures gain == Work(dag, TxReach(dag, root) - done)
      ensures Marked(old(firstBlock), if mark then TxReach(dag, root) - done else {}, block, firstBlock)
    {
      hide WellFormed, TxPast, Chain, TxReach, Work, TxClosedUpTo;
      TxReachIsClosed(dag, root);
      ghost var visited: set<VertexId> := {};
      var pending := {root};
      gain, used' := 0, used;
      WalkStart(dag, root, done);
      while pending != {}
        invariant Walking(dag, root, done, visited, pending)
        invariant used + visited <= used' <= done + visited
        invariant visited <= dag.Keys && gain == Work(dag, visited)
        invariant PrunesAt(dag, fork, firstBlock)
        invariant Marked(old(firstBlock), if mark then visited else {}, block, firstBlock)
        decreases dag.Keys - visited, pending
      {
        var tx :| tx in pending;
        if dag[tx].isBlock || tx in used' {
          WalkSkip(dag, root, done, visited, pending, tx);
          pending := pending - {tx};
          continue;
        }
        used' := used' + {tx};
        if tx in firstBlock && dag[firstBlock[tx]].timestamp <= newest {
          WalkSkip(dag, root, done, visited, pending, tx);
          pending := pending - {tx};
          continue;
        }
        assert tx !in TxPast(dag, fork);
        if mark {
          assert tx !in firstBlock;
          MarkOne(dag, fork, old(firstBlock), visited, firstBlock, tx, block);
          firstBlock := firstBlock[tx := block];
        }
        WorkAdd(dag, visited, tx);
        gain := gain + dag[tx].work;
        WalkVisit(dag, root, done, visited, pending, tx);
        visited := visited + {tx};
        pending := pending - {tx} + Deps(dag, tx);
      }
      WalkDone(dag, root, done, visited);
    }

    /** The transaction parents of `block`, in order, after everything confirmed before is in `used`
        or is marked no later than `fork`. */
    method ScoreTxParents(block: VertexId, used: set<VertexId>, mark: bool, newest: nat, ghost fork: VertexId)
      returns (gain: nat, used': set<VertexId>)
      requires WellFormed(dag) && IsBlock(dag, block) && !IsGenesis(dag, block)
      requires IsBlock(dag, BlockParent(dag, block))
      requires PrunesAt(dag, fork, firstBlock)
      requires newest == dag[fork].timestamp < dag[block].timestamp
      requires used + TxPast(dag, fork) == TxPast(dag, BlockParent(dag, block))
      requires mark ==> firstBlock.Keys == TxPast(dag, BlockParent(dag, block))
      modifies this`firstBlock
      ensures PrunesAt(dag, fork, firstBlock)
      ensures used' + TxPast(dag, fork) == TxPast(dag, block)
      ensures TxPast(dag, block) <= dag.Keys
      ensures gain == Work(dag, TxPast(dag, block) - TxPast(dag, BlockParent(dag, block)))
      ensures Marked(old(firstBlock), if mark then TxPast(dag, block) - TxPast(dag, BlockParent(dag, block)) else {},
                     block, firstBlock)
    {
      hide Scored, WellFormed, TxPast, Chain, TxReach, Marked, Work, TxClosed, ReachOfParents;
      gain, used' := 0, used;
      var i := 1;
      ScoredFirst(dag, block, fork, mark, firstBlock, used);
      while i < |dag[block].parents|
        invariant 1 <= i <= |dag[block].parents|
        invariant PrunesAt(dag, fork, firstBlock)
        invariant Scored(dag, block, fork, mark, i, old(firstBlock), used', gain, firstBlock)
      {
        var root := dag[block].parents[i];
        TxParentIsTx(dag, block, i);
        ghost var before, usedBefore := firstBlock, used';
        ghost var done := ScoredDone(dag, block, fork, mark, i, old(firstBlock), used', gain, firstBlock);
        var more;
        more, used' := ScoreWalk(root, block, used', mark, newest, fork, done);
        ScoredStep(dag, block, fork, mark, i, old(firstBlock), usedBefore, gain, before, used', more, firstBlock);
        gain := gain + more;
        i := i + 1;
      }
      ScoredLast(dag, block, fork, mark, old(firstBlock), used', gain, firstBlock);
    }

    /** The recursive score computation; `fork` is the block whose timestamp is `newest`. */
    method ScoreBlockDfs(block: VertexId, used: set<VertexId>, mark: bool, newest: nat, ghost fork: VertexId)
      returns (total: nat, used': set<VertexId>)
      requires WellFormed(dag) && IsBlock(dag, block)
      requires OnChain(dag, fork, block) && fork != block
      requires PrunesAt(dag, fork, firstBlock) && newest == dag[fork].timestamp
      requires used == {}
      requires mark ==> Markers(dag, fork, firstBlock)
      requires ScoresOf(dag, score)
      requires forall c :: OnChain(dag, c, block) && c != block ==> c in score
      modifies this`firstBlock, this`score
      ensures total == ConeWork(dag, block)
      ensures score == old(score)[block := total]
      ensures used' + TxPast(dag, fork) == TxPast(dag, block)
      ensures PrunesAt(dag, fork, firstBlock)
      ensures if mark then Markers(dag, block, firstBlock) else firstBlock == old(firstBlock)
      decreases dag[block].timestamp
    {
      hide WellFormed, TxPast, Chain, TxReach, Work, Deps, ConeWork;
      OnChainStep(dag, fork, block);
      ParentScored(dag, block, score);
      ConeWorkStep(dag, block);
      OnChainPrefix(dag, fork, block);
      var parent := BlockParent(dag, block);
      OnChainPrefix(dag, fork, parent);
      total, used' := dag[block].work, used;
      if dag[parent].timestamp <= newest {
        assert fork == parent;
        total := total + score[parent];
      } else {
        var x;
        BlockParentIsBlock(dag, block);
        x, used' := ScoreBlockDfs(parent, used', mark, newest, fork);
        total := total + x;
        assert score == old(score);
      }
      ghost var before := firstBlock;
      var gain;
      gain, used' := ScoreTxParents(block, used', mark, newest, fork);
      total := total + gain;
      if mark {
        MarkersStep(dag, block, before, firstBlock);
      } else {
        assert firstBlock == old(firstBlock);
      }
      if block !in score {
        score := score[block := total];
      } else {
        assert score[block] == total;
      }
    }

    /** Clears every `first_block` that points to `block`, by a walk that stops at other markers. */
    method RemoveFirstBlockMarkers(block: VertexId)
      requires WellFormed(dag) && IsBlock(dag, block) && !IsGenesis(dag, block)
      requires Markers(dag, block, firstBlock)
      modifies this`firstBlock
      ensures IsBlock(dag, BlockParent(dag, block)) && Markers(dag, BlockParent(dag, block), firstBlock)
      ensures Unmarked(old(firstBlock), block, firstBlock)
    {
      hide WellFormed, TxPast, Chain, TxClosedUpTo, Deps, Markers;
      UnmarkStart(dag, block, firstBlock);
      ghost var visited: set<VertexId> := {};
      var pending := Deps(dag, block);
      while pending != {}
        invariant Unmarking(dag, block, old(firstBlock), visited, pending, firstBlock)
        decreases TxPast(dag, block) - visited, pending
      {
        var tx :| tx in pending;
        if dag[tx].isBlock || tx !in firstBlock || firstBlock[tx] != block {
          UnmarkSkip(dag, block, old(firstBlock), visited, pending, firstBlock, tx);
          pending := pending - {tx};
        } else {
          UnmarkVisit(dag, block, old(firstBlock), visited, pending, firstBlock, tx);
          firstBlock := firstBlock - {tx};
          visited := visited + {tx};
          pending := pending - {tx} + Deps(dag, tx);
        }
      }
      UnmarkDone(dag, block, old(firstBlock), visited, firstBlock);
      UnmarkedExactly(dag, block, old(firstBlock), firstBlock);
    }

    /** The closest proper ancestor of `block` that is not voided: the block where the fork started. */
    method FindFirstParentInBestChain(block: VertexId, ghost known: set<VertexId>, ghost p: VertexId)
      returns (fork: VertexId)
      requires WellFormed(dag) && IsBlock(dag, block) && !IsGenesis(dag, block)
      requires IsBlock(dag, p) && Executed(dag, known, voided, p) && AncestorsIn(dag, block, known)
      ensures ForkOf(dag, block, p, fork)
    {
      hide WellFormed, Chain, Executed;
      BlockParentIsBlock(dag, block);
      fork := BlockParent(dag, block);
      ForkStart(dag, block, p);
      while fork in voided
        invariant ForkAbove(dag, block, p, fork)
        decreases dag[fork].timestamp
      {
        ForkStep(dag, block, known, voided, p, fork);
        assert |dag[fork].parents| > 0;
        fork := BlockParent(dag, fork);
      }
      ForkFound(dag, block, known, voided, p, fork);
    }

    /** The score of `block`; with `mark`, also the `first_block` of everything it newly confirms. */
    method CalculateScore(block: VertexId, mark: bool, ghost known: set<VertexId>, ghost p: VertexId)
      returns (total: nat)
      requires WellFormed(dag) && IsBlock(dag, block) && !IsGenesis(dag, block)
      requires IsBlock(dag, p) && Executed(dag, known, voided, p) && AncestorsIn(dag, block, known)
      requires Markers(dag, p, firstBlock)
      requires ScoresOf(dag, score) && known - {block} <= score.Keys
      requires mark ==> OnChain(dag, p, block) && p != block
      modifies this`firstBlock, this`score
      ensures total == ConeWork(dag, block)
      ensures score == old(score)[block := total]
      ensures if mark then Markers(dag, block, firstBlock) else firstBlock == old(firstBlock)
    {
      hide WellFormed, Chain, TxPast, ConeWork, Executed, Markers, ScoresOf;
      var fork := FindFirstParentInBestChain(block, known, p);
      MarkersPrune(dag, p, fork, firstBlock);
      if mark {
        ForkIsHead(dag, block, p, fork);
      }
      var newest := dag[fork].timestamp;
      var used;
      total, used := ScoreBlockDfs(block, {}, mark, newest, fork);
    }

    /** Unmarking undoes marking: a block that is scored with markers and then unmarked leaves none behind. */
    method MarkThenUnmark(block: VertexId, ghost known: set<VertexId>)
      requires WellFormed(dag) && IsBlock(dag, block) && !IsGenesis(dag, block)
      requires IsBlock(dag, BlockParent(dag, block)) && Executed(dag, known, voided, BlockParent(dag, block))
      requires AncestorsIn(dag, block, known) && Markers(dag, BlockParent(dag, block), firstBlock)
      requires ScoresOf(dag, score) && known - {block} <= score.Keys
      modifies this`firstBlock, this`score
      ensures firstBlock == old(firstBlock)
    {
      hide WellFormed, Chain, TxPast, ConeWork, Executed, Markers, ScoresOf, Unmarked;
      ghost var parent := BlockParent(dag, block);
      OnChainStep(dag, parent, parent);
      OnChainStep(dag, parent, block);
      var _ := CalculateScore(block, true, known, parent);
      RemoveFirstBlockMarkers(block);
      MarkersUnique(dag, parent, firstBlock, old(firstBlock));
    }

    method MarkAsVoided(block: VertexId, skipRemoveFirstBlockMarkers: bool)
      requires WellFormed(dag) && IsBlock(dag, block) && !IsGenesis(dag, block)
      requires !skipRemoveFirstBlockMarkers ==> Markers(dag, block, firstBlock)
      modifies this`firstBlock, this`voided
      ensures voided == old(voided) + {block}
      ensures IsBlock(dag, BlockParent(dag, block))
      ensures if skipRemoveFirstBlockMarkers then firstBlock == old(firstBlock)
              else Markers(dag, BlockParent(dag, block), firstBlock)
    {
      BlockParentIsBlock(dag, block);
      if !skipRemoveFirstBlockMarkers {
        RemoveFirstBlockMarkers(block);
      }
      voided := voided + {block};
    }

    /** Voids every chain in `heads` down to `common`, clearing the markers of what was executed. */
    method AddVoidedByToMultipleChains(heads: seq<VertexId>, common: VertexId, ghost known: set<VertexId>,
                                       ghost p: VertexId)
      requires WellFormed(dag) && Closed(dag, known)
      requires |heads| > 0 && forall i :: 0 <= i < |heads| ==> Descending(dag, known, voided, p, heads[i], common)
      requires Markers(dag, p, firstBlock)
      modifies this`firstBlock, this`voided
      ensures old(voided) <= voided <= old(voided) + known
      ensures Executed(dag, known, voided, common)
      ensures Markers(dag, common, firstBlock)
    {
      hide WellFormed, Chain, Executed, Markers, Closed;
      ghost var q := p;
      var i := 0;
      while i < |heads|
        invariant 0 <= i <= |heads|
        invariant i == 0 ==> q == p && voided == old(voided)
        invariant i > 0 ==> q == common && Executed(dag, known, voided, common)
        invariant old(voided) <= voided <= old(voided) + known
        invariant Markers(dag, q, firstBlock)
      {
        var head := heads[i];
        if i > 0 {
          DescendAgain(dag, known, old(voided), p, head, common, voided);
        }
        while dag[head].timestamp > dag[common].timestamp
          invariant Descending(dag, known, voided, q, head, common)
          invariant old(voided) <= voided <= old(voided) + known
          invariant Markers(dag, q, firstBlock)
          decreases dag[head].timestamp
        {
          DescendFacts(dag, known, voided, q, head, common);
          if head !in voided {
            DescendHead(dag, known, voided, head, common);
            MarkAsVoided(head, false);
            q := BlockParent(dag, head);
          } else {
            DescendVoided(dag, known, voided, q, head, common);
          }
          head := BlockParent(dag, head);
        }
        DescendDone(dag, known, voided, q, head, common);
        i := i + 1;
      }
    }

    /** Executes the chain of `block` again, from its head down to the first executed block. */
    method RemoveVoidedByFromChain(block: VertexId, ghost known: set<VertexId>, ghost p: VertexId)
      requires WellFormed(dag) && Executed(dag, known, voided, p)
      requires IsBlock(dag, block) && block in known && Closed(dag, known) && OnChain(dag, p, block)
      modifies this`voided
      ensures voided <= old(voided)
      ensures Executed(dag, known, voided, block)
    {
      hide WellFormed, Chain, Executed, Closed;
      ExecuteStart(dag, known, voided, p, block);
      var cur := block;
      while cur in voided
        invariant Executing(dag, known, voided, p, block, cur)
        invariant voided <= old(voided)
        decreases dag[cur].timestamp
      {
        ExecuteStep(dag, known, voided, p, block, cur);
        voided := voided - {cur};
        cur := BlockParent(dag, cur);
      }
      ExecuteDone(dag, known, voided, p, block, cur);
    }

    /** Rewrites the height index from the first height where it differs from the chain of `block`. */
    method UpdateNewChain(height: nat, block: VertexId, ghost x: VertexId)
      requires WellFormed(dag) && IsBlock(dag, block) && IsBlock(dag, x)
      requires height == Height(dag, block)
      requires heightIndex == Chain(dag, x)
      requires !Holds(heightIndex, height, block)
      modifies this`heightIndex
      ensures heightIndex == Chain(dag, block)
    {
      hide WellFormed, Chain;
      var blockHeight, sideChainBlock := height, block;
      var toAdd: seq<(nat, VertexId)> := [];
      OnChainStep(dag, block, block);
      while !Holds(heightIndex, blockHeight, sideChainBlock)
        invariant heightIndex == old(heightIndex)
        invariant IsBlock(dag, sideChainBlock) && blockHeight == Height(dag, sideChainBlock)
        invariant OnChain(dag, sideChainBlock, block)
        invariant sideChainBlock == block ==> toAdd == []
        invariant Collected(dag, block, sideChainBlock, toAdd)
        invariant |toAdd| > 0 ==> !Holds(heightIndex, toAdd[|toAdd| - 1].0, toAdd[|toAdd| - 1].1)
        decreases dag[sideChainBlock].timestamp
      {
        NotGenesis(dag, x, sideChainBlock);
        CollectStep(dag, block, sideChainBlock, toAdd);
        toAdd := toAdd + [(blockHeight, sideChainBlock)];
        sideChainBlock := BlockParent(dag, sideChainBlock);
        ghost var newHeight := Height(dag, sideChainBlock);
        assert newHeight + 1 == blockHeight;
        blockHeight := blockHeight - 1;
      }
      SharedPrefix(dag, x, sideChainBlock);
      ghost var last := sideChainBlock;
      var i := |toAdd|;
      while i > 0
        invariant 0 <= i <= |toAdd|
        invariant IsBlock(dag, last) && OnChain(dag, last, block)
        invariant Collected(dag, block, last, toAdd[..i])
        invariant i == |toAdd| ==> heightIndex == Chain(dag, x) && Height(dag, last) < |heightIndex|
                                   && heightIndex[..Height(dag, last) + 1] == Chain(dag, last)
        invariant i == |toAdd| && i > 0 ==> !Holds(heightIndex, toAdd[i - 1].0, toAdd[i - 1].1)
        invariant i < |toAdd| ==> heightIndex == Chain(dag, last)
      {
        i := i - 1;
        var item := toAdd[i];
        last := CollectUndo(dag, block, last, toAdd[..i + 1]);
        assert toAdd[..i + 1][..i] == toAdd[..i];
        ChainEnd(dag, last);
        var r := Add(heightIndex, item.0, item.1, true);
        assert r.Stored?;
        heightIndex := r.index;
        assert heightIndex == Chain(dag, last);
      }
      CollectedAll(dag, block, last);
    }

    /** All best tips have the same score, so any of them gives the best score. */
    method BestScore(heads: seq<VertexId>, ghost known: set<VertexId>) returns (best: nat)
      requires WellFormed(dag) && TipsExact(dag, known, heads) && ScoresOf(dag, score) && known <= score.Keys
      ensures forall t :: t in heads ==> IsBlock(dag, t) && best == ConeWork(dag, t)
    {
      hide WellFormed, Chain, ConeWork;
      assert Highest(dag, known, heads[0]);
      best := score[heads[0]];
      var i := 1;
      while i < |heads|
        invariant 1 <= i <= |heads|
        invariant best == ConeWork(dag, heads[0])
      {
        assert Highest(dag, known, heads[i]);
        assert best == score[heads[i]];
        i := i + 1;
      }
    }

    /** The best tips that are not voided: there is at most one. */
    method ValidHeads(heads: seq<VertexId>, ghost known: set<VertexId>, ghost p: VertexId)
      returns (valid: seq<VertexId>)
      requires WellFormed(dag) && TipsExact(dag, known, heads) && Meet(dag, heads, p)
      requires Executed(dag, known, voided, p)
      ensures |valid| <= 1
      ensures forall h :: h in valid <==> h in heads && h !in voided
    {
      hide WellFormed, Chain, ConeWork, Executed, TipsExact, Meet;
      valid := [];
      var i := 0;
      while i < |heads|
        invariant 0 <= i <= |heads|
        invariant |valid| <= 1
        invariant |valid| == 0 ==> forall j :: 0 <= j < i ==> heads[j] in voided
        invariant |valid| == 1 ==> valid[0] !in voided && valid[0] in heads[..i]
        invariant |valid| == 1 ==> forall j :: 0 <= j < |heads| && heads[j] != valid[0] ==> heads[j] in voided
      {
        if heads[i] !in voided {
          OneValidHead(dag, known, voided, heads, p, i);
          valid := valid + [heads[i]];
        }
        i := i + 1;
      }
      assert |valid| <= 1;
    }

    /** Case (i): `block` extends the only best chain. */
    method ExtendBestChain(block: VertexId, ghost p: VertexId, ghost x: VertexId)
      requires IsBlock(dag, block) && !IsGenesis(dag, block)
      requires Arriving(dag, block)
      requires Consistent(dag, Blocks(dag) - {block}, score, firstBlock, voided, bestTips, heightIndex, p, x)
      requires Children(dag, BlockParent(dag, block)) == {block} && BlockParent(dag, block) !in voided
      modifies this`score, this`firstBlock, this`voided, this`heightIndex, this`bestTips
      ensures Consistent(dag, Blocks(dag), score, firstBlock, voided, bestTips, heightIndex, block, block)
      ensures bestTips == [block]
      ensures old(bestTips) == [BlockParent(dag, block)]
    {
      hide WellFormed, Chain, ConeWork, Executed, Markers, TipsExact, Meet, Closed, ScoresExact, ScoresOf, TxPast, AncestorsIn;
      ghost var known := Blocks(dag) - {block};
      KnownIsClosed(dag, block);
      BlockParentIsBlock(dag, block);
      ghost var parent := BlockParent(dag, block);
      SingleHead(dag, known, voided, bestTips, p, parent, block);
      ScoresStep(dag, block, score);
      OnChainStep(dag, parent, parent);
      OnChainStep(dag, parent, block);
      var total := CalculateScore(block, true, known, parent);
      NewBlockExecuted(dag, known, voided, block);
      OnChainStep(dag, block, block);
      RemoveVoidedByFromChain(block, Blocks(dag), block);
      ChainEnd(dag, block);
      var r := Add(heightIndex, Height(dag, block), block, false);
      assert r.Stored?;
      heightIndex := r.index;
      ConeWorkMonotone(dag, parent, block);
      HigherScore(dag, known, bestTips, block, parent);
      bestTips := [block];
    }

    /** The new winner: marks and executes its chain down to `common` and rewrites the height index. */
    method TakeLead(block: VertexId, ghost common: VertexId, ghost x: VertexId)
      requires IsBlock(dag, block) && !IsGenesis(dag, block) && WellFormed(dag) && Closed(dag, Blocks(dag))
      requires ScoresOf(dag, score) && score.Keys == Blocks(dag)
      requires IsBlock(dag, common) && OnChain(dag, common, block) && common != block
      requires Executed(dag, Blocks(dag), voided, common) && Markers(dag, common, firstBlock)
      requires IsBlock(dag, x) && heightIndex == Chain(dag, x) && !Holds(heightIndex, Height(dag, block), block)
      modifies this`score, this`firstBlock, this`voided, this`heightIndex, this`bestTips
      ensures score == old(score)
      ensures Executed(dag, Blocks(dag), voided, block) && voided <= old(voided)
      ensures Markers(dag, block, firstBlock)
      ensures heightIndex == Chain(dag, block)
      ensures bestTips == [block]
    {
      hide WellFormed, Chain, ConeWork, Executed, Markers, TxPast, ScoresOf;
      OnChainStep(dag, block, block);
      assert AncestorsIn(dag, block, Blocks(dag));
      ScoreKept(dag, score, block);
      var total := CalculateScore(block, true, Blocks(dag), common);
      RemoveVoidedByFromChain(block, Blocks(dag), common);
      UpdateNewChain(Height(dag, block), block, x);
      bestTips := [block];
    }

    /** The cases (ii) to (viii): compare the score of `block` with the best score. */
    method ResolveFork(block: VertexId, ghost p: VertexId, ghost x: VertexId)
      returns (reorg: Option<VertexId>, ghost p': VertexId, ghost x': VertexId)
      requires IsBlock(dag, block) && !IsGenesis(dag, block)
      requires Arriving(dag, block)
      requires Consistent(dag, Blocks(dag) - {block}, score, firstBlock, voided, bestTips, heightIndex, p, x)
      modifies this`score, this`firstBlock, this`voided, this`heightIndex, this`bestTips
      ensures Consistent(dag, Blocks(dag), score, firstBlock, voided, bestTips, heightIndex, p', x')
      ensures reorg.Some? <==> bestTips == [block] && exists t :: t in old(bestTips) && !OnChain(dag, t, block)
      ensures reorg.Some? ==> x' != x && OnChain(dag, reorg.value, x) && reorg.value != x && OnChain(dag, reorg.value, x')
      ensures reorg.Some? ==> NewestCommon(dag, old(bestTips), block, reorg.value)
    {
      hide WellFormed, Chain, ConeWork, Executed, Markers, TipsExact, Meet, Closed, ScoresExact, ScoresOf, TxPast, AncestorsIn,
           ForkOf, Descending, NewestCommon;
      reorg := None;
      ghost var known := Blocks(dag) - {block};
      KnownIsClosed(dag, block);
      ScoresStep(dag, block, score);
      NewBlockVoided(dag, known, voided, p, block);
      TipsKnown(dag, known, bestTips, block);
      MarkAsVoided(block, true);
      NewBlockVoided(dag, known, voided, p, block);
      var heads := bestTips;
      var best := BestScore(heads, known);
      var total := CalculateScore(block, false, known, p);
      if total < best {
        LowerScore(dag, known, heads, block, heads[0]);
        p', x' := p, x;
      } else {
        var valid := ValidHeads(heads, known, p);
        var common := FindFirstParentInBestChain(block, known, p);
        HeadsDescend(dag, known, voided, heads, p, block, common);
        TipLeftBehind(dag, known, heads, p, block, common);
        ForkIsNewest(dag, known, heads, p, block, common);
        AddVoidedByToMultipleChains(heads, common, known, p);
        NewBlockVoided(dag, known, voided, common, block);
        ForkFacts(dag, block, p, common);
        if total > best {
          HigherScore(dag, known, heads, block, heads[0]);
          NotIndexed(dag, known, x, block);
          TakeLead(block, common, x);
          if common !in heads {
            reorg := Some(common);
          }
          p', x' := block, block;
        } else {
          EqualScore(dag, known, heads, block, heads[0], p, common);
          bestTips := heads + [block];
          TieVoids(dag, known, voided, heads, p, block, common, heads[|heads| - 1]);
          if heads[|heads| - 1] !in voided {
            reorg := Some(common);
          }
          p', x' := common, x;
        }
      }
    }

    /** Called once for each new block, after it was stored. */
    method UpdateVoidedInfo(block: VertexId, ghost p: VertexId, ghost x: VertexId)
      returns (reorg: Option<VertexId>, ghost p': VertexId, ghost x': VertexId)
      requires IsBlock(dag, block) && !IsGenesis(dag, block)
      requires Arriving(dag, block)
      requires Consistent(dag, Blocks(dag) - {block}, score, firstBlock, voided, bestTips, heightIndex, p, x)
      modifies this`score, this`firstBlock, this`voided, this`heightIndex, this`bestTips
      ensures Consistent(dag, Blocks(dag), score, firstBlock, voided, bestTips, heightIndex, p', x')
      ensures reorg.Some? <==> bestTips == [block] && exists t :: t in old(bestTips) && !OnChain(dag, t, block)
      ensures reorg.Some? ==> x' != x && OnChain(dag, reorg.value, x) && reorg.value != x && OnChain(dag, reorg.value, x')
      ensures reorg.Some? ==> NewestCommon(dag, old(bestTips), block, reorg.value)
    {
      hide WellFormed, Chain, ConeWork, Executed, Markers, TipsExact, Meet, Closed, ScoresExact, TxPast;
      var parent := BlockParent(dag, block);
      var isConnectedToTheHead := Children(dag, parent) == {block};
      var isConnectedToTheBestChain := parent !in voided;
      if isConnectedToTheHead && isConnectedToTheBestChain {
        ExtendBestChain(block, p, x);
        BlockParentIsBlock(dag, block);
        OnChainStep(dag, parent, parent);
        OnChainStep(dag, parent, block);
        reorg, p', x' := None, block, block;
      } else {
        reorg, p', x' := ResolveFork(block, p, x);
      }
    }

    // ----- runs -----

    ghost predicate Valid()
      reads this
    {
      exists p, x :: Consistent(dag, Blocks(dag), score, firstBlock, voided, bestTips, heightIndex, p, x)
    }

    constructor (id: VertexId, genesis: Vertex)
      requires genesis.isBlock && genesis.parents == [] && genesis.inputs == [] && genesis.work > 0
      ensures Valid() && dag == map[id := genesis]
    {
      dag := map[id := genesis];
      score, firstBlock, voided := map[id := genesis.work], map[], {};
      bestTips, heightIndex := [id], [id];
      new;
      assert Deps(dag, id) == {};
      assert WellFormed(dag);
      GenesisConsistent(dag, id);
      assert Consistent(dag, Blocks(dag), score, firstBlock, voided, bestTips, heightIndex, id, id);
    }

    /** A validated vertex arrives: it is stored and, for a block, the consensus is updated. */
    method OnNewVertex(id: VertexId, v: Vertex) returns (reorg: Option<VertexId>, reorgSize: int)
      requires Valid() && CanAdd(dag, id, v)
      modifies this
      ensures Valid() && dag == old(dag)[id := v]
      ensures reorg.Some? ==>
                && IsBlock(dag, id) && bestTips == [id]
                && |heightIndex| > 0 && heightIndex[|heightIndex| - 1] == id
                && |old(heightIndex)| > 0 && old(heightIndex)[|old(heightIndex)| - 1] != id
                && IsBlock(dag, reorg.value) && NewestCommon(dag, old(bestTips), id, reorg.value)
                && reorgSize == |old(heightIndex)| - 1 - Height(dag, reorg.value) > 0
      ensures reorg.Some? <==> IsBlock(dag, id) && bestTips == [id] && exists t :: t in old(bestTips) && !OnChain(dag, t, id)
    {
      hide NewestCommon, Chain, ConeWork, Executed, Markers, TipsExact, Meet, Closed, ScoresExact, TxPast;
      ghost var p, x :| Consistent(dag, Blocks(dag), score, firstBlock, voided, bestTips, heightIndex, p, x);
      GrowExtends(dag, id, v);
      Grow(dag, dag[id := v], score, firstBlock, voided, bestTips, heightIndex, p, x);
      NotSecondGenesis(dag, id, v, x);
      dag := dag[id := v];
      reorg, reorgSize := None, 0;
      if v.isBlock {
        var before := heightIndex;
        ghost var p', x';
        reorg, p', x' := UpdateVoidedInfo(id, p, x);
        assert Consistent(dag, Blocks(dag), score, firstBlock, voided, bestTips, heightIndex, p', x');
        if reorg.Some? {
          OnChainPrefix(dag, reorg.value, x);
          reorgSize := |before| - 1 - Height(dag, reorg.value);
        }
      } else {
        assert Consistent(dag, Blocks(dag), score, firstBlock, voided, bestTips, heightIndex, p, x);
      }
    }

    /** Any run of arrivals, from a valid state, ends in a valid state: no assertion of the
        algorithm fails on the way. */
    method Run(arrivals: seq<(VertexId, Vertex)>)
      requires Valid() && Acceptable(dag, arrivals)
      modifies this
      ensures Valid() && dag == AfterArrivals(old(dag), arrivals)
    {
      var i := 0;
      while i < |arrivals|
        invariant 0 <= i <= |arrivals|
        invariant Valid() && Acceptable(dag, arrivals[i..])
        invariant AfterArrivals(dag, arrivals[i..]) == AfterArrivals(old(dag), arrivals)
      {
        assert arrivals[i..][1..] == arrivals[i + 1..];
        var reorg, reorgSize := OnNewVertex(arrivals[i].0, arrivals[i].1);
        i := i + 1;
      }
    }
  }
}
