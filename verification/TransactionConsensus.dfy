/** The transaction consensus: how conflicts are recorded and resolved, and how voidance spreads and is withdrawn. */
module TransactionConsensus {
  import opened Dag
  import opened TxMetadata
  import opened AccumulatedWeight
  import opened ForkChoice
  import opened Sequences
  import opened Wrappers

  /** A run completes, or stops at a failed assertion, or leaves the model. */
  datatype Outcome = Done | AssertionFailed | BlockReached | FuelExhausted

  class Consensus {
    var dag: Store
    var spentBy: map<Outpoint, set<VertexId>>
    var conflictWith: Marks
    var voidedBy: Marks
    var accumulatedWeight: Weights
    // transactions whose first_block is set
    var confirmed: set<VertexId>

    function Weight(v: VertexId): nat
      reads this`accumulatedWeight
    {
      WeightOf(accumulatedWeight, v)
    }

    predicate Executed(v: VertexId)
      reads this`voidedBy
    {
      At(voidedBy, v) == {}
    }

    /** The resolution of the conflicts of `tx` is valid. */
    predicate ValidConsensus(tx: VertexId)
      reads this`voidedBy, this`conflictWith
    {
      Executed(tx) ==> forall h :: h in At(conflictWith, tx) ==> !Executed(h)
    }

    ghost predicate Linked()
      reads this`dag, this`spentBy, this`conflictWith
    {
      && WellFormed(dag)
      && FullySpent(dag, spentBy)
      && ConflictsExact(spentBy, conflictWith)
    }

    /** Adds up the work of the future of `v`, oldest first; with a limit, only as far as it takes to exceed it. */
    method UpdateAccumulatedWeight(v: VertexId, stop: Option<nat>)
      requires WellFormed(dag) && FullySpent(dag, spentBy) && v in dag
      modifies this`accumulatedWeight
      ensures forall u :: u != v ==> Weight(u) == old(Weight(u))
      ensures stop.None? ==> Weight(v) == Work(dag, Future(dag, v))
      ensures stop.Some? && old(Weight(v)) > stop.value ==> accumulatedWeight == old(accumulatedWeight)
      ensures stop.Some? && old(Weight(v)) <= stop.value ==>
                && Weight(v) <= Work(dag, Future(dag, v))
                && (Weight(v) <= stop.value ==> Weight(v) == Work(dag, Future(dag, v)))
    {
      hide WellFormed, FullySpent, Future, Forward, Oldest;
      if stop.Some? && Weight(v) > stop.value {
        return;
      }
      var work: nat := dag[v].work;
      var pending := Neighbors(dag, spentBy, v);
      NeighborsAreForward(dag, spentBy, v);
      ghost var visited := {v};
      SumStart(dag, v);
      hide Summing;
      while pending != {}
        invariant Summing(dag, v, visited, pending, work)
        invariant accumulatedWeight == old(accumulatedWeight)
        decreases dag.Keys - visited
      {
        SumFacts(dag, v, visited, pending, work);
        var x :| x in pending && Oldest(dag, pending, x);
        SumStep(dag, v, visited, pending, work, x);
        NeighborsAreForward(dag, spentBy, x);
        work := work + dag[x].work;
        pending := pending - {x} + Neighbors(dag, spentBy, x);
        visited := visited + {x};
        if stop.Some? && work > stop.value {
          break;
        }
      }
      SumBound(dag, v, visited, pending, work);
      accumulatedWeight := accumulatedWeight[v := work];
    }

    // ----- withdrawing a hash -----

    /** The walk of `remove_voided_by` for the own hash of `tx`; it does not continue below a
        transaction without the hash. */
    method RemoveWalk(tx: VertexId, ghost exempt: set<VertexId>) returns (r: Outcome, checkList: seq<VertexId>)
      requires Linked() && IsTx(dag, tx) && Sound(dag, conflictWith, voidedBy, exempt)
      requires At(voidedBy, tx) == {tx}
      modifies this`voidedBy
      ensures r.Done? || r.AssertionFailed?
      ensures r.Done? ==> Sound(dag, conflictWith, voidedBy, exempt)
      ensures r.Done? ==> forall x :: At(voidedBy, x) <= At(old(voidedBy), x)
      ensures r.Done? && UpClosed(dag, old(voidedBy), tx) ==>
                && Withdrawn(old(voidedBy), Descendants(dag, tx), tx, voidedBy)
                && (forall x :: tx !in At(voidedBy, x))
                && ToSet(checkList) == set y | y in Descendants(dag, tx) && At(voidedBy, y) == {y}
      ensures exempt == {} && (forall h :: h in At(conflictWith, tx) ==> At(old(voidedBy), h) != {}) ==> r.Done?
    {
      hide WellFormed, TxReach, Deps, FullySpent, ForwardWalk, Oldest, Forward, UpClosed, Descendants, Sound, Withdrawn,
           ConflictsExact;
      r, checkList := Done, [];
      ForwardStart(dag, tx);
      ConflictsSymmetric(spentBy, conflictWith);
      OwnHashOf(dag, conflictWith, voidedBy, exempt);
      var pending := {tx};
      ghost var visited, expanded: set<VertexId> := {}, {};
      RemoveStart(dag, conflictWith, voidedBy, exempt, tx);
      hide Removing;
      while pending != {}
        invariant Removing(dag, conflictWith, old(voidedBy), exempt, tx, visited, expanded, pending, voidedBy, ToSet(checkList))
        decreases dag.Keys - visited
      {
        RemoveFacts(dag, conflictWith, old(voidedBy), exempt, tx, visited, expanded, pending, voidedBy, ToSet(checkList));
        var tx2 :| tx2 in pending && Oldest(dag, pending, tx2);
        if tx !in At(voidedBy, tx2) {
          RemoveSkip(dag, conflictWith, old(voidedBy), exempt, tx, visited, expanded, pending, voidedBy, ToSet(checkList), tx2);
          pending := pending - {tx2};
          visited := visited + {tx2};
          continue;
        }
        ghost var before, checked := voidedBy, ToSet(checkList);
        if exempt == {} && forall h :: h in At(conflictWith, tx) ==> At(old(voidedBy), h) != {} {
          RemoveValid(dag, conflictWith, old(voidedBy), tx, visited, expanded, pending, voidedBy, checked, tx2);
        }
        voidedBy := voidedBy[tx2 := At(voidedBy, tx2) - {tx}];
        if At(voidedBy, tx2) == {tx2} {
          ToSetAppend(checkList, [tx2]);
          checkList := checkList + [tx2];
        }
        if !ValidConsensus(tx2) {
          return AssertionFailed, [];
        }
        RemoveTake(dag, conflictWith, old(voidedBy), exempt, tx, visited, expanded, pending, before, checked, tx2);
        NeighborsAreForward(dag, spentBy, tx2);
        pending := pending - {tx2} + Neighbors(dag, spentBy, tx2);
        visited, expanded := visited + {tx2}, expanded + {tx2};
      }
      RemoveEnd(dag, conflictWith, old(voidedBy), exempt, tx, visited, expanded, voidedBy, ToSet(checkList));
      if UpClosed(dag, old(voidedBy), tx) {
        RemoveWalkDone(dag, conflictWith, old(voidedBy), exempt, tx, visited, expanded, voidedBy, ToSet(checkList));
      }
    }

    /** Withdraws the own hash of `tx` and decides the conflicts that this opens again. */
    method RemoveVoidedBy(tx: VertexId, fuel: nat, ghost exempt: set<VertexId>, ghost spreading: set<VertexId>)
      returns (r: Outcome, ghost clean: bool)
      requires Linked() && Sound(dag, conflictWith, voidedBy, exempt)
      requires tx in At(voidedBy, tx) ==> At(voidedBy, tx) == {tx}
      modifies this`voidedBy, this`accumulatedWeight
      ensures r.Done? ==> Sound(dag, conflictWith, voidedBy, exempt)
      ensures r.Done? && clean ==> LawKept(dag, old(voidedBy), voidedBy, spreading)
      ensures r.Done? ==> WeighedKept(dag, old(voidedBy), old(accumulatedWeight), voidedBy, accumulatedWeight)
      ensures exempt == {} && UpClosed(dag, old(voidedBy), tx) && tx in At(old(voidedBy), tx)
              && (forall h :: h in At(conflictWith, tx) ==> At(old(voidedBy), h) != {})
              && (forall y :: y in Descendants(dag, tx) && y != tx ==> At(conflictWith, y) == {}) ==>
                && r.Done? && Withdrawn(old(voidedBy), Descendants(dag, tx), tx, voidedBy)
                && (forall x :: tx !in At(voidedBy, x))
                && (tx !in spreading ==> clean)
      decreases fuel, 1
    {
      hide WellFormed, TxReach, Deps, FullySpent, Sound, ConflictsExact, Descendants, UpClosed, Withdrawn, LawKept, Weighed;
      clean := true;
      LawKeptSame(dag, voidedBy, spreading);
      if tx !in At(voidedBy, tx) {
        return Done, true;
      }
      CarrierFacts(dag, conflictWith, voidedBy, exempt, tx, tx);
      clean := tx !in spreading;
      var checkList;
      r, checkList := RemoveWalk(tx, exempt);
      if !r.Done? {
        return;
      }
      WeighedFewer(dag, old(voidedBy), accumulatedWeight, voidedBy);
      if clean {
        RemoveKeepsLaw(dag, old(voidedBy), tx, voidedBy, spreading);
      }
      if UpClosed(dag, old(voidedBy), tx) && (forall y :: y in Descendants(dag, tx) && y != tx ==> At(conflictWith, y) == {}) {
        NothingToCheck(dag, conflictWith, voidedBy, exempt, tx);
      }
      assert checkList != [] ==> checkList[0] in ToSet(checkList);
      if checkList != [] {
        if fuel == 0 {
          return FuelExhausted, clean;
        }
        ghost var mid := voidedBy;
        ghost var rest;
        r, rest := CheckAll(checkList, fuel - 1, exempt, spreading);
        clean := clean && rest;
        if r.Done? && clean {
          LawKeptTransitive(dag, old(voidedBy), mid, voidedBy, spreading);
        }
      }
    }

    /** Decides every conflict in the list, which may name one more than once. */
    method CheckAll(checkList: seq<VertexId>, fuel: nat, ghost exempt: set<VertexId>, ghost spreading: set<VertexId>)
      returns (r: Outcome, ghost clean: bool)
      requires Linked() && Sound(dag, conflictWith, voidedBy, exempt)
      modifies this`voidedBy, this`accumulatedWeight
      ensures r.Done? ==> Sound(dag, conflictWith, voidedBy, exempt)
      ensures r.Done? && clean ==> LawKept(dag, old(voidedBy), voidedBy, spreading)
      ensures r.Done? ==> WeighedKept(dag, old(voidedBy), old(accumulatedWeight), voidedBy, accumulatedWeight)
      ensures checkList == [] ==> r.Done? && clean && voidedBy == old(voidedBy) && accumulatedWeight == old(accumulatedWeight)
      decreases fuel, 5
    {
      hide WellFormed, FullySpent, Sound, ConflictsExact, Decidable, Decided, Highest, LawKept, Monotone, Rooted, Weighed;
      clean := true;
      LawKeptSame(dag, voidedBy, spreading);
      var i := 0;
      while i < |checkList|
        invariant 0 <= i <= |checkList|
        invariant i == 0 ==> clean && voidedBy == old(voidedBy) && accumulatedWeight == old(accumulatedWeight)
        invariant WeighedKept(dag, old(voidedBy), old(accumulatedWeight), voidedBy, accumulatedWeight)
        invariant clean ==> LawKept(dag, old(voidedBy), voidedBy, spreading)
        invariant Sound(dag, conflictWith, voidedBy, exempt)
      {
        var tx2 := checkList[i];
        i := i + 1;
        ghost var mid := voidedBy;
        ghost var rest;
        r, rest := CheckConflicts(tx2, fuel, exempt, spreading);
        clean := clean && rest;
        if !r.Done? {
          return;
        }
        if clean {
          LawKeptTransitive(dag, old(voidedBy), mid, voidedBy, spreading);
        }
      }
      r := Done;
    }

    // ----- deciding a conflict -----

    /** Compares `tx` with its candidates; the executed ones have their weight calculated again first. */
    method CompareWeights(tx: VertexId) returns (highest: bool, tie: bool)
      requires Linked()
      modifies this`accumulatedWeight
      ensures highest <==> Highest(dag, conflictWith, voidedBy, old(accumulatedWeight), tx)
      ensures highest ==> (tie <==> Tied(dag, conflictWith, voidedBy, old(accumulatedWeight), tx))
      ensures WeighedKept(dag, voidedBy, old(accumulatedWeight), voidedBy, accumulatedWeight)
    {
      hide WellFormed, FullySpent, ConflictsExact, Weighed, Future, AtMost;
      ConflictsSymmetric(spentBy, conflictWith);
      var candidates: set<VertexId> := set c: VertexId | c in At(conflictWith, tx) && Candidate(conflictWith, voidedBy, tx, c);
      if exists c :: c in candidates && At(voidedBy, c) != {} && Weight(c) > Weight(tx) {
        ghost var c :| c in candidates && At(voidedBy, c) != {} && Weight(c) > Weight(tx);
        assert Heavier(dag, voidedBy, accumulatedWeight, tx, c);
        return false, false;
      }
      tie := false;
      var executed: set<VertexId> := set c: VertexId | c in candidates && At(voidedBy, c) == {};
      while executed != {}
        invariant Weight(tx) == old(Weight(tx))
        invariant forall c :: c in executed ==> c in candidates && At(voidedBy, c) == {} && Weight(c) == old(Weight(c))
        invariant forall c :: c in candidates && c !in executed ==> !Heavier(dag, voidedBy, old(accumulatedWeight), tx, c)
        invariant tie <==> exists c :: && c in At(conflictWith, tx) && At(voidedBy, c) == {} && c !in executed
                                       && Work(dag, Future(dag, c)) == old(Weight(tx))
        invariant WeighedKept(dag, voidedBy, old(accumulatedWeight), voidedBy, accumulatedWeight)
        decreases |executed|
      {
        var c :| c in executed;
        executed := executed - {c};
        ghost var before := accumulatedWeight;
        ConflictIsTx(dag, spentBy, conflictWith, c);
        UpdateAccumulatedWeight(c, Some(Weight(tx)));
        assert forall u :: u != c ==> Weight(u) == WeightOf(before, u);
        StoppedKeeps(dag, voidedBy, before, accumulatedWeight, c);
        if Weight(c) == Weight(tx) {
          tie := true;
        } else if Weight(c) > Weight(tx) {
          assert Heavier(dag, voidedBy, old(accumulatedWeight), tx, c);
          return false, tie;
        }
      }
      assert forall c :: Candidate(conflictWith, voidedBy, tx, c) ==> c in candidates;
      return true, tie;
    }

    /** Voids all conflicts of `tx` if none has more weight, and executes `tx` if there is no tie. */
    method CheckConflicts(tx: VertexId, fuel: nat, ghost exempt: set<VertexId>, ghost spreading: set<VertexId>)
      returns (r: Outcome, ghost clean: bool)
      requires Linked() && Sound(dag, conflictWith, voidedBy, exempt)
      modifies this`voidedBy, this`accumulatedWeight
      ensures r.Done? ==> Sound(dag, conflictWith, voidedBy, exempt)
      ensures r.Done? && clean ==> LawKept(dag, old(voidedBy), voidedBy, spreading)
      ensures r.Done? ==> WeighedKept(dag, old(voidedBy), old(accumulatedWeight), voidedBy, accumulatedWeight)
      ensures exempt == {} && fuel > 0 && Decidable(dag, conflictWith, old(voidedBy), tx) ==>
                && r.Done?
                && (tx !in spreading ==> clean)
                && (spreading == {} ==> Monotone(dag, voidedBy) && Rooted(voidedBy))
                && Decided(dag, conflictWith, old(voidedBy), old(accumulatedWeight), tx, voidedBy)
      ensures At(old(voidedBy), tx) != {tx} || !Highest(dag, conflictWith, old(voidedBy), old(accumulatedWeight), tx) ==>
                r.Done? && clean && voidedBy == old(voidedBy)
      decreases fuel, 4
    {
      hide WellFormed, FullySpent, Sound, ConflictsExact, Descendants, Lost, Quiet, Monotone, Rooted, Voiding, LawKept, UpClosed,
           Highest, Tied, Weighed;
      clean := true;
      LawKeptSame(dag, voidedBy, spreading);
      LawIsMonotone(dag, voidedBy);
      if At(voidedBy, tx) != {tx} {
        return Done, true;
      }
      ConflictsSymmetric(spentBy, conflictWith);
      CarrierFacts(dag, conflictWith, voidedBy, exempt, tx, tx);
      var isHighest, isTie := CompareWeights(tx);
      if !isHighest {
        return Done, true;
      }
      ghost var decidable := exempt == {} && fuel > 0 && Decidable(dag, conflictWith, old(voidedBy), tx);
      r, clean := VoidConflicts(tx, fuel, exempt, spreading);
      if !r.Done? {
        return;
      }
      ghost var mid := voidedBy;
      if !isTie {
        if decidable {
          MonotoneUp(dag, voidedBy, tx);
        }
        ghost var rest;
        r, rest := MarkAsWinner(tx, fuel, exempt, spreading);
        clean := clean && rest;
        if r.Done? && clean {
          LawKeptTransitive(dag, old(voidedBy), mid, voidedBy, spreading);
        }
        assert decidable ==>
            && Lost(dag, old(voidedBy), Losers(conflictWith, old(voidedBy), tx), mid)
            && Withdrawn(mid, Descendants(dag, tx), tx, voidedBy);
      }
      if decidable && spreading == {} {
        LawToMonotone(dag, old(voidedBy), voidedBy);
      }
    }

    /** Voids every conflict of `tx` by its own hash. */
    method VoidConflicts(tx: VertexId, fuel: nat, ghost exempt: set<VertexId>, ghost spreading: set<VertexId>)
      returns (r: Outcome, ghost clean: bool)
      requires Linked() && Sound(dag, conflictWith, voidedBy, exempt)
      modifies this`voidedBy, this`accumulatedWeight
      ensures r.Done? ==> Sound(dag, conflictWith, voidedBy, exempt)
      ensures r.Done? && clean ==> LawKept(dag, old(voidedBy), voidedBy, spreading)
      ensures r.Done? ==> WeighedKept(dag, old(voidedBy), old(accumulatedWeight), voidedBy, accumulatedWeight)
      ensures exempt == {} && fuel > 0 && Decidable(dag, conflictWith, old(voidedBy), tx) ==>
                && r.Done? && clean
                && Lost(dag, old(voidedBy), Losers(conflictWith, old(voidedBy), tx), voidedBy)
                && Monotone(dag, voidedBy) && At(voidedBy, tx) == {tx}
                && (forall h :: h in At(conflictWith, tx) ==> At(voidedBy, h) != {})
      decreases fuel, 3
    {
      hide WellFormed, FullySpent, Sound, ConflictsExact, Descendants, Lost, Quiet, Monotone, Voiding, Decidable, Spread, LawKept,
           Weighed;
      clean := true;
      LawKeptSame(dag, voidedBy, spreading);
      ghost var decidable := exempt == {} && fuel > 0 && Decidable(dag, conflictWith, voidedBy, tx);
      ConflictsSymmetric(spentBy, conflictWith);
      if decidable {
        VoidingStart(dag, conflictWith, voidedBy, tx);
      }
      var conflicts := At(conflictWith, tx);
      while conflicts != {}
        invariant conflicts <= At(conflictWith, tx)
        invariant Sound(dag, conflictWith, voidedBy, exempt)
        invariant clean ==> LawKept(dag, old(voidedBy), voidedBy, spreading)
        invariant WeighedKept(dag, old(voidedBy), old(accumulatedWeight), voidedBy, accumulatedWeight)
        invariant decidable ==> clean && Voiding(dag, conflictWith, old(voidedBy), tx, conflicts, voidedBy)
        decreases |conflicts|
      {
        var c :| c in conflicts;
        Exempting(dag, conflictWith, voidedBy, exempt, c);
        ConflictIsTx(dag, spentBy, conflictWith, c);
        ghost var before := voidedBy;
        if decidable {
          if At(old(voidedBy), c) == {} {
            VoidingQuiet(dag, conflictWith, old(voidedBy), tx, conflicts, voidedBy, c);
          } else {
            VoidingOld(dag, conflictWith, old(voidedBy), tx, conflicts, voidedBy, c);
          }
        }
        ghost var rest;
        r, rest := MarkAsVoided(c, fuel, exempt, spreading);
        clean := clean && rest;
        if !r.Done? {
          return;
        }
        if clean {
          LawKeptTransitive(dag, old(voidedBy), before, voidedBy, spreading);
        }
        if decidable {
          OwnHashOf(dag, conflictWith, voidedBy, exempt);
          if At(old(voidedBy), c) == {} {
            VoidingStep(dag, conflictWith, old(voidedBy), tx, conflicts, before, c, voidedBy);
          }
        }
        conflicts := conflicts - {c};
      }
      r := Done;
      if decidable {
        forall c | c in At(conflictWith, tx)
          ensures IsTx(dag, c)
        {
          ConflictIsTx(dag, spentBy, conflictWith, c);
        }
        VoidingMonotone(dag, conflictWith, old(voidedBy), tx, voidedBy);
        VoidingDone(dag, conflictWith, old(voidedBy), tx, voidedBy);
      }
    }

    method MarkAsWinner(tx: VertexId, fuel: nat, ghost exempt: set<VertexId>, ghost spreading: set<VertexId>)
      returns (r: Outcome, ghost clean: bool)
      requires Linked() && Sound(dag, conflictWith, voidedBy, exempt)
      modifies this`voidedBy, this`accumulatedWeight
      ensures r.Done? ==> Sound(dag, conflictWith, voidedBy, exempt)
      ensures r.Done? && clean ==> LawKept(dag, old(voidedBy), voidedBy, spreading)
      ensures r.Done? ==> WeighedKept(dag, old(voidedBy), old(accumulatedWeight), voidedBy, accumulatedWeight)
      ensures exempt == {} && UpClosed(dag, old(voidedBy), tx) && At(old(voidedBy), tx) == {tx} && At(conflictWith, tx) != {}
              && (forall h :: h in At(conflictWith, tx) ==> At(old(voidedBy), h) != {})
              && (forall y :: y in Descendants(dag, tx) && y != tx ==> At(conflictWith, y) == {}) ==>
                && r.Done? && Withdrawn(old(voidedBy), Descendants(dag, tx), tx, voidedBy)
                && (tx !in spreading ==> clean)
      decreases fuel, 2
    {
      hide WellFormed, FullySpent, Sound, ConflictsExact, Descendants, UpClosed, LawKept, Weighed;
      if At(conflictWith, tx) == {} || At(voidedBy, tx) != {tx} {
        return AssertionFailed, true;
      }
      ConflictsSymmetric(spentBy, conflictWith);
      r, clean := RemoveVoidedBy(tx, fuel, exempt, spreading);
      if Withdrawn(old(voidedBy), Descendants(dag, tx), tx, voidedBy)
         && (forall y :: y in Descendants(dag, tx) && y != tx ==> At(conflictWith, y) == {})
         && (forall h :: h in At(conflictWith, tx) ==> At(old(voidedBy), h) != {}) {
        WinnerValid(dag, conflictWith, old(voidedBy), tx, voidedBy);
      }
      if r.Done? && !ValidConsensus(tx) {
        return AssertionFailed, clean;
      }
    }

    /** Voids a transaction that has a conflict by its own hash. */
    method MarkAsVoided(tx: VertexId, fuel: nat, ghost exempt: set<VertexId>, ghost spreading: set<VertexId>)
      returns (r: Outcome, ghost clean: bool)
      requires Linked() && Sound(dag, conflictWith, voidedBy, exempt + {tx})
      modifies this`voidedBy, this`accumulatedWeight
      ensures r.Done? ==> Sound(dag, conflictWith, voidedBy, exempt)
      ensures r.Done? && clean ==> LawKept(dag, old(voidedBy), voidedBy, spreading)
      ensures r.Done? ==> WeighedKept(dag, old(voidedBy), old(accumulatedWeight), voidedBy, accumulatedWeight)
      ensures At(conflictWith, tx) != {} && tx in At(old(voidedBy), tx) ==>
                r.Done? && clean && voidedBy == old(voidedBy) && accumulatedWeight == old(accumulatedWeight)
      ensures Quiet(dag, conflictWith, old(voidedBy), tx) && fuel > 0 ==>
                r.Done? && clean && Spread(old(voidedBy), Descendants(dag, tx), tx, voidedBy)
      decreases fuel, 2
    {
      hide WellFormed, FullySpent, Sound, ConflictsExact, Descendants, LawKept, Weighed;
      LawKeptSame(dag, voidedBy, spreading);
      if At(conflictWith, tx) == {} {
        return AssertionFailed, true;
      }
      if tx in At(voidedBy, tx) {
        Exempting(dag, conflictWith, voidedBy, exempt, tx);
        NotQuiet(dag, conflictWith, voidedBy, tx);
        return Done, true;
      }
      if fuel == 0 {
        return FuelExhausted, true;
      }
      ConflictIsTx(dag, spentBy, conflictWith, tx);
      r, clean := AddVoidedBy(tx, fuel - 1, exempt, spreading);
      SelfDescendant(dag, tx);
      if r.Done? && !ValidConsensus(tx) {
        return AssertionFailed, clean;
      }
    }

    // ----- spreading a hash -----

    /** Puts the hash of `tx` on one descendant, and voids that one by its own hash too if it has a conflict. */
    method AddToDescendant(tx: VertexId, tx2: VertexId, fuel: nat, ghost exempt: set<VertexId>, ghost spreading: set<VertexId>)
      returns (r: Outcome, ghost clean: bool)
      requires Linked() && At(conflictWith, tx) != {}
      requires Sound(dag, conflictWith, voidedBy[tx2 := At(voidedBy, tx2) + {tx}], exempt + {tx2})
      requires At(conflictWith, tx2) == {} ==> Sound(dag, conflictWith, voidedBy[tx2 := At(voidedBy, tx2) + {tx}], exempt)
      modifies this`voidedBy, this`accumulatedWeight
      ensures r.Done? ==> Sound(dag, conflictWith, voidedBy, exempt)
      ensures r.Done? && clean ==>
                LawKept(dag, old(voidedBy)[tx2 := At(old(voidedBy), tx2) + {tx}], voidedBy, spreading + {tx})
      ensures r.Done? ==> WeighedKept(dag, old(voidedBy), old(accumulatedWeight), voidedBy, accumulatedWeight)
      ensures At(conflictWith, tx2) == {} || tx2 in At(old(voidedBy), tx2) || tx2 == tx ==>
                r.Done? && clean && voidedBy == old(voidedBy)[tx2 := At(old(voidedBy), tx2) + {tx}]
      decreases fuel, 3
    {
      hide WellFormed, FullySpent, Sound, ConflictsExact, LawKept, Quiet, Spread, Descendants, Weighed, Future, AtMost;
      r, clean := Done, true;
      voidedBy := voidedBy[tx2 := At(voidedBy, tx2) + {tx}];
      LawKeptSame(dag, voidedBy, spreading + {tx});
      if tx2 != tx {
        WeighedFewer(dag, old(voidedBy), accumulatedWeight, voidedBy);
      }
      if At(conflictWith, tx2) != {} {
        ConflictIsTx(dag, spentBy, conflictWith, tx2);
        r, clean := MarkAsVoided(tx2, fuel, exempt, spreading + {tx});
        if !r.Done? {
          return;
        }
        ghost var marked, weights := voidedBy, accumulatedWeight;
        UpdateAccumulatedWeight(tx2, None);
        assert forall u :: u != tx2 ==> Weight(u) == WeightOf(weights, u);
        if tx2 == tx {
          WeighedOne(dag, old(voidedBy), weights, voidedBy, accumulatedWeight, tx2);
        } else {
          WeighedOne(dag, marked, weights, voidedBy, accumulatedWeight, tx2);
        }
      }
      if !ValidConsensus(tx2) {
        r := AssertionFailed;
      }
    }

    /** Puts the own hash of `tx` on it and its descendants, and decides the conflicts of those
        that were executed. */
    method AddVoidedBy(tx: VertexId, fuel: nat, ghost exempt: set<VertexId>, ghost spreading: set<VertexId>)
      returns (r: Outcome, ghost clean: bool)
      requires Linked() && IsTx(dag, tx) && At(conflictWith, tx) != {}
      requires Sound(dag, conflictWith, voidedBy, exempt + {tx})
      modifies this`voidedBy, this`accumulatedWeight
      ensures r.Done? ==> Sound(dag, conflictWith, voidedBy, exempt)
      ensures r.Done? && clean ==> LawKept(dag, old(voidedBy), voidedBy, spreading)
      ensures r.Done? ==> WeighedKept(dag, old(voidedBy), old(accumulatedWeight), voidedBy, accumulatedWeight)
      ensures Quiet(dag, conflictWith, old(voidedBy), tx) ==>
                r.Done? && clean && Spread(old(voidedBy), Descendants(dag, tx), tx, voidedBy)
      decreases fuel, 6
    {
      hide WellFormed, TxReach, Deps, FullySpent, Sound, ConflictsExact, Descendants, Quiet, Spread, Adding, Oldest, Forward,
           LawKept, Law, Spreading, ForwardWalk, Weighed;
      clean := true;
      LawKeptSame(dag, voidedBy, spreading);
      if tx in At(voidedBy, tx) {
        Exempting(dag, conflictWith, voidedBy, exempt, tx);
        NotQuiet(dag, conflictWith, voidedBy, tx);
        return Done, true;
      }
      ghost var lawful := Law(dag, voidedBy, spreading);
      if lawful {
        SpreadingStart(dag, voidedBy, spreading, tx);
      }
      AddStart(dag, conflictWith, voidedBy, exempt, tx);
      var checkList: seq<VertexId> := [];
      assert ToSet(checkList) == {};
      var pending := {tx};
      ghost var visited: set<VertexId> := {};
      while pending != {}
        invariant Adding(dag, conflictWith, old(voidedBy), exempt, tx, visited, pending, voidedBy, ToSet(checkList))
        invariant lawful && clean ==> Spreading(dag, old(voidedBy), spreading, tx, visited, voidedBy)
        invariant Quiet(dag, conflictWith, old(voidedBy), tx) ==> clean
        invariant WeighedKept(dag, old(voidedBy), old(accumulatedWeight), voidedBy, accumulatedWeight)
        decreases dag.Keys - visited
      {
        AddFacts(dag, conflictWith, old(voidedBy), exempt, tx, visited, pending, voidedBy, ToSet(checkList));
        WalkOf(dag, conflictWith, old(voidedBy), exempt, tx, visited, pending, voidedBy, ToSet(checkList));
        var tx2 :| tx2 in pending && Oldest(dag, pending, tx2);
        ghost var before, checked := voidedBy, ToSet(checkList);
        if Quiet(dag, conflictWith, old(voidedBy), tx) {
          AddQuiet(dag, conflictWith, old(voidedBy), exempt, tx, visited, pending, voidedBy, checked, tx2);
        }
        if dag[tx2].isBlock {
          return BlockReached, clean;
        }
        if tx in At(voidedBy, tx2) {
          return AssertionFailed, clean;
        }
        if tx2 != tx && At(conflictWith, tx2) != {} && At(voidedBy, tx2) == {} {
          var conflicts := Listed(At(conflictWith, tx2));
          ToSetAppend(checkList, conflicts);
          checkList := checkList + conflicts;
        }
        AddMark(dag, conflictWith, old(voidedBy), exempt, tx, visited, pending, voidedBy, checked, tx2);
        ghost var rest;
        r, rest := AddToDescendant(tx, tx2, fuel, exempt, spreading);
        clean := clean && rest;
        if !r.Done? {
          return;
        }
        if lawful && clean {
          SpreadingMark(dag, old(voidedBy), spreading, tx, visited, before, tx2);
          SpreadingNested(dag, old(voidedBy), spreading, tx, visited + {tx2}, before[tx2 := At(before, tx2) + {tx}], voidedBy);
        }
        AddTake(dag, conflictWith, old(voidedBy), exempt, tx, visited, pending, before, checked, tx2, voidedBy);
        NeighborsAreForward(dag, spentBy, tx2);
        pending := pending - {tx2} + Neighbors(dag, spentBy, tx2);
        visited := visited + {tx2};
      }
      WalkOf(dag, conflictWith, old(voidedBy), exempt, tx, visited, {}, voidedBy, ToSet(checkList));
      AddDone(dag, conflictWith, old(voidedBy), exempt, tx, visited, voidedBy, ToSet(checkList));
      if clean {
        SpreadLaw(dag, old(voidedBy), spreading, tx, visited, voidedBy);
      }
      assert checkList != [] ==> checkList[0] in ToSet(checkList);
      if checkList == [] {
        return Done, clean;
      }
      ghost var mid := voidedBy;
      ghost var rest;
      r, rest := CheckAll(checkList, fuel, exempt, spreading);
      clean := clean && rest;
      if r.Done? && clean {
        LawKeptTransitive(dag, old(voidedBy), mid, voidedBy, spreading);
      }
    }

    // ----- a new transaction -----

    /** Records the conflicts of `tx` with those that spend one of its inputs already. */
    method RecordConflicts(tx: VertexId, spenders: set<VertexId>)
      requires tx !in spenders
      modifies this`conflictWith
      ensures Clashed(old(conflictWith), tx, spenders, conflictWith)
    {
      hide ClashedWith;
      ClashStart(conflictWith, tx, spenders);
      conflictWith := conflictWith[tx := At(conflictWith, tx) + spenders];
      var rest := spenders;
      assert spenders - rest == {};
      while rest != {}
        invariant rest <= spenders
        invariant ClashedWith(old(conflictWith), tx, spenders, spenders - rest, conflictWith)
        decreases |rest|
      {
        var h :| h in rest;
        ClashOne(old(conflictWith), tx, spenders, spenders - rest, conflictWith, h);
        assert spenders - rest + {h} == spenders - (rest - {h});
        conflictWith := conflictWith[h := At(conflictWith, h) + {tx}];
        rest := rest - {h};
      }
      assert spenders - rest == spenders;
    }

    /** Marks one input as used. */
    method MarkInputAsUsed(tx: VertexId, n: nat) returns (r: Outcome)
      requires WellFormed(dag) && Entering(dag, tx, n, spentBy, conflictWith, voidedBy) && n < |dag[tx].inputs|
      modifies this`spentBy, this`conflictWith, this`voidedBy
      ensures r.Done? ==> Entering(dag, tx, n + 1, spentBy, conflictWith, voidedBy)
      ensures r.Done? || r.AssertionFailed?
      ensures r.Done? <==> dag[tx].inputs[n] !in dag[tx].inputs[..n]
      ensures forall x :: x != tx ==> At(voidedBy, x) == At(old(voidedBy), x)
      ensures voidedBy == old(voidedBy) || voidedBy == old(voidedBy)[tx := {tx}]
    {
      hide WellFormed, SpentExact, ConflictsExact, Sound, Forward, TxReach, Clashed;
      var o := dag[tx].inputs[n];
      var spenders := if o in spentBy then spentBy[o] else {};
      AlreadySpent(dag, tx, n, spentBy, o);
      if tx in spenders {
        return AssertionFailed;
      }
      if spenders != {} {
        // the conflict is resolved later
        assert At(voidedBy, tx) + {tx} == {tx};
        voidedBy := voidedBy[tx := At(voidedBy, tx) + {tx}];
      }
      OnlyRootMarked(old(voidedBy), tx, spenders, voidedBy);
      RecordConflicts(tx, spenders);
      MarkSpent(dag, tx, n, spentBy, spenders);
      MarkConflicts(spentBy, old(conflictWith), tx, o, spenders, conflictWith);
      MarkSound(dag, old(conflictWith), old(voidedBy), tx, spenders, conflictWith, voidedBy);
      spentBy := spentBy[o := spenders + {tx}];
      r := Done;
    }

    method MarkInputsAsUsed(tx: VertexId) returns (r: Outcome)
      requires WellFormed(dag) && Entering(dag, tx, 0, spentBy, conflictWith, voidedBy)
      modifies this`spentBy, this`conflictWith, this`voidedBy
      ensures r.Done? ==> Entering(dag, tx, |dag[tx].inputs|, spentBy, conflictWith, voidedBy)
      ensures r.Done? <==> Distinct(dag[tx].inputs)
      ensures forall x :: x != tx ==> At(voidedBy, x) == At(old(voidedBy), x)
      ensures r.Done? ==> voidedBy == if At(conflictWith, tx) == {} then old(voidedBy) else old(voidedBy)[tx := {tx}]
    {
      hide WellFormed, SpentExact, ConflictsExact, Sound, Forward, TxReach;
      var i := 0;
      while i < |dag[tx].inputs|
        invariant 0 <= i <= |dag[tx].inputs|
        invariant Entering(dag, tx, i, spentBy, conflictWith, voidedBy)
        invariant forall k, j :: 0 <= k < j < i ==> dag[tx].inputs[k] != dag[tx].inputs[j]
        invariant forall x :: x != tx ==> At(voidedBy, x) == At(old(voidedBy), x)
        invariant voidedBy == old(voidedBy) || voidedBy == old(voidedBy)[tx := {tx}]
      {
        r := MarkInputAsUsed(tx, i);
        if !r.Done? {
          return;
        }
        assert forall k :: 0 <= k < i ==> dag[tx].inputs[k] in dag[tx].inputs[..i];
        i := i + 1;
      }
      r := Done;
    }

    /** The transactions that void a new one gain its weight. */
    method AddWeight(s: set<VertexId>, work: nat)
      modifies this`accumulatedWeight
      ensures forall v :: Weight(v) == old(Weight(v)) + if v in s then work else 0
      ensures s == {} ==> accumulatedWeight == old(accumulatedWeight)
    {
      var todo := s;
      while todo != {}
        invariant todo <= s
        invariant forall v :: Weight(v) == old(Weight(v)) + if v in s && v !in todo then work else 0
        invariant s == {} ==> accumulatedWeight == old(accumulatedWeight)
        decreases |todo|
      {
        var h :| h in todo;
        todo := todo - {h};
        accumulatedWeight := accumulatedWeight[h := Weight(h) + work];
      }
    }

    /** A new transaction takes over what voids its parents and the transactions it spends from,
        and is voided by itself if it has a conflict. */
    method InheritVoidedBy(tx: VertexId) returns (inherited: set<VertexId>)
      requires WellFormed(dag) && IsTx(dag, tx)
      requires Entering(dag, tx, |dag[tx].inputs|, spentBy, conflictWith, voidedBy)
      requires Weight(tx) == dag[tx].work
      modifies this`voidedBy, this`accumulatedWeight
      ensures Sound(dag, conflictWith, voidedBy, At(conflictWith, tx))
      ensures inherited == Inherited(dag, old(voidedBy), tx)
      ensures voidedBy == old(voidedBy)[tx := inherited + Own(conflictWith, tx)]
      ensures MonotoneBelow(dag, old(voidedBy), tx) && Rooted(old(voidedBy)) ==> Monotone(dag, voidedBy) && Rooted(voidedBy)
      ensures forall v :: Weight(v) == old(Weight(v)) + if v in inherited then dag[tx].work else 0
      ensures inherited == {} ==> accumulatedWeight == old(accumulatedWeight)
      ensures MonotoneBelow(dag, old(voidedBy), tx) && Weighed(dag, old(voidedBy), old(accumulatedWeight), {tx}) ==>
                Weighed(dag, voidedBy, accumulatedWeight, {})
    {
      hide WellFormed, SpentExact, Sound, Forward, TxReach, Deps, Inherited, ConflictsExact, MonotoneBelow, Monotone, Rooted,
           Weighed;
      inherited := Inherited(dag, voidedBy, tx);
      ConflictsSymmetric(spentBy, conflictWith);
      NotInherited(dag, conflictWith, voidedBy, At(conflictWith, tx), tx);
      assert tx !in inherited;
      AddWeight(inherited, dag[tx].work);
      assert At(voidedBy, tx) == {} || At(voidedBy, tx) == {tx};
      assert Weight(tx) == dag[tx].work;
      InheritSound(dag, conflictWith, voidedBy, At(conflictWith, tx), tx);
      voidedBy := voidedBy[tx := inherited + Own(conflictWith, tx)];
      if MonotoneBelow(dag, old(voidedBy), tx) && Rooted(old(voidedBy)) {
        InheritKeeps(dag, conflictWith, old(voidedBy), tx, voidedBy);
      }
      if MonotoneBelow(dag, old(voidedBy), tx) && Weighed(dag, old(voidedBy), old(accumulatedWeight), {tx}) {
        InheritWeighed(dag, conflictWith, old(voidedBy), At(conflictWith, tx), old(accumulatedWeight), tx, voidedBy, accumulatedWeight);
      }
    }

    /** The conflicts of the new `tx` that are voided get their own hash. */
    method MarkVoidedConflicts(tx: VertexId, fuel: nat) returns (r: Outcome, ghost clean: bool)
      requires Linked() && Sound(dag, conflictWith, voidedBy, At(conflictWith, tx))
      modifies this`voidedBy, this`accumulatedWeight
      ensures r.Done? ==> Sound(dag, conflictWith, voidedBy, {})
      ensures r.Done? && clean ==> LawKept(dag, old(voidedBy), voidedBy, {})
      ensures r.Done? ==> WeighedKept(dag, old(voidedBy), old(accumulatedWeight), voidedBy, accumulatedWeight)
      ensures fuel > 0 && Completable(dag, conflictWith, old(voidedBy), confirmed, tx) ==>
                r.Done? && clean && Lost(dag, old(voidedBy), Lacking(conflictWith, old(voidedBy), tx), voidedBy)
      ensures OwnHash(conflictWith, old(voidedBy), {}) && Unconfirmed(conflictWith, old(voidedBy), confirmed, tx) ==>
                r.Done? && clean && voidedBy == old(voidedBy) && accumulatedWeight == old(accumulatedWeight)
      ensures At(conflictWith, tx) == {} ==> r.Done? && clean && voidedBy == old(voidedBy)
    {
      hide WellFormed, Sound, ConflictsExact, FullySpent, Quiet, Spread, LawKept, Completable, Lost, Descendants, Weighed;
      ghost var marked := OwnHash(conflictWith, voidedBy, {}) && Unconfirmed(conflictWith, voidedBy, confirmed, tx);
      clean := true;
      LawKeptSame(dag, voidedBy, {});
      ConflictsSymmetric(spentBy, conflictWith);
      ghost var completable := fuel > 0 && Completable(dag, conflictWith, voidedBy, confirmed, tx);
      var todo := At(conflictWith, tx);
      CompleteStart(dag, conflictWith, voidedBy, tx);
      while todo != {}
        invariant todo <= At(conflictWith, tx)
        invariant Sound(dag, conflictWith, voidedBy, todo)
        invariant clean ==> LawKept(dag, old(voidedBy), voidedBy, {})
        invariant completable ==> clean && Lost(dag, old(voidedBy), Lacking(conflictWith, old(voidedBy), tx) - todo, voidedBy)
        invariant At(conflictWith, tx) == {} ==> todo == {}
        invariant WeighedKept(dag, old(voidedBy), old(accumulatedWeight), voidedBy, accumulatedWeight)
        invariant marked || At(conflictWith, tx) == {} ==>
                    clean && voidedBy == old(voidedBy) && accumulatedWeight == old(accumulatedWeight)
        decreases |todo|
      {
        var h :| h in todo;
        assert todo - {h} + {h} == todo;
        ghost var before := voidedBy;
        if completable {
          CompleteStep(dag, conflictWith, old(voidedBy), confirmed, tx, todo, voidedBy, h);
        }
        todo := todo - {h};
        Exempting(dag, conflictWith, voidedBy, todo, h);
        if At(voidedBy, h) != {} {
          if h in confirmed {
            return AssertionFailed, clean;
          }
          ghost var rest;
          r, rest := MarkAsVoided(h, fuel, todo, {});
          clean := clean && rest;
          if !r.Done? {
            return;
          }
          if clean {
            LawKeptTransitive(dag, old(voidedBy), before, voidedBy, {});
          }
          if completable && h !in At(before, h) {
            CompleteSpread(dag, conflictWith, old(voidedBy), tx, todo + {h}, before, h, voidedBy);
          }
        }
      }
      assert Lacking(conflictWith, old(voidedBy), tx) - {} == Lacking(conflictWith, old(voidedBy), tx);
      r := Done;
    }

    /** A new transaction takes over what voids it, and the conflicts behind that are decided first. */
    method EnterVoided(tx: VertexId, fuel: nat) returns (r: Outcome, ghost clean: bool, ghost entered: Marks)
      requires Linked() && IsTx(dag, tx)
      requires Entering(dag, tx, |dag[tx].inputs|, spentBy, conflictWith, voidedBy)
      requires Weight(tx) == dag[tx].work
      modifies this`voidedBy, this`accumulatedWeight
      ensures r.Done? ==> Sound(dag, conflictWith, voidedBy, {})
      ensures r.Done? && clean ==> LawKept(dag, entered, voidedBy, {})
      ensures MonotoneBelow(dag, old(voidedBy), tx) && Rooted(old(voidedBy)) ==> Monotone(dag, entered) && Rooted(entered)
      ensures At(conflictWith, tx) == {} && Inherited(dag, old(voidedBy), tx) == {} ==>
                r.Done? && clean && forall x :: At(voidedBy, x) == At(old(voidedBy), x)
      ensures Inherited(dag, old(voidedBy), tx) == {} && Decidable(dag, conflictWith, old(voidedBy), tx)
              && Unconfirmed(conflictWith, old(voidedBy), confirmed, tx) ==>
                && r.Done? && clean && voidedBy == old(voidedBy) && At(voidedBy, tx) == {tx}
                && accumulatedWeight == old(accumulatedWeight)
      ensures r.Done? && MonotoneBelow(dag, old(voidedBy), tx) && Weighed(dag, old(voidedBy), old(accumulatedWeight), {tx}) ==>
                Weighed(dag, voidedBy, accumulatedWeight, {})
    {
      hide WellFormed, SpentExact, Sound, Forward, TxReach, Deps, Inherited, ConflictsExact, FullySpent, Monotone,
           MonotoneBelow, Rooted, Decidable, Unconfirmed, OwnHash, Lost, LawKept, Completable, Lacking, Descendants, Weighed;
      ghost var decidable := Inherited(dag, voidedBy, tx) == {} && Decidable(dag, conflictWith, voidedBy, tx)
        && Unconfirmed(conflictWith, voidedBy, confirmed, tx);
      var inherited := InheritVoidedBy(tx);
      entered := voidedBy;
      if decidable {
        NothingInherited(dag, conflictWith, old(voidedBy), tx);
      }
      var voiding := Listed(inherited);
      assert voiding != [] ==> voiding[0] in ToSet(voiding);
      r, clean := CheckAll(voiding, fuel, At(conflictWith, tx), {});
      if !r.Done? {
        return;
      }
      ghost var checked, rest := voidedBy, true;
      r, rest := MarkVoidedConflicts(tx, fuel);
      clean := clean && rest;
      if r.Done? && clean {
        LawKeptTransitive(dag, entered, checked, voidedBy, {});
      }
    }

    /** Called once for each new transaction, after its inputs were marked. */
    method UpdateVoidedInfo(tx: VertexId, fuel: nat) returns (r: Outcome, ghost clean: bool)
      requires Linked() && IsTx(dag, tx)
      requires Entering(dag, tx, |dag[tx].inputs|, spentBy, conflictWith, voidedBy)
      requires Weight(tx) == dag[tx].work
      modifies this`voidedBy, this`accumulatedWeight
      ensures r.Done? ==> Sound(dag, conflictWith, voidedBy, {})
      ensures r.Done? ==> ValidConsensus(tx)
      ensures r.Done? && clean && MonotoneBelow(dag, old(voidedBy), tx) && Rooted(old(voidedBy)) ==>
                Monotone(dag, voidedBy) && Rooted(voidedBy)
      ensures At(conflictWith, tx) == {} && Inherited(dag, old(voidedBy), tx) == {} ==>
                r.Done? && clean && forall x :: At(voidedBy, x) == At(old(voidedBy), x)
      ensures fuel > 0 && Inherited(dag, old(voidedBy), tx) == {} && Decidable(dag, conflictWith, old(voidedBy), tx)
              && Unconfirmed(conflictWith, old(voidedBy), confirmed, tx) ==>
                r.Done? && clean && Decided(dag, conflictWith, old(voidedBy), old(accumulatedWeight), tx, voidedBy)
      ensures r.Done? && MonotoneBelow(dag, old(voidedBy), tx) && Weighed(dag, old(voidedBy), old(accumulatedWeight), {tx}) ==>
                Weighed(dag, voidedBy, accumulatedWeight, {})
    {
      hide WellFormed, SpentExact, Sound, Forward, TxReach, Deps, Inherited, ConflictsExact, FullySpent, Monotone,
           MonotoneBelow, Rooted, Decidable, Decided, Unconfirmed, LawKept, Entering, Weighed, Highest;
      ghost var entered;
      NotVoidedYet(dag, tx, spentBy, conflictWith, voidedBy);
      r, clean, entered := EnterVoided(tx, fuel);
      if !r.Done? {
        return;
      }
      ghost var marked, rest := voidedBy, true;
      if At(voidedBy, tx) == {tx} {
        r, rest := CheckConflicts(tx, fuel, {}, {});
        clean := clean && rest;
        if !r.Done? {
          return;
        }
        if clean {
          LawKeptTransitive(dag, entered, marked, voidedBy, {});
        }
      }
      if clean && MonotoneBelow(dag, old(voidedBy), tx) && Rooted(old(voidedBy)) {
        LawToMonotone(dag, entered, voidedBy);
      }
      SoundIsValid(dag, conflictWith, voidedBy, tx);
      if !ValidConsensus(tx) {
        return AssertionFailed, clean;
      }
      r := Done;
    }

    /** The consensus update of one transaction that was just stored. */
    method UpdateConsensus(tx: VertexId, fuel: nat) returns (r: Outcome, ghost clean: bool)
      requires WellFormed(dag) && IsTx(dag, tx)
      requires Entering(dag, tx, 0, spentBy, conflictWith, voidedBy)
      requires Weight(tx) == dag[tx].work
      modifies this`spentBy, this`conflictWith, this`voidedBy, this`accumulatedWeight
      ensures r.Done? ==> Valid()
      ensures r.Done? && clean && MonotoneBelow(dag, old(voidedBy), tx) && Rooted(old(voidedBy)) ==> SubsetLaw()
      ensures Distinct(dag[tx].inputs)
              && At(conflictWith, tx) == {} && Inherited(dag, old(voidedBy), tx) == {} ==>
                r.Done? && clean && forall x :: At(voidedBy, x) == At(old(voidedBy), x)
      ensures fuel > 0 && Distinct(dag[tx].inputs)
              && Contested(dag, conflictWith, old(voidedBy)[tx := {tx}], confirmed, tx) ==>
                r.Done? && clean && Decided(dag, conflictWith, old(voidedBy)[tx := {tx}], old(accumulatedWeight), tx, voidedBy)
      ensures r.Done? && MonotoneBelow(dag, old(voidedBy), tx) && Weighed(dag, old(voidedBy), old(accumulatedWeight), {tx}) ==>
                Weighed(dag, voidedBy, accumulatedWeight, {})
    {
      hide WellFormed, SpentExact, Sound, Forward, TxReach, Deps, Inherited, ConflictsExact, FullySpent, Monotone,
           MonotoneBelow, Rooted, Decidable, Decided, Unconfirmed, Weighed, Distinct;
      clean := true;
      FreshHash(dag, tx, spentBy, conflictWith, voidedBy);
      r := MarkInputsAsUsed(tx);
      if !r.Done? {
        return;
      }
      AllInputsMarked(dag, tx, spentBy);
      MarkedStillBelow(dag, old(voidedBy), tx, voidedBy);
      MarkedWeighed(dag, old(voidedBy), accumulatedWeight, tx, voidedBy);
      r, clean := UpdateVoidedInfo(tx, fuel);
    }

    // ----- runs -----

    ghost predicate Valid()
      reads this
    {
      Linked() && Sound(dag, conflictWith, voidedBy, {})
    }

    /** What voids a transaction voids what verifies it or spends from it, and every voiding hash is on
        its own transaction. */
    ghost predicate SubsetLaw()
      reads this
    {
      Monotone(dag, voidedBy) && Rooted(voidedBy)
    }

    /** No weight is more than the work of the future, and those of the transactions voided by their own hash are exact. */
    ghost predicate WeightsHold()
      reads this
    {
      WellFormed(dag) && Weighed(dag, voidedBy, accumulatedWeight, {})
    }

    constructor ()
      ensures Valid() && SubsetLaw() && WeightsHold() && dag == map[]
    {
      dag, spentBy, conflictWith, voidedBy := map[], map[], map[], map[];
      accumulatedWeight, confirmed := map[], {};
    }

    /** A validated transaction arrives. */
    method OnNewTransaction(id: VertexId, v: Vertex, fuel: nat) returns (r: Outcome, ghost clean: bool)
      requires Valid() && id !in dag && !v.isBlock && WellFormed(dag[id := v])
      modifies this
      ensures dag == old(dag)[id := v] && confirmed == old(confirmed)
      ensures r.Done? ==> Valid()
      ensures r.Done? && clean && old(SubsetLaw()) ==> SubsetLaw()
      ensures Distinct(dag[id].inputs)
              && At(conflictWith, id) == {} && Inherited(dag, old(voidedBy), id) == {} ==>
                r.Done? && clean && forall x :: At(voidedBy, x) == At(old(voidedBy), x)
      ensures fuel > 0 && Distinct(dag[id].inputs)
              && Contested(dag, conflictWith, old(voidedBy)[id := {id}], confirmed, id) ==>
                && r.Done? && clean
                && Decided(dag, conflictWith, old(voidedBy)[id := {id}], old(accumulatedWeight)[id := v.work], id, voidedBy)
                && (old(SubsetLaw()) && old(WeightsHold()) ==> DecidedByWork(dag, conflictWith, old(voidedBy), id, voidedBy))
      ensures r.Done? && old(SubsetLaw()) && old(WeightsHold()) ==> WeightsHold()
    {
      hide WellFormed, Sound, ConflictsExact, FullySpent, Entering, Monotone, MonotoneBelow, Rooted, Decided, Contested, Inherited,
           Weighed, DecidedByWork, Distinct;
      EnterStart(dag, id, v, spentBy, conflictWith, voidedBy);
      if SubsetLaw() {
        GrowBelow(dag, id, v, voidedBy);
      }
      if WeightsHold() {
        GrowWeighed(dag, id, v, voidedBy, accumulatedWeight, accumulatedWeight[id := v.work]);
      }
      dag := dag[id := v];
      accumulatedWeight := accumulatedWeight[id := v.work];
      ghost var spent, conflicts := spentBy, conflictWith;
      r, clean := UpdateConsensus(id, fuel);
      if r.Done? && old(SubsetLaw()) && old(WeightsHold())
         && Contested(dag, conflictWith, old(voidedBy)[id := {id}], confirmed, id)
         && Decided(dag, conflictWith, old(voidedBy)[id := {id}], old(accumulatedWeight)[id := v.work], id, voidedBy) {
        EnterWeighed(dag, spent, conflicts, conflictWith, old(voidedBy), old(accumulatedWeight)[id := v.work], confirmed, id);
        ArrivalWins(dag, spentBy, conflictWith, old(voidedBy), old(accumulatedWeight)[id := v.work], confirmed, id, voidedBy);
      }
    }

    /** A validated block arrives, and `nowConfirmed` are the transactions with a first block after it;
        it voids nothing here. */
    method OnNewBlock(id: VertexId, v: Vertex, nowConfirmed: set<VertexId>)
      requires Valid() && id !in dag && v.isBlock && WellFormed(dag[id := v])
      modifies this
      ensures Valid() && dag == old(dag)[id := v] && confirmed == nowConfirmed
      ensures voidedBy == old(voidedBy) && conflictWith == old(conflictWith)
      ensures old(SubsetLaw()) ==> SubsetLaw()
      ensures old(WeightsHold()) ==> WeightsHold()
    {
      hide WellFormed, Sound, ConflictsExact, FullySpent, Monotone, Rooted, Weighed;
      GrowSound(dag, dag[id := v], conflictWith, voidedBy);
      BlocksSpendNothing(dag, id, v, spentBy);
      if WeightsHold() {
        GrowBlockWeighed(dag, id, v, voidedBy, accumulatedWeight);
      }
      if SubsetLaw() {
        GrowBlock(dag, id, v, voidedBy);
      }
      dag := dag[id := v];
      confirmed := nowConfirmed;
    }

    /** Any run that completes without a failed assertion ends in a valid state, and under the subset
        law if no hash was withdrawn while it was still being spread. `confirmations` are the
        transactions confirmed after each arrival of a block. */
    method Run(arrivals: seq<(VertexId, Vertex)>, confirmations: seq<set<VertexId>>, fuel: nat) returns (r: Outcome, ghost clean: bool)
      requires Valid() && SubsetLaw() && Acceptable(dag, arrivals) && |confirmations| == |arrivals|
      modifies this
      ensures r.Done? ==> Valid() && dag == AfterArrivals(old(dag), arrivals)
      ensures r.Done? && clean ==> SubsetLaw() && (old(WeightsHold()) ==> WeightsHold())
    {
      hide Sound, ConflictsExact, FullySpent, Monotone, Rooted, Weighed;
      r, clean := Done, true;
      var i := 0;
      while i < |arrivals|
        invariant 0 <= i <= |arrivals|
        invariant Valid() && Acceptable(dag, arrivals[i..])
        invariant clean ==> SubsetLaw() && (old(WeightsHold()) ==> WeightsHold())
        invariant AfterArrivals(dag, arrivals[i..]) == AfterArrivals(old(dag), arrivals)
        invariant r.Done?
      {
        assert arrivals[i..][1..] == arrivals[i + 1..];
        var (id, v) := arrivals[i];
        if v.isBlock {
          OnNewBlock(id, v, confirmations[i]);
        } else {
          ghost var rest;
          r, rest := OnNewTransaction(id, v, fuel);
          clean := clean && rest;
          if !r.Done? {
            return;
          }
        }
        i := i + 1;
      }
    }

    // ----- voiding and restoring -----

    /** Voiding an executed transaction by its own hash and withdrawing the hash again restores
        what voids every transaction, when nothing above it has a conflict. */
    method VoidAndRestore(tx: VertexId, fuel: nat) returns (r: Outcome)
      requires Valid() && Monotone(dag, voidedBy) && Quiet(dag, conflictWith, voidedBy, tx)
      requires forall y :: y in Descendants(dag, tx) && y != tx ==> At(conflictWith, y) == {}
      modifies this`voidedBy, this`accumulatedWeight
      ensures r.Done? && forall x :: At(voidedBy, x) == At(old(voidedBy), x)
    {
      hide WellFormed, TxReach, Deps, FullySpent, ConflictsExact, Quiet, Spread, Withdrawn, Sound, Monotone, Descendants;
      QuietIsExecuted(dag, conflictWith, voidedBy, tx);
      QuietFacts(dag, conflictWith, voidedBy, tx);
      Exempting(dag, conflictWith, voidedBy, {}, tx);
      ghost var clean;
      r, clean := AddVoidedBy(tx, fuel, {}, {});
      SpreadIsReady(dag, conflictWith, old(voidedBy), tx, voidedBy);
      ghost var mid := voidedBy;
      MonotoneUp(dag, voidedBy, tx);
      r, clean := RemoveVoidedBy(tx, fuel, {}, {});
      SpreadThenWithdraw(old(voidedBy), Descendants(dag, tx), tx, mid, voidedBy);
    }
  }

  /** In every valid state: no output is spent by two executed transactions. */
  lemma {:induction false} NoOutputSpentTwice(dag: Store, spentBy: map<Outpoint, set<VertexId>>, conflictWith: Marks,
                                              voidedBy: Marks, o: Outpoint, x: VertexId, y: VertexId)
    requires WellFormed(dag) && FullySpent(dag, spentBy) && ConflictsExact(spentBy, conflictWith)
    requires Sound(dag, conflictWith, voidedBy, {})
    requires Spends(dag, x, o) && Spends(dag, y, o) && x != y
    ensures At(voidedBy, x) != {} || At(voidedBy, y) != {}
    ensures At(voidedBy, x) != {} ==> x in At(voidedBy, x)
    ensures y in At(conflictWith, x)
  {
    assert x in spentBy[o] && y in spentBy[o];
    assert Clash(spentBy, x, y);
  }
}
