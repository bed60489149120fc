/**
 The accumulated weight of a transaction: the work of everything that verifies it or spends from it,
 directly or not. It decides conflicts.
 */
module AccumulatedWeight {
  import opened Dag
  import opened TxMetadata

  type Weights = map<VertexId, nat>

  /** A missing entry stands for zero. */
  function WeightOf(weights: Weights, v: VertexId): nat {
    if v in weights then weights[v] else 0
  }

  // ----- the future of a vertex -----

  /** Everything that reaches `v` along any edge, itself included. */
  ghost function Future(dag: Store, v: VertexId): (s: set<VertexId>)
    requires WellFormed(dag)
    ensures s <= dag.Keys
  {
    set u | u in dag && v in Cone(dag, u)
  }

  lemma {:induction false} FutureSelf(dag: Store, v: VertexId)
    requires WellFormed(dag) && v in dag
    ensures v in Future(dag, v)
  {
  }

  lemma {:induction false} FutureStep(dag: Store, v: VertexId, x: VertexId, c: VertexId)
    requires WellFormed(dag) && x in Future(dag, v) && c in Forward(dag, x)
    ensures c in Future(dag, v) && dag[x].timestamp < dag[c].timestamp
  {
    hide WellFormed, Cone, Deps;
    ConeStep(dag, c, x);
  }

  /** The future of `v` is the least set that holds `v` and what comes directly after each member. */
  lemma {:induction false} FutureLeast(dag: Store, v: VertexId, s: set<VertexId>, u: VertexId)
    requires WellFormed(dag) && v in s && u in Future(dag, v)
    requires forall x, c :: x in s && c in Forward(dag, x) ==> c in s
    ensures u in s
    decreases dag[u].timestamp
  {
    hide WellFormed, Deps;
    if u != v {
      var d :| d in Deps(dag, u) && Older(dag, d, u) && v in Cone(dag, d);
      FutureLeast(dag, v, s, d);
      assert u in Forward(dag, d);
    }
  }

  lemma {:induction false} NothingAfter(dag: Store, v: VertexId)
    requires WellFormed(dag) && v in dag && Forward(dag, v) == {}
    ensures Future(dag, v) == {v} && Work(dag, Future(dag, v)) == dag[v].work
  {
    hide WellFormed, Cone, Deps;
    FutureSelf(dag, v);
    forall u | u in Future(dag, v)
      ensures u == v
    {
      FutureLeast(dag, v, {v}, u);
    }
    assert Future(dag, v) == {} + {v};
    WorkAdd(dag, {}, v);
  }

  lemma {:induction false} WorkSubset(dag: Store, s: set<VertexId>, t: set<VertexId>)
    requires s <= t <= dag.Keys
    ensures Work(dag, s) <= Work(dag, t)
  {
    WorkUnion(dag, s, t - s);
    assert s + (t - s) == t;
  }

  // ----- the walk that adds up the future -----

  /** `visited` was added up, oldest first, and `pending` is what comes directly after it. */
  ghost predicate Summing(dag: Store, root: VertexId, visited: set<VertexId>, pending: set<VertexId>, work: nat)
    requires WellFormed(dag)
  {
    && root in visited && visited !! pending && visited + pending <= Future(dag, root)
    && (forall v, y :: v in visited && y in pending ==> dag[v].timestamp <= dag[y].timestamp)
    && (forall v, c :: v in visited && c in Forward(dag, v) ==> c in visited + pending)
    && work == Work(dag, visited)
  }

  lemma {:induction false} SumStart(dag: Store, root: VertexId)
    requires WellFormed(dag) && root in dag
    ensures Summing(dag, root, {root}, Forward(dag, root), dag[root].work)
  {
    hide WellFormed, Cone, Deps, Future, Forward;
    FutureSelf(dag, root);
    forall c | c in Forward(dag, root)
      ensures c in Future(dag, root) && dag[root].timestamp < dag[c].timestamp
    {
      FutureStep(dag, root, root, c);
    }
    assert {root} == {} + {root};
    WorkAdd(dag, {}, root);
  }

  lemma {:induction false} SumStep(dag: Store, root: VertexId, visited: set<VertexId>, pending: set<VertexId>, work: nat,
                                   x: VertexId)
    requires WellFormed(dag) && Summing(dag, root, visited, pending, work) && Oldest(dag, pending, x)
    ensures Summing(dag, root, visited + {x}, pending - {x} + Forward(dag, x), work + dag[x].work)
  {
    hide WellFormed, Cone, Deps, Future, Forward;
    WorkAdd(dag, visited, x);
    var pending' := pending - {x} + Forward(dag, x);
    forall c | c in Forward(dag, x)
      ensures c in Future(dag, root) && dag[x].timestamp < dag[c].timestamp
    {
      FutureStep(dag, root, x, c);
    }
    assert visited + {x} !! pending';
    forall v, c | v in visited + {x} && c in Forward(dag, v)
      ensures c in visited + {x} + pending'
    {
      assert v in visited ==> c in visited + pending;
    }
  }

  /** What was added up so far is at most the work of the future, and all of it when nothing is pending. */
  lemma {:induction false} SumBound(dag: Store, root: VertexId, visited: set<VertexId>, pending: set<VertexId>, work: nat)
    requires WellFormed(dag) && Summing(dag, root, visited, pending, work)
    ensures work <= Work(dag, Future(dag, root))
    ensures pending == {} ==> work == Work(dag, Future(dag, root))
  {
    hide WellFormed, Cone, Deps, Future, Forward;
    WorkSubset(dag, visited, Future(dag, root));
    if pending == {} {
      forall u | u in Future(dag, root)
        ensures u in visited
      {
        FutureLeast(dag, root, visited, u);
      }
      assert visited == Future(dag, root);
    }
  }

  lemma {:induction false} SumFacts(dag: Store, root: VertexId, visited: set<VertexId>, pending: set<VertexId>, work: nat)
    requires WellFormed(dag) && Summing(dag, root, visited, pending, work) && pending != {}
    ensures exists x :: x in pending && Oldest(dag, pending, x)
    ensures visited !! pending && pending <= dag.Keys
  {
    hide WellFormed, Cone, Deps, Forward;
    OldestExists(dag, pending);
  }

  // ----- stored weights -----

  ghost predicate NoBlockAfter(dag: Store, v: VertexId)
    requires WellFormed(dag)
  {
    forall u :: u in Future(dag, v) ==> !dag[u].isBlock
  }

  /** No stored weight is more than the work of the future, leaving out `out`. */
  ghost predicate AtMost(dag: Store, weights: Weights, out: set<VertexId>)
    requires WellFormed(dag)
  {
    && (forall v :: v in dag && v !in out ==> WeightOf(weights, v) <= Work(dag, Future(dag, v) - out))
    && forall v :: v !in dag ==> WeightOf(weights, v) == 0
  }

  /** Every transaction that is voided by its own hash has its weight up to date, leaving out `out`;
      the weight of blocks is not added to what they void. */
  ghost predicate UpToDate(dag: Store, voidedBy: Marks, weights: Weights, out: set<VertexId>)
    requires WellFormed(dag)
  {
    forall h :: h in At(voidedBy, h) && h in dag && h !in out && NoBlockAfter(dag, h) ==>
                  WeightOf(weights, h) == Work(dag, Future(dag, h) - out)
  }

  ghost predicate Weighed(dag: Store, voidedBy: Marks, weights: Weights, out: set<VertexId>)
    requires WellFormed(dag)
  {
    AtMost(dag, weights, out) && UpToDate(dag, voidedBy, weights, out)
  }

  ghost predicate WeighedKept(dag: Store, voidedBy: Marks, weights: Weights, voidedBy': Marks, weights': Weights)
    requires WellFormed(dag)
  {
    Weighed(dag, voidedBy, weights, {}) ==> Weighed(dag, voidedBy', weights', {})
  }

  /** Fewer own hashes and the same weights. */
  lemma {:induction false} WeighedFewer(dag: Store, voidedBy: Marks, weights: Weights, voidedBy': Marks)
    requires WellFormed(dag) && forall h :: h in At(voidedBy', h) ==> h in At(voidedBy, h)
    ensures WeighedKept(dag, voidedBy, weights, voidedBy', weights)
  {
    hide WellFormed, Future, NoBlockAfter, AtMost;
  }

  /** Changing the weight of one transaction, to the right value if its own hash voids it. */
  lemma {:induction false} WeighedOne(dag: Store, voidedBy: Marks, weights: Weights, voidedBy': Marks, weights': Weights,
                                      v: VertexId)
    requires WellFormed(dag) && v in dag
    requires forall h :: h != v && h in At(voidedBy', h) ==> h in At(voidedBy, h)
    requires forall u :: u != v ==> WeightOf(weights', u) == WeightOf(weights, u)
    requires AtMost(dag, weights, {}) ==> WeightOf(weights', v) <= Work(dag, Future(dag, v))
    requires v in At(voidedBy', v) ==> WeightOf(weights', v) == Work(dag, Future(dag, v))
    ensures WeighedKept(dag, voidedBy, weights, voidedBy', weights')
  {
    hide WellFormed, Future, NoBlockAfter;
    assert Future(dag, v) - {} == Future(dag, v);
  }

  // ----- weights across arrivals -----

  lemma {:induction false} ConeStable(dag: Store, dag': Store, v: VertexId)
    requires Extends(dag, dag') && v in dag
    ensures Cone(dag', v) == Cone(dag, v)
    decreases dag[v].timestamp
  {
    assert Deps(dag, v) == Deps(dag', v);
    DepsOlder(dag, v);
    forall d | d in Deps(dag, v)
      ensures Cone(dag', d) == Cone(dag, d) && Older(dag, d, v) && Older(dag', d, v)
    {
      ConeStable(dag, dag', d);
    }
  }

  /** One vertex more adds at most itself to a future. */
  lemma {:induction false} FutureGrows(dag: Store, id: VertexId, v: Vertex, h: VertexId)
    requires WellFormed(dag) && id !in dag && WellFormed(dag[id := v]) && h in dag
    ensures Future(dag[id := v], h) - {id} == Future(dag, h)
    ensures Work(dag[id := v], Future(dag[id := v], h) - {id}) == Work(dag, Future(dag, h))
  {
    hide WellFormed, Cone, Deps;
    var dag' := dag[id := v];
    assert Extends(dag, dag');
    forall u | u in dag
      ensures Cone(dag', u) == Cone(dag, u)
    {
      ConeStable(dag, dag', u);
    }
    WorkStable(dag, dag', Future(dag, h));
  }

  lemma {:induction false} GrowWeighed(dag: Store, id: VertexId, v: Vertex, voidedBy: Marks, weights: Weights, weights': Weights)
    requires WellFormed(dag) && id !in dag && WellFormed(dag[id := v]) && Weighed(dag, voidedBy, weights, {})
    requires forall u :: u != id ==> WeightOf(weights', u) == WeightOf(weights, u)
    ensures Weighed(dag[id := v], voidedBy, weights', {id})
  {
    hide WellFormed, Future;
    var dag' := dag[id := v];
    forall h | h in dag
      ensures Work(dag', Future(dag', h) - {id}) == Work(dag, Future(dag, h) - {})
      ensures NoBlockAfter(dag', h) ==> NoBlockAfter(dag, h)
    {
      FutureGrows(dag, id, v, h);
      assert Future(dag, h) - {} == Future(dag, h);
    }
  }

  /** A block leaves all weights as they are. */
  lemma {:induction false} GrowBlockWeighed(dag: Store, id: VertexId, v: Vertex, voidedBy: Marks, weights: Weights)
    requires WellFormed(dag) && id !in dag && v.isBlock && WellFormed(dag[id := v]) && Weighed(dag, voidedBy, weights, {})
    requires id !in At(voidedBy, id)
    ensures Weighed(dag[id := v], voidedBy, weights, {})
  {
    hide WellFormed, Future;
    var dag' := dag[id := v];
    GrowWeighed(dag, id, v, voidedBy, weights, weights);
    forall h | h in dag
      ensures Work(dag', Future(dag', h) - {id}) <= Work(dag', Future(dag', h) - {})
      ensures NoBlockAfter(dag', h) ==> Future(dag', h) - {id} == Future(dag', h) - {}
    {
      WorkSubset(dag', Future(dag', h) - {id}, Future(dag', h) - {});
      if NoBlockAfter(dag', h) {
        assert id !in Future(dag', h);
      }
    }
  }

  /** Above a hash with no block after it, the subset law carries the hash along every path. */
  lemma {:induction false} CarriedAlong(dag: Store, voidedBy: Marks, tx: VertexId, h: VertexId, d: VertexId)
    requires WellFormed(dag) && MonotoneBelow(dag, voidedBy, tx) && NoBlockAfter(dag, h) && h in At(voidedBy, h)
    requires d in Future(dag, h) && dag[d].timestamp < (if tx in dag then dag[tx].timestamp else 0)
    ensures h in At(voidedBy, d)
    decreases dag[d].timestamp
  {
    hide WellFormed, Deps;
    if d != h {
      var e :| e in Deps(dag, d) && Older(dag, e, d) && h in Cone(dag, e);
      CarriedAlong(dag, voidedBy, tx, h, e);
      assert e in Future(dag, h) && d in Future(dag, h);
      assert IsTx(dag, d) && e in TxDeps(dag, d);
    }
  }

  /** A new transaction is in the future of a transaction that is voided by its own hash exactly if it takes that hash over. */
  lemma {:induction false} InheritedIsFuture(dag: Store, conflictWith: Marks, voidedBy: Marks, exempt: set<VertexId>,
                                             tx: VertexId, h: VertexId)
    requires WellFormed(dag) && IsTx(dag, tx) && Sound(dag, conflictWith, voidedBy, exempt) && h != tx
    ensures h in Inherited(dag, voidedBy, tx) ==> tx in Future(dag, h)
    ensures MonotoneBelow(dag, voidedBy, tx) && NoBlockAfter(dag, h) && h in At(voidedBy, h) && tx in Future(dag, h) ==>
              h in Inherited(dag, voidedBy, tx)
  {
    hide WellFormed, Deps, TxReach, Sound;
    if h in Inherited(dag, voidedBy, tx) {
      InheritedFacts(dag, conflictWith, voidedBy, exempt, tx, h);
      TxReachInCone(dag, tx);
    }
    if MonotoneBelow(dag, voidedBy, tx) && NoBlockAfter(dag, h) && h in At(voidedBy, h) && tx in Future(dag, h) {
      var d :| d in Deps(dag, tx) && Older(dag, d, tx) && h in Cone(dag, d);
      CarriedAlong(dag, voidedBy, tx, h, d);
    }
  }

  lemma {:induction false} InheritAtMost(dag: Store, conflictWith: Marks, voidedBy: Marks, exempt: set<VertexId>, weights: Weights,
                                         tx: VertexId, weights': Weights, v: VertexId)
    requires WellFormed(dag) && IsTx(dag, tx) && Sound(dag, conflictWith, voidedBy, exempt) && v in dag && v != tx
    requires WeightOf(weights, v) <= Work(dag, Future(dag, v) - {tx})
    requires WeightOf(weights', v) == WeightOf(weights, v) + if v in Inherited(dag, voidedBy, tx) then dag[tx].work else 0
    ensures WeightOf(weights', v) <= Work(dag, Future(dag, v))
  {
    hide WellFormed, Deps, TxReach, Sound, Cone, Inherited;
    InheritedIsFuture(dag, conflictWith, voidedBy, exempt, tx, v);
    if tx in Future(dag, v) {
      WorkRemove(dag, Future(dag, v), tx);
    } else {
      assert Future(dag, v) - {tx} == Future(dag, v);
    }
  }

  lemma {:induction false} InheritUpToDate(dag: Store, conflictWith: Marks, voidedBy: Marks, exempt: set<VertexId>, weights: Weights,
                                           tx: VertexId, weights': Weights, h: VertexId)
    requires WellFormed(dag) && IsTx(dag, tx) && Sound(dag, conflictWith, voidedBy, exempt) && h in dag && h != tx
    requires MonotoneBelow(dag, voidedBy, tx) && NoBlockAfter(dag, h) && h in At(voidedBy, h)
    requires WeightOf(weights, h) == Work(dag, Future(dag, h) - {tx})
    requires WeightOf(weights', h) == WeightOf(weights, h) + if h in Inherited(dag, voidedBy, tx) then dag[tx].work else 0
    ensures WeightOf(weights', h) == Work(dag, Future(dag, h))
  {
    hide WellFormed, Deps, TxReach, Sound, Cone, Inherited, MonotoneBelow, NoBlockAfter;
    InheritedIsFuture(dag, conflictWith, voidedBy, exempt, tx, h);
    if tx in Future(dag, h) {
      WorkRemove(dag, Future(dag, h), tx);
    } else {
      assert Future(dag, h) - {tx} == Future(dag, h);
    }
  }

  /** A new transaction adds its work to the transactions whose hashes it takes over, and all weights are up to date again. */
  lemma {:induction false} InheritWeighed(dag: Store, conflictWith: Marks, voidedBy: Marks, exempt: set<VertexId>, weights: Weights,
                                          tx: VertexId, voidedBy': Marks, weights': Weights)
    requires WellFormed(dag) && IsTx(dag, tx) && Forward(dag, tx) == {} && Sound(dag, conflictWith, voidedBy, exempt)
    requires MonotoneBelow(dag, voidedBy, tx) && Weighed(dag, voidedBy, weights, {tx}) && WeightOf(weights, tx) == dag[tx].work
    requires forall v :: WeightOf(weights', v) == WeightOf(weights, v) + if v in Inherited(dag, voidedBy, tx) then dag[tx].work else 0
    requires forall x :: x != tx ==> At(voidedBy', x) == At(voidedBy, x)
    ensures Weighed(dag, voidedBy', weights', {})
  {
    hide WellFormed, Deps, TxReach, Sound, Cone, Inherited, MonotoneBelow, NoBlockAfter, Future, Forward;
    NotInherited(dag, conflictWith, voidedBy, exempt, tx);
    NothingAfter(dag, tx);
    forall v | v in Inherited(dag, voidedBy, tx)
      ensures v in dag
    {
      InheritedFacts(dag, conflictWith, voidedBy, exempt, tx, v);
      TxReachNotNewer(dag, tx, v);
    }
    forall v | v in dag
      ensures WeightOf(weights', v) <= Work(dag, Future(dag, v) - {})
      ensures v in At(voidedBy', v) && NoBlockAfter(dag, v) ==> WeightOf(weights', v) == Work(dag, Future(dag, v) - {})
    {
      assert Future(dag, v) - {} == Future(dag, v);
      if v != tx {
        InheritAtMost(dag, conflictWith, voidedBy, exempt, weights, tx, weights', v);
        if v in At(voidedBy', v) && NoBlockAfter(dag, v) {
          InheritUpToDate(dag, conflictWith, voidedBy, exempt, weights, tx, weights', v);
        }
      }
    }
  }

  // ----- deciding by weight -----

  /** The conflicts that `tx` is compared with: executed, or voided only by themselves. */
  predicate Candidate(conflictWith: Marks, voidedBy: Marks, tx: VertexId, c: VertexId) {
    c in At(conflictWith, tx) && (At(voidedBy, c) == {} || At(voidedBy, c) == {c})
  }

  /** A voided conflict counts with its stored weight; an executed one also with the work of its future. */
  ghost predicate Heavier(dag: Store, voidedBy: Marks, weights: Weights, tx: VertexId, c: VertexId)
    requires WellFormed(dag)
  {
    || WeightOf(weights, c) > WeightOf(weights, tx)
    || (At(voidedBy, c) == {} && Work(dag, Future(dag, c)) > WeightOf(weights, tx))
  }

  ghost predicate Highest(dag: Store, conflictWith: Marks, voidedBy: Marks, weights: Weights, tx: VertexId)
    requires WellFormed(dag)
  {
    forall c :: Candidate(conflictWith, voidedBy, tx, c) ==> !Heavier(dag, voidedBy, weights, tx, c)
  }

  /** An executed conflict weighs as much as `tx`. */
  ghost predicate Tied(dag: Store, conflictWith: Marks, voidedBy: Marks, weights: Weights, tx: VertexId)
    requires WellFormed(dag)
  {
    exists c :: c in At(conflictWith, tx) && At(voidedBy, c) == {} && Work(dag, Future(dag, c)) == WeightOf(weights, tx)
  }

  /** What deciding the conflicts of `tx` leaves: everything as it was if a conflict is heavier, otherwise the
      conflicts voided, and `tx` executed unless one of them was as heavy. */
  ghost predicate Decided(dag: Store, conflictWith: Marks, before: Marks, weights: Weights, tx: VertexId, after: Marks)
    requires WellFormed(dag)
  {
    if !Highest(dag, conflictWith, before, weights, tx) then
      after == before
    else if Tied(dag, conflictWith, before, weights, tx) then
      Lost(dag, before, Losers(conflictWith, before, tx), after)
    else
      exists mid :: Lost(dag, before, Losers(conflictWith, before, tx), mid) && Withdrawn(mid, Descendants(dag, tx), tx, after)
  }

  /** `tx` is executed afterwards exactly if it is heavier than every executed conflict and as heavy as the others;
      its executed conflicts stay executed exactly if one candidate is heavier than it. */
  lemma {:induction false} DecidedMeans(dag: Store, spentBy: map<Outpoint, set<VertexId>>, conflictWith: Marks, before: Marks,
                                        weights: Weights, tx: VertexId, after: Marks)
    requires WellFormed(dag) && FullySpent(dag, spentBy) && ConflictsExact(spentBy, conflictWith)
    requires Decidable(dag, conflictWith, before, tx) && Decided(dag, conflictWith, before, weights, tx, after)
    ensures At(after, tx) == {} <==>
              Highest(dag, conflictWith, before, weights, tx) && !Tied(dag, conflictWith, before, weights, tx)
    ensures forall c :: c in Losers(conflictWith, before, tx) ==>
                          (At(after, c) == {} <==> !Highest(dag, conflictWith, before, weights, tx))
  {
    hide WellFormed, Highest, Tied, Descendants, Monotone, Rooted, OwnHash, Quiet, Forward, Lost, ConflictsExact, FullySpent;
    ConflictsSymmetric(spentBy, conflictWith);
    if Highest(dag, conflictWith, before, weights, tx) {
      var mid := after;
      if !Tied(dag, conflictWith, before, weights, tx) {
        mid :| Lost(dag, before, Losers(conflictWith, before, tx), mid) && Withdrawn(mid, Descendants(dag, tx), tx, after);
        SelfDescendant(dag, tx);
      }
      NotLost(dag, conflictWith, before, tx, mid);
      forall c | c in Losers(conflictWith, before, tx)
        ensures At(after, c) != {}
      {
        ConflictIsTx(dag, spentBy, conflictWith, c);
        AllVoided(dag, conflictWith, before, tx, mid, c);
        assert c != tx && c !in Descendants(dag, tx);
      }
    }
  }

  /** With weights up to date and no block after the transactions compared, work alone decides: `tx` wins if the
      work of its future is the greatest, and there is a tie if an executed conflict has the same. */
  lemma {:induction false} WorkDecides(dag: Store, spentBy: map<Outpoint, set<VertexId>>, conflictWith: Marks, voidedBy: Marks,
                                       weights: Weights, tx: VertexId)
    requires WellFormed(dag) && FullySpent(dag, spentBy) && ConflictsExact(spentBy, conflictWith)
    requires Weighed(dag, voidedBy, weights, {}) && IsTx(dag, tx) && At(voidedBy, tx) == {tx} && NoBlockAfter(dag, tx)
    requires forall c :: c in At(conflictWith, tx) && At(voidedBy, c) == {c} ==> NoBlockAfter(dag, c)
    ensures Highest(dag, conflictWith, voidedBy, weights, tx) <==>
              forall c :: Candidate(conflictWith, voidedBy, tx, c) ==> Work(dag, Future(dag, c)) <= Work(dag, Future(dag, tx))
    ensures Tied(dag, conflictWith, voidedBy, weights, tx) <==>
              exists c :: && c in At(conflictWith, tx) && At(voidedBy, c) == {}
                          && Work(dag, Future(dag, c)) == Work(dag, Future(dag, tx))
  {
    hide WellFormed, Future, NoBlockAfter, ConflictsExact, FullySpent;
    ConflictsSymmetric(spentBy, conflictWith);
    assert Future(dag, tx) - {} == Future(dag, tx);
    forall c | Candidate(conflictWith, voidedBy, tx, c)
      ensures Heavier(dag, voidedBy, weights, tx, c) <==> Work(dag, Future(dag, c)) > Work(dag, Future(dag, tx))
    {
      ConflictIsTx(dag, spentBy, conflictWith, c);
      assert Future(dag, c) - {} == Future(dag, c);
    }
  }

  /** An executed transaction was weighed up to a limit. */
  lemma {:induction false} StoppedKeeps(dag: Store, voidedBy: Marks, weights: Weights, weights': Weights, v: VertexId)
    requires WellFormed(dag) && v in dag && At(voidedBy, v) == {}
    requires forall u :: u != v ==> WeightOf(weights', u) == WeightOf(weights, u)
    requires WeightOf(weights', v) <= Work(dag, Future(dag, v)) || weights' == weights
    ensures WeighedKept(dag, voidedBy, weights, voidedBy, weights')
  {
    hide WellFormed, Future, NoBlockAfter, Weighed, AtMost;
    if weights' != weights {
      WeighedOne(dag, voidedBy, weights, voidedBy, weights', v);
    }
  }

  /** Marking the inputs of the newest transaction touches no other. */
  lemma {:induction false} MarkedWeighed(dag: Store, voidedBy: Marks, weights: Weights, tx: VertexId, voidedBy': Marks)
    requires WellFormed(dag) && forall x :: x != tx ==> At(voidedBy', x) == At(voidedBy, x)
    ensures Weighed(dag, voidedBy, weights, {tx}) ==> Weighed(dag, voidedBy', weights, {tx})
  {
    hide WellFormed, Future, NoBlockAfter, AtMost;
  }

  /** The new `tx` has more work than the future of each executed conflict, and no less than that of each conflict
      that is voided only by itself. */
  ghost predicate Outweighs(dag: Store, conflictWith: Marks, voidedBy: Marks, tx: VertexId)
    requires WellFormed(dag) && tx in dag
  {
    forall c :: c in At(conflictWith, tx) ==>
      && (At(voidedBy, c) == {} ==> Work(dag, Future(dag, c)) < dag[tx].work)
      && (At(voidedBy, c) == {c} ==> Work(dag, Future(dag, c)) <= dag[tx].work)
  }

  /** A new transaction whose conflicts are decided is executed exactly if it outweighs them. */
  lemma {:induction false} NewestWins(dag: Store, spentBy: map<Outpoint, set<VertexId>>, conflictWith: Marks, before: Marks,
                                      weights: Weights, tx: VertexId, after: Marks)
    requires WellFormed(dag) && FullySpent(dag, spentBy) && ConflictsExact(spentBy, conflictWith)
    requires Decidable(dag, conflictWith, before, tx) && Decided(dag, conflictWith, before, weights, tx, after)
    requires Weighed(dag, before, weights, {}) && Forward(dag, tx) == {}
    requires forall c :: c in At(conflictWith, tx) && At(before, c) == {c} ==> NoBlockAfter(dag, c)
    ensures At(after, tx) == {} <==> Outweighs(dag, conflictWith, before, tx)
  {
    hide WellFormed, FullySpent, ConflictsExact, Decided, Weighed, Future, Highest, Tied, Forward, Monotone, Rooted, OwnHash, Quiet;
    NothingAfter(dag, tx);
    assert NoBlockAfter(dag, tx);
    DecidedMeans(dag, spentBy, conflictWith, before, weights, tx, after);
    WorkDecides(dag, spentBy, conflictWith, before, weights, tx);
    if Outweighs(dag, conflictWith, before, tx) {
      assert forall c :: Candidate(conflictWith, before, tx, c) ==> Work(dag, Future(dag, c)) <= Work(dag, Future(dag, tx));
    } else {
      var c :| c in At(conflictWith, tx) && !(&& (At(before, c) == {} ==> Work(dag, Future(dag, c)) < dag[tx].work)
                                              && (At(before, c) == {c} ==> Work(dag, Future(dag, c)) <= dag[tx].work));
      assert Candidate(conflictWith, before, tx, c);
    }
  }

  /** A new transaction that takes nothing over leaves all weights up to date. */
  lemma {:induction false} EnterWeighed(dag: Store, spentBy: map<Outpoint, set<VertexId>>, conflictWith: Marks,
                                        conflictWith': Marks, voidedBy: Marks, weights: Weights, confirmed: set<VertexId>, tx: VertexId)
    requires WellFormed(dag) && Entering(dag, tx, 0, spentBy, conflictWith, voidedBy) && MonotoneBelow(dag, voidedBy, tx)
    requires Weighed(dag, voidedBy, weights, {tx}) && WeightOf(weights, tx) == dag[tx].work
    requires Contested(dag, conflictWith', voidedBy[tx := {tx}], confirmed, tx)
    ensures Weighed(dag, voidedBy[tx := {tx}], weights, {}) && Forward(dag, tx) == {}
  {
    hide WellFormed, Deps, Sound, SpentExact, ConflictsExact, MonotoneBelow, Weighed, Forward, Decidable, Unconfirmed;
    DepsOlder(dag, tx);
    assert forall d :: d in Deps(dag, tx) ==> At(voidedBy[tx := {tx}], d) == At(voidedBy, d);
    assert Inherited(dag, voidedBy, tx) == Inherited(dag, voidedBy[tx := {tx}], tx);
    InheritWeighed(dag, conflictWith, voidedBy, At(conflictWith, tx), weights, tx, voidedBy[tx := {tx}], weights);
  }

  /** With no block after the conflicts voided only by themselves, `tx` is executed exactly if it outweighs its conflicts. */
  ghost predicate DecidedByWork(dag: Store, conflictWith: Marks, voidedBy: Marks, tx: VertexId, after: Marks)
    requires WellFormed(dag) && tx in dag
  {
    (forall c :: c in At(conflictWith, tx) && At(voidedBy, c) == {c} ==> NoBlockAfter(dag, c)) ==>
      (At(after, tx) == {} <==> Outweighs(dag, conflictWith, voidedBy, tx))
  }

  lemma {:induction false} ArrivalWins(dag: Store, spentBy: map<Outpoint, set<VertexId>>, conflictWith: Marks, voidedBy: Marks,
                                       weights: Weights, confirmed: set<VertexId>, tx: VertexId, after: Marks)
    requires WellFormed(dag) && FullySpent(dag, spentBy) && ConflictsExact(spentBy, conflictWith) && tx in dag
    requires Contested(dag, conflictWith, voidedBy[tx := {tx}], confirmed, tx)
    requires Decided(dag, conflictWith, voidedBy[tx := {tx}], weights, tx, after)
    requires Weighed(dag, voidedBy[tx := {tx}], weights, {}) && Forward(dag, tx) == {}
    ensures DecidedByWork(dag, conflictWith, voidedBy, tx, after)
  {
    hide WellFormed, FullySpent, ConflictsExact, Decidable, Decided, Weighed, Future, Forward, NoBlockAfter, Inherited;
    ConflictsSymmetric(spentBy, conflictWith);
    var before := voidedBy[tx := {tx}];
    assert forall c :: c in At(conflictWith, tx) ==> At(before, c) == At(voidedBy, c);
    if forall c :: c in At(conflictWith, tx) && At(voidedBy, c) == {c} ==> NoBlockAfter(dag, c) {
      NewestWins(dag, spentBy, conflictWith, before, weights, tx, after);
    }
  }
}
