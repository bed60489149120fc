/**
 What the metadata of transactions says about conflicts and voidance, and the walk towards
 newer transactions that spreads or withdraws a voiding hash.
 */
module TxMetadata {
  import opened Dag

  type Marks = map<VertexId, set<VertexId>>

  /** A missing entry stands for an empty one. */
  function At(m: Marks, v: VertexId): set<VertexId> {
    if v in m then m[v] else {}
  }

  // ----- spent outputs and conflicts -----

  ghost predicate Spends(dag: Store, v: VertexId, o: Outpoint) {
    IsTx(dag, v) && o in dag[v].inputs
  }

  /** `tx` has had its first `n` inputs marked as used; every other transaction all of them. */
  ghost predicate SpentExact(dag: Store, tx: VertexId, n: nat, spentBy: map<Outpoint, set<VertexId>>)
    requires IsTx(dag, tx) && n <= |dag[tx].inputs|
  {
    && (forall o, v :: v != tx && Spends(dag, v, o) ==> o in spentBy && v in spentBy[o])
    && (forall o, v :: v != tx && o in spentBy && v in spentBy[o] ==> Spends(dag, v, o))
    && (forall o :: o in dag[tx].inputs[..n] <==> o in spentBy && tx in spentBy[o])
  }

  /** The same for the whole store: `spent_outputs` is exactly the inverse of the inputs. */
  ghost predicate FullySpent(dag: Store, spentBy: map<Outpoint, set<VertexId>>) {
    && (forall o, v :: Spends(dag, v, o) ==> o in spentBy && v in spentBy[o])
    && (forall o, v :: o in spentBy && v in spentBy[o] ==> Spends(dag, v, o))
  }

  ghost predicate Clash(spentBy: map<Outpoint, set<VertexId>>, x: VertexId, y: VertexId) {
    x != y && exists o :: o in spentBy && x in spentBy[o] && y in spentBy[o]
  }

  /** `conflict_with` is exactly "spends a common output". */
  ghost predicate ConflictsExact(spentBy: map<Outpoint, set<VertexId>>, conflictWith: Marks) {
    forall x, y :: y in At(conflictWith, x) <==> Clash(spentBy, x, y)
  }

  // ----- voidance -----

  /** A voided transaction with a conflict carries its own hash, except those in `exempt`. */
  ghost predicate OwnHash(conflictWith: Marks, voidedBy: Marks, exempt: set<VertexId>) {
    forall x :: x !in exempt && At(voidedBy, x) != {} && At(conflictWith, x) != {} ==> x in At(voidedBy, x)
  }

  /** Of two conflicting transactions at least one is voided. */
  ghost predicate NoDoubleSpend(conflictWith: Marks, voidedBy: Marks) {
    forall x, y :: y in At(conflictWith, x) ==> At(voidedBy, x) != {} || At(voidedBy, y) != {}
  }

  /** A transaction is voided only by transactions in its past that have a conflict. */
  ghost predicate Justified(dag: Store, conflictWith: Marks, voidedBy: Marks)
    requires WellFormed(dag)
  {
    forall x, h {:trigger h in At(voidedBy, x)} ::
      h in At(voidedBy, x) ==> IsTx(dag, x) && h in TxReach(dag, x) && At(conflictWith, h) != {}
  }

  ghost predicate Sound(dag: Store, conflictWith: Marks, voidedBy: Marks, exempt: set<VertexId>)
    requires WellFormed(dag)
  {
    && OwnHash(conflictWith, voidedBy, exempt)
    && NoDoubleSpend(conflictWith, voidedBy)
    && Justified(dag, conflictWith, voidedBy)
  }

  lemma {:induction false} CarrierFacts(dag: Store, conflictWith: Marks, voidedBy: Marks, exempt: set<VertexId>,
                                        x: VertexId, h: VertexId)
    requires WellFormed(dag) && Sound(dag, conflictWith, voidedBy, exempt) && h in At(voidedBy, x)
    ensures IsTx(dag, x) && h in TxReach(dag, x) && At(conflictWith, h) != {}
  {
  }

  /** What voids a transaction voids everything that verifies it or spends from it. */
  ghost predicate Monotone(dag: Store, voidedBy: Marks) {
    forall x, d :: IsTx(dag, x) && d in TxDeps(dag, x) ==> At(voidedBy, d) <= At(voidedBy, x)
  }

  /** Every voiding hash is on its own transaction. */
  ghost predicate Rooted(voidedBy: Marks) {
    forall x, h :: h in At(voidedBy, x) ==> h in At(voidedBy, h)
  }

  /** A hash goes on from a transaction to everything that verifies it or spends from it. */
  ghost predicate UpClosed(dag: Store, voidedBy: Marks, h: VertexId) {
    forall x, d :: IsTx(dag, x) && d in TxDeps(dag, x) && h in At(voidedBy, d) ==> h in At(voidedBy, x)
  }

  ghost predicate RootedAt(voidedBy: Marks, h: VertexId) {
    forall x :: h in At(voidedBy, x) ==> h in At(voidedBy, h)
  }

  /** The subset law while the hashes of `spreading` are still being put on their descendants. */
  ghost predicate Law(dag: Store, voidedBy: Marks, spreading: set<VertexId>) {
    && (forall h :: h !in spreading ==> UpClosed(dag, voidedBy, h) && RootedAt(voidedBy, h))
    && forall h :: h in spreading ==> h in At(voidedBy, h)
  }

  lemma {:induction false} LawIsMonotone(dag: Store, voidedBy: Marks)
    ensures Law(dag, voidedBy, {}) <==> Monotone(dag, voidedBy) && Rooted(voidedBy)
  {
    hide Deps, TxDeps;
    if Law(dag, voidedBy, {}) {
      forall x, d | IsTx(dag, x) && d in TxDeps(dag, x)
        ensures At(voidedBy, d) <= At(voidedBy, x)
      {
        forall h | h in At(voidedBy, d)
          ensures h in At(voidedBy, x)
        {
          assert UpClosed(dag, voidedBy, h);
        }
      }
      forall x, h | h in At(voidedBy, x)
        ensures h in At(voidedBy, h)
      {
        assert RootedAt(voidedBy, h);
      }
    }
  }

  /** The hashes of `s` are where they were. */
  ghost predicate KeptFor(s: set<VertexId>, before: Marks, after: Marks) {
    forall h, x :: h in s ==> (h in At(after, x) <==> h in At(before, x))
  }

  /** The law is kept, and the hashes still spreading are not touched. */
  ghost predicate LawKept(dag: Store, before: Marks, after: Marks, spreading: set<VertexId>) {
    Law(dag, before, spreading) ==> Law(dag, after, spreading) && KeptFor(spreading, before, after)
  }

  lemma {:induction false} LawKeptTransitive(dag: Store, a: Marks, b: Marks, c: Marks, spreading: set<VertexId>)
    requires LawKept(dag, a, b, spreading) && LawKept(dag, b, c, spreading)
    ensures LawKept(dag, a, c, spreading)
  {
    hide Law;
  }

  lemma {:induction false} LawKeptSame(dag: Store, a: Marks, spreading: set<VertexId>)
    ensures LawKept(dag, a, a, spreading)
  {
    hide Law;
  }

  // ----- descendants -----

  /** The vertices that verify `v` or spend from it. */
  ghost function Forward(dag: Store, v: VertexId): set<VertexId> {
    set c | c in dag && v in Deps(dag, c)
  }

  ghost function Descendants(dag: Store, v: VertexId): set<VertexId>
    requires WellFormed(dag)
  {
    set y | y in dag && IsTx(dag, y) && v in TxReach(dag, y)
  }

  /** The neighbours the walk takes from the metadata: children and spenders. */
  function Neighbors(dag: Store, spentBy: map<Outpoint, set<VertexId>>, v: VertexId): set<VertexId> {
    (set c | c in dag && v in dag[c].parents) +
    (set o, c | o in spentBy && o.txId == v && c in spentBy[o] :: c)
  }

  lemma {:induction false} NeighborsAreForward(dag: Store, spentBy: map<Outpoint, set<VertexId>>, v: VertexId)
    requires WellFormed(dag) && FullySpent(dag, spentBy)
    ensures Neighbors(dag, spentBy, v) == Forward(dag, v)
  {
    forall c
      ensures c in Neighbors(dag, spentBy, v) <==> c in Forward(dag, v)
    {
      if c in Neighbors(dag, spentBy, v) {
        if c in dag && v in dag[c].parents {
        } else {
          var o :| o in spentBy && o.txId == v && c in spentBy[o];
          assert Spends(dag, c, o);
        }
      } else if c in dag && v in Deps(dag, c) {
        var i :| 0 <= i < |dag[c].inputs| && dag[c].inputs[i].txId == v;
        var o := dag[c].inputs[i];
        assert Shaped(dag, c);
        assert Spends(dag, c, o);
      }
    }
  }

  // ----- the walk towards newer transactions, in timestamp order -----

  /** `visited` was taken from the queue and `expanded`, a part of it, had its neighbours queued. */
  ghost predicate ForwardWalk(dag: Store, root: VertexId, visited: set<VertexId>, expanded: set<VertexId>,
                              pending: set<VertexId>)
    requires WellFormed(dag)
  {
    && IsTx(dag, root) && visited !! pending && expanded <= visited
    && visited <= dag.Keys && pending <= dag.Keys
    && (forall y :: y in visited + pending && IsTx(dag, y) ==> root in TxReach(dag, y))
    && (forall v, y :: v in visited && y in pending ==> dag[v].timestamp <= dag[y].timestamp)
    && (forall v, c :: v in expanded && c in Forward(dag, v) ==> c in visited + pending)
    && (if visited == {} then pending == {root} else root in visited)
  }

  lemma {:induction false} ForwardStart(dag: Store, root: VertexId)
    requires WellFormed(dag) && IsTx(dag, root)
    ensures ForwardWalk(dag, root, {}, {}, {root})
  {
  }

  predicate Oldest(dag: Store, pending: set<VertexId>, x: VertexId) {
    x in pending && x in dag && forall y :: y in pending && y in dag ==> dag[x].timestamp <= dag[y].timestamp
  }

  lemma {:induction false} OldestExists(dag: Store, pending: set<VertexId>)
    requires pending != {} && pending <= dag.Keys
    ensures exists x :: x in pending && Oldest(dag, pending, x)
    decreases |pending|
  {
    var y :| y in pending;
    if pending == {y} {
      assert Oldest(dag, pending, y);
    } else {
      var rest := pending - {y};
      OldestExists(dag, rest);
      var x :| x in rest && Oldest(dag, rest, x);
      assert Oldest(dag, pending, if dag[x].timestamp <= dag[y].timestamp then x else y);
    }
  }

  /** Taking the oldest pending vertex, and queueing its neighbours unless they are skipped. */
  lemma {:induction false} ForwardStep(dag: Store, root: VertexId, visited: set<VertexId>, expanded: set<VertexId>,
                                       pending: set<VertexId>, x: VertexId)
    requires WellFormed(dag) && ForwardWalk(dag, root, visited, expanded, pending) && Oldest(dag, pending, x)
    ensures ForwardWalk(dag, root, visited + {x}, expanded, pending - {x})
    ensures IsTx(dag, x) ==>
              ForwardWalk(dag, root, visited + {x}, expanded + {x}, pending - {x} + Forward(dag, x))
  {
    hide WellFormed, TxReach, Deps, Forward;
    if IsTx(dag, x) {
      var pending' := pending - {x} + Forward(dag, x);
      forall c | c in Forward(dag, x)
        ensures c in dag && dag[x].timestamp < dag[c].timestamp
        ensures IsTx(dag, c) ==> root in TxReach(dag, c)
      {
        ForwardFacts(dag, root, x, c);
      }
      assert visited + {x} !! pending';
      forall v, c | v in expanded + {x} && c in Forward(dag, v)
        ensures c in visited + {x} + pending'
      {
        assert v in expanded ==> c in visited + pending;
      }
      assert (visited + {x}) * {root} == {root};
    }
  }

  lemma {:induction false} ForwardFacts(dag: Store, root: VertexId, x: VertexId, c: VertexId)
    requires WellFormed(dag) && IsTx(dag, x) && root in TxReach(dag, x) && c in Forward(dag, x)
    ensures c in dag && dag[x].timestamp < dag[c].timestamp
    ensures IsTx(dag, c) ==> root in TxReach(dag, c)
  {
    hide WellFormed, TxReach;
    DepsOlder(dag, c);
    if IsTx(dag, c) {
      assert x in TxDeps(dag, c);
      TxReachStep(dag, c, x);
    }
  }

  /** With nothing pending and every visited transaction expanded, all descendants were visited. */
  lemma {:induction false} ForwardDone(dag: Store, root: VertexId, visited: set<VertexId>, expanded: set<VertexId>)
    requires WellFormed(dag) && ForwardWalk(dag, root, visited, expanded, {})
    requires forall v :: v in visited && IsTx(dag, v) ==> v in expanded
    ensures Descendants(dag, root) <= visited
    ensures forall v :: v in visited && IsTx(dag, v) ==> v in Descendants(dag, root)
  {
    forall y | y in Descendants(dag, root)
      ensures y in visited
    {
      ReachedFrom(dag, root, visited, expanded, y);
    }
  }

  lemma {:induction false} ReachedFrom(dag: Store, root: VertexId, visited: set<VertexId>, expanded: set<VertexId>,
                                       y: VertexId)
    requires WellFormed(dag) && ForwardWalk(dag, root, visited, expanded, {})
    requires forall v :: v in visited && IsTx(dag, v) ==> v in expanded
    requires IsTx(dag, y) && root in TxReach(dag, y)
    ensures y in visited
    decreases dag[y].timestamp
  {
    hide WellFormed, TxReach;
    if y != root {
      var d := ReachVia(dag, root, y);
      ReachedFrom(dag, root, visited, expanded, d);
      assert d in expanded && y in Forward(dag, d);
      assert y in visited + {};
    }
  }

  /** A path down from `y` starts with one of its dependencies. */
  lemma {:induction false} ReachVia(dag: Store, root: VertexId, y: VertexId) returns (d: VertexId)
    requires WellFormed(dag) && IsTx(dag, y) && root in TxReach(dag, y) && root != y
    ensures IsTx(dag, d) && d in TxDeps(dag, y) && d in Deps(dag, y) && dag[d].timestamp < dag[y].timestamp
    ensures root in TxReach(dag, d)
  {
    hide WellFormed, Deps;
    d :| d in TxDeps(dag, y) && Older(dag, d, y) && root in TxReach(dag, d);
  }

  // ----- single changes of `voided_by` -----

  /** `after` is `before` with `h` added on `s`. */
  ghost predicate Spread(before: Marks, s: set<VertexId>, h: VertexId, after: Marks) {
    forall x :: At(after, x) == At(before, x) + if x in s then {h} else {}
  }

  /** `after` is `before` with `h` removed on `s`. */
  ghost predicate Withdrawn(before: Marks, s: set<VertexId>, h: VertexId, after: Marks) {
    forall x :: At(after, x) == if x in s then At(before, x) - {h} else At(before, x)
  }

  lemma {:induction false} AddOne(dag: Store, conflictWith: Marks, voidedBy: Marks, exempt: set<VertexId>,
                                  x: VertexId, h: VertexId)
    requires WellFormed(dag) && Sound(dag, conflictWith, voidedBy, exempt)
    requires IsTx(dag, x) && h in TxReach(dag, x) && At(conflictWith, h) != {}
    ensures Sound(dag, conflictWith, voidedBy[x := At(voidedBy, x) + {h}], exempt + {x})
    ensures At(conflictWith, x) == {} ==> Sound(dag, conflictWith, voidedBy[x := At(voidedBy, x) + {h}], exempt)
  {
    hide WellFormed, TxReach;
    var after := voidedBy[x := At(voidedBy, x) + {h}];
    assert forall y :: y != x ==> At(after, y) == At(voidedBy, y);
    assert At(after, x) == At(voidedBy, x) + {h};
  }

  /** Removing `h` keeps everything sound, if a transaction that becomes executed has no executed conflict. */
  lemma {:induction false} RemoveOne(dag: Store, conflictWith: Marks, voidedBy: Marks, exempt: set<VertexId>,
                                     x: VertexId, h: VertexId)
    requires WellFormed(dag) && Sound(dag, conflictWith, voidedBy, exempt)
    requires x == h ==> At(voidedBy, x) == {x}
    requires At(voidedBy, x) - {h} == {} ==>
               forall y :: y in At(conflictWith, x) ==> At(voidedBy[x := At(voidedBy, x) - {h}], y) != {}
    requires forall y, z :: z in At(conflictWith, y) ==> y in At(conflictWith, z) && y != z
    ensures Sound(dag, conflictWith, voidedBy[x := At(voidedBy, x) - {h}], exempt)
  {
    hide WellFormed, TxReach;
    var after := voidedBy[x := At(voidedBy, x) - {h}];
    assert forall y :: y != x ==> At(after, y) == At(voidedBy, y);
    assert At(after, x) == At(voidedBy, x) - {h};
  }

  lemma {:induction false} ConflictsSymmetric(spentBy: map<Outpoint, set<VertexId>>, conflictWith: Marks)
    requires ConflictsExact(spentBy, conflictWith)
    ensures forall y, z :: z in At(conflictWith, y) ==> y in At(conflictWith, z) && y != z
  {
    forall y, z | z in At(conflictWith, y)
      ensures y in At(conflictWith, z) && y != z
    {
      assert Clash(spentBy, y, z);
      assert Clash(spentBy, z, y);
    }
  }

  /** Nothing has to be decided again when `tx` is voided: every proper descendant with a conflict
      carries its own hash, no block confirms a descendant, and none of them carries the hash yet. */
  ghost predicate Quiet(dag: Store, conflictWith: Marks, voidedBy: Marks, tx: VertexId)
    requires WellFormed(dag)
  {
    && IsTx(dag, tx) && At(conflictWith, tx) != {}
    && (forall y :: y in Descendants(dag, tx) ==> tx !in At(voidedBy, y))
    && (forall y :: y in Descendants(dag, tx) && y != tx && At(conflictWith, y) != {} ==> y in At(voidedBy, y))
    && (forall v, c :: v in Descendants(dag, tx) && c in Forward(dag, v) ==> IsTx(dag, c))
  }

  /** A hash that goes on from each carrier is on all descendants of a carrier. */
  lemma {:induction false} CarriedForward(dag: Store, voidedBy: Marks, root: VertexId, h: VertexId, y: VertexId)
    requires WellFormed(dag) && UpClosed(dag, voidedBy, h) && IsTx(dag, root) && h in At(voidedBy, root)
    requires IsTx(dag, y) && root in TxReach(dag, y)
    ensures h in At(voidedBy, y)
    decreases dag[y].timestamp
  {
    hide WellFormed, TxReach, Deps;
    if y != root {
      var d := ReachVia(dag, root, y);
      CarriedForward(dag, voidedBy, root, h, d);
      assert h in At(voidedBy, d);
    }
  }

  lemma {:induction false} MonotoneUp(dag: Store, voidedBy: Marks, h: VertexId)
    requires Monotone(dag, voidedBy)
    ensures UpClosed(dag, voidedBy, h)
  {
  }

  lemma {:induction false} WithdrawOne(before: Marks, s: set<VertexId>, h: VertexId, mid: Marks, x: VertexId)
    requires Withdrawn(before, s, h, mid) && x !in s
    ensures Withdrawn(before, s + {x}, h, mid[x := At(mid, x) - {h}])
  {
  }

  lemma {:induction false} SpreadOne(before: Marks, s: set<VertexId>, h: VertexId, mid: Marks, x: VertexId)
    requires Spread(before, s, h, mid)
    ensures Spread(before, s + {x}, h, mid[x := At(mid, x) + {h}])
  {
  }

  /** A transaction that becomes executed had no conflict, unless it is the root itself. */
  lemma {:induction false} BecomesExecuted(conflictWith: Marks, before: Marks, s: set<VertexId>, mid: Marks,
                                           x: VertexId, h: VertexId)
    requires OwnHash(conflictWith, before, {}) && Withdrawn(before, s, h, mid)
    requires x != h && x !in s && At(mid, x) - {h} == {} && h in At(mid, x)
    ensures At(conflictWith, x) == {}
  {
    assert At(mid, x) == At(before, x) == {h};
    assert At(conflictWith, x) != {} ==> x in At(before, x);
  }

  /** Voiding a transaction by its own hash, everywhere above it, keeps the markings monotone and rooted. */
  lemma {:induction false} SpreadKeeps(dag: Store, before: Marks, h: VertexId, after: Marks)
    requires WellFormed(dag) && IsTx(dag, h)
    requires Spread(before, Descendants(dag, h), h, after)
    ensures Monotone(dag, before) ==> Monotone(dag, after)
    ensures Rooted(before) ==> Rooted(after)
  {
    hide WellFormed, TxReach, Deps;
    if Monotone(dag, before) {
      forall x, d | IsTx(dag, x) && d in TxDeps(dag, x)
        ensures At(after, d) <= At(after, x)
      {
        assert At(before, d) <= At(before, x);
        if d in Descendants(dag, h) {
          TxReachStep(dag, x, d);
        }
      }
    }
    SelfDescendant(dag, h);
  }

  lemma {:induction false} NotAbove(dag: Store, v: VertexId, x: VertexId, d: VertexId)
    requires Forward(dag, v) == {} && x in dag && d in Deps(dag, x)
    ensures d != v
  {
    assert d == v ==> x in Forward(dag, v);
  }

  lemma {:induction false} SelfDescendant(dag: Store, h: VertexId)
    requires WellFormed(dag) && IsTx(dag, h)
    ensures h in Descendants(dag, h)
  {
  }

  /** Withdrawing a hash that was spread over transactions that did not carry it restores them. */
  lemma {:induction false} SpreadThenWithdraw(before: Marks, s: set<VertexId>, h: VertexId, mid: Marks, after: Marks)
    requires Spread(before, s, h, mid) && Withdrawn(mid, s, h, after)
    requires forall x :: h !in At(before, x)
    ensures forall x :: At(after, x) == At(before, x)
  {
  }

  // ----- the walk that withdraws a hash -----

  ghost predicate Removing(dag: Store, conflictWith: Marks, before: Marks, exempt: set<VertexId>, tx: VertexId,
                           visited: set<VertexId>, expanded: set<VertexId>, pending: set<VertexId>,
                           after: Marks, checkList: set<VertexId>)
    requires WellFormed(dag)
  {
    && ForwardWalk(dag, tx, visited, expanded, pending)
    && Sound(dag, conflictWith, after, exempt)
    && (visited == {} ==> after == before && At(before, tx) == {tx})
    && Withdrawn(before, expanded, tx, after)
    && checkList == (set y | y in expanded && At(after, y) == {y})
    && (UpClosed(dag, before, tx) ==> forall v :: v in visited && IsTx(dag, v) ==> v in expanded)
  }

  lemma {:induction false} RemoveStart(dag: Store, conflictWith: Marks, before: Marks, exempt: set<VertexId>,
                                       tx: VertexId)
    requires WellFormed(dag) && IsTx(dag, tx) && Sound(dag, conflictWith, before, exempt) && At(before, tx) == {tx}
    ensures Removing(dag, conflictWith, before, exempt, tx, {}, {}, {tx}, before, {})
  {
    hide WellFormed, TxReach, Deps, Forward, UpClosed, Sound;
    ForwardStart(dag, tx);
  }

  lemma {:induction false} RemoveFacts(dag: Store, conflictWith: Marks, before: Marks, exempt: set<VertexId>,
                                       tx: VertexId,
                                       visited: set<VertexId>, expanded: set<VertexId>, pending: set<VertexId>,
                                       after: Marks, checkList: set<VertexId>)
    requires WellFormed(dag) && pending != {}
    requires Removing(dag, conflictWith, before, exempt, tx, visited, expanded, pending, after, checkList)
    ensures exists x :: x in pending && Oldest(dag, pending, x)
    ensures visited !! pending && pending <= dag.Keys
  {
    hide WellFormed, TxReach, Deps, Forward, UpClosed, Sound;
    OldestExists(dag, pending);
  }

  lemma {:induction false} RemoveEnd(dag: Store, conflictWith: Marks, before: Marks, exempt: set<VertexId>,
                                     tx: VertexId,
                                     visited: set<VertexId>, expanded: set<VertexId>, after: Marks, checkList: set<VertexId>)
    requires WellFormed(dag)
    requires Removing(dag, conflictWith, before, exempt, tx, visited, expanded, {}, after, checkList)
    ensures Sound(dag, conflictWith, after, exempt)
    ensures forall x :: At(after, x) <= At(before, x)
  {
    hide WellFormed, TxReach, Deps, Forward, UpClosed, Sound, ForwardWalk;
  }

  lemma {:induction false} OwnHashOf(dag: Store, conflictWith: Marks, voidedBy: Marks, exempt: set<VertexId>)
    requires WellFormed(dag) && Sound(dag, conflictWith, voidedBy, exempt)
    ensures OwnHash(conflictWith, voidedBy, exempt)
  {
  }

  lemma {:induction false} RemoveSkip(dag: Store, conflictWith: Marks, before: Marks, exempt: set<VertexId>,
                                      tx: VertexId,
                                      visited: set<VertexId>, expanded: set<VertexId>, pending: set<VertexId>,
                                      after: Marks, checkList: set<VertexId>, x: VertexId)
    requires WellFormed(dag) && Oldest(dag, pending, x) && tx !in At(after, x)
    requires Removing(dag, conflictWith, before, exempt, tx, visited, expanded, pending, after, checkList)
    requires tx in At(before, tx)
    ensures Removing(dag, conflictWith, before, exempt, tx, visited + {x}, expanded, pending - {x}, after, checkList)
  {
    hide WellFormed, TxReach, Deps, Forward, UpClosed, Sound;
    ForwardStep(dag, tx, visited, expanded, pending, x);
    if UpClosed(dag, before, tx) && IsTx(dag, x) {
      CarriedForward(dag, before, tx, tx, x);
    }
  }

  lemma {:induction false} RemoveTake(dag: Store, conflictWith: Marks, before: Marks, exempt: set<VertexId>,
                                      tx: VertexId,
                                      visited: set<VertexId>, expanded: set<VertexId>, pending: set<VertexId>,
                                      after: Marks, checkList: set<VertexId>, x: VertexId)
    requires WellFormed(dag) && Oldest(dag, pending, x) && tx in At(after, x)
    requires Removing(dag, conflictWith, before, exempt, tx, visited, expanded, pending, after, checkList)
    requires forall y, z :: z in At(conflictWith, y) ==> y in At(conflictWith, z) && y != z
    requires At(after, x) - {tx} == {} ==>
               forall y :: y in At(conflictWith, x) ==> At(after[x := At(after, x) - {tx}], y) != {}
    ensures Removing(dag, conflictWith, before, exempt, tx, visited + {x}, expanded + {x}, pending - {x} + Forward(dag, x),
                     after[x := At(after, x) - {tx}], if At(after, x) - {tx} == {x} then checkList + {x} else checkList)
  {
    hide WellFormed, TxReach, Deps, Forward, UpClosed, Sound;
    CarrierFacts(dag, conflictWith, after, exempt, x, tx);
    ForwardStep(dag, tx, visited, expanded, pending, x);
    RemoveOne(dag, conflictWith, after, exempt, x, tx);
    WithdrawOne(before, expanded, tx, after, x);
  }

  /** From a state without exemptions the assertion holds if the root's conflicts are all voided. */
  lemma {:induction false} RemoveValid(dag: Store, conflictWith: Marks, before: Marks, tx: VertexId,
                                       visited: set<VertexId>, expanded: set<VertexId>, pending: set<VertexId>,
                                       after: Marks, checkList: set<VertexId>, x: VertexId)
    requires WellFormed(dag) && x in pending && tx in At(after, x)
    requires Removing(dag, conflictWith, before, {}, tx, visited, expanded, pending, after, checkList)
    requires OwnHash(conflictWith, before, {})
    requires forall y, z :: z in At(conflictWith, y) ==> y in At(conflictWith, z) && y != z
    requires forall h :: h in At(conflictWith, tx) ==> At(before, h) != {}
    ensures At(after, x) - {tx} == {} ==>
              forall y :: y in At(conflictWith, x) ==> At(after[x := At(after, x) - {tx}], y) != {}
  {
    hide WellFormed, TxReach, Deps, Forward, UpClosed, Sound;
    if At(after, x) - {tx} == {} && x != tx {
      BecomesExecuted(conflictWith, before, expanded, after, x, tx);
    }
  }

  lemma {:induction false} RemoveWalkDone(dag: Store, conflictWith: Marks, before: Marks, exempt: set<VertexId>,
                                          tx: VertexId,
                                          visited: set<VertexId>, expanded: set<VertexId>, after: Marks, checkList: set<VertexId>)
    requires WellFormed(dag) && Sound(dag, conflictWith, before, exempt)
    requires Removing(dag, conflictWith, before, exempt, tx, visited, expanded, {}, after, checkList)
    requires UpClosed(dag, before, tx)
    ensures Withdrawn(before, Descendants(dag, tx), tx, after)
    ensures forall x :: tx !in At(after, x)
    ensures checkList == set y | y in Descendants(dag, tx) && At(after, y) == {y}
  {
    hide WellFormed, TxReach, Deps, Forward, UpClosed;
    ForwardDone(dag, tx, visited, expanded);
    forall x: VertexId
      ensures At(after, x) == if x in Descendants(dag, tx) then At(before, x) - {tx} else At(before, x)
      ensures tx !in At(after, x)
      ensures x in Descendants(dag, tx) ==> x in expanded
      ensures At(after, x) == {x} && x in expanded ==> x in Descendants(dag, tx)
    {
      if tx in At(before, x) {
        CarrierFacts(dag, conflictWith, before, exempt, x, tx);
      }
      if x in expanded && At(after, x) == {x} {
        CarrierFacts(dag, conflictWith, before, exempt, x, x);
      }
    }
  }

  /** Withdrawing a hash everywhere keeps the law for the others. */
  lemma {:induction false} WithdrawLaw(dag: Store, before: Marks, h: VertexId, after: Marks, spreading: set<VertexId>)
    requires WellFormed(dag) && Withdrawn(before, Descendants(dag, h), h, after) && h !in spreading
    requires forall x :: h !in At(after, x)
    ensures LawKept(dag, before, after, spreading)
  {
    hide WellFormed, TxReach, Deps, Descendants;
    assert forall g, x :: g != h ==> (g in At(after, x) <==> g in At(before, x));
    if Law(dag, before, spreading) {
      forall g | g !in spreading
        ensures UpClosed(dag, after, g) && RootedAt(after, g)
      {
        assert UpClosed(dag, before, g) && RootedAt(before, g);
      }
    }
  }

  // ----- the walk that spreads a hash -----

  ghost predicate Adding(dag: Store, conflictWith: Marks, before: Marks, exempt: set<VertexId>, tx: VertexId,
                         visited: set<VertexId>, pending: set<VertexId>, after: Marks, checkList: set<VertexId>)
    requires WellFormed(dag)
  {
    && ForwardWalk(dag, tx, visited, visited, pending)
    && At(conflictWith, tx) != {}
    && Sound(dag, conflictWith, after, if visited == {} then exempt + {tx} else exempt)
    && (visited == {} ==> after == before)
    && (Quiet(dag, conflictWith, before, tx) ==>
          && Spread(before, visited, tx, after) && checkList == {}
          && (forall y :: y in visited + pending ==> y in Descendants(dag, tx)))
  }

  lemma {:induction false} NotQuiet(dag: Store, conflictWith: Marks, voidedBy: Marks, tx: VertexId)
    requires WellFormed(dag) && tx in At(voidedBy, tx)
    ensures !Quiet(dag, conflictWith, voidedBy, tx)
  {
  }

  lemma {:induction false} AddStart(dag: Store, conflictWith: Marks, before: Marks, exempt: set<VertexId>, tx: VertexId)
    requires WellFormed(dag) && IsTx(dag, tx) && At(conflictWith, tx) != {}
    requires Sound(dag, conflictWith, before, exempt + {tx})
    ensures Adding(dag, conflictWith, before, exempt, tx, {}, {tx}, before, {})
  {
    hide WellFormed, TxReach, Deps, Forward, Monotone, Sound, Quiet;
    ForwardStart(dag, tx);
    SelfDescendant(dag, tx);
  }

  lemma {:induction false} AddFacts(dag: Store, conflictWith: Marks, before: Marks, exempt: set<VertexId>, tx: VertexId,
                                    visited: set<VertexId>, pending: set<VertexId>, after: Marks, checkList: set<VertexId>)
    requires WellFormed(dag) && pending != {}
    requires Adding(dag, conflictWith, before, exempt, tx, visited, pending, after, checkList)
    ensures exists x :: x in pending && Oldest(dag, pending, x)
    ensures visited !! pending && pending <= dag.Keys
  {
    hide WellFormed, TxReach, Deps, Forward, Monotone, Sound, Quiet;
    OldestExists(dag, pending);
  }

  /** Just after the hash was added on `x`. */
  lemma {:induction false} AddMark(dag: Store, conflictWith: Marks, before: Marks, exempt: set<VertexId>, tx: VertexId,
                                   visited: set<VertexId>, pending: set<VertexId>, after: Marks, checkList: set<VertexId>,
                                   x: VertexId)
    requires WellFormed(dag) && x in pending && IsTx(dag, x)
    requires Adding(dag, conflictWith, before, exempt, tx, visited, pending, after, checkList)
    ensures Sound(dag, conflictWith, after[x := At(after, x) + {tx}], exempt + {x})
    ensures At(conflictWith, x) == {} ==> Sound(dag, conflictWith, after[x := At(after, x) + {tx}], exempt)
  {
    hide WellFormed, TxReach, Deps, Forward, Monotone, Sound, Quiet;
    assert exempt + {tx} + {tx} == exempt + {tx};
    AddOne(dag, conflictWith, after, if visited == {} then exempt + {tx} else exempt, x, tx);
  }

  /** In the quiet case the walk meets no block, no carrier, and nothing to decide. */
  lemma {:induction false} AddQuiet(dag: Store, conflictWith: Marks, before: Marks, exempt: set<VertexId>, tx: VertexId,
                                    visited: set<VertexId>, pending: set<VertexId>, after: Marks, checkList: set<VertexId>,
                                    x: VertexId)
    requires WellFormed(dag) && x in pending && Quiet(dag, conflictWith, before, tx)
    requires Adding(dag, conflictWith, before, exempt, tx, visited, pending, after, checkList)
    ensures IsTx(dag, x) && tx !in At(after, x)
    ensures At(conflictWith, x) != {} ==> x == tx || (At(after, x) != {} && x in At(after, x))
  {
    hide WellFormed, TxReach, Deps, Forward, Monotone, Sound;
    assert x in Descendants(dag, tx);
    assert tx !in At(before, x);
  }

  lemma {:induction false} AddTake(dag: Store, conflictWith: Marks, before: Marks, exempt: set<VertexId>, tx: VertexId,
                                   visited: set<VertexId>, pending: set<VertexId>, after: Marks, checkList: set<VertexId>,
                                   x: VertexId, after': Marks)
    requires WellFormed(dag) && Oldest(dag, pending, x) && IsTx(dag, x)
    requires Adding(dag, conflictWith, before, exempt, tx, visited, pending, after, checkList)
    requires Sound(dag, conflictWith, after', exempt)
    requires Quiet(dag, conflictWith, before, tx) ==> after' == after[x := At(after, x) + {tx}]
    ensures Adding(dag, conflictWith, before, exempt, tx, visited + {x}, pending - {x} + Forward(dag, x), after',
                   if x != tx && At(conflictWith, x) != {} && At(after, x) == {} then checkList + At(conflictWith, x) else checkList)
  {
    hide WellFormed, TxReach, Deps, Monotone, Sound, Forward;
    ForwardStep(dag, tx, visited, visited, pending, x);
    if Quiet(dag, conflictWith, before, tx) {
      AddQuiet(dag, conflictWith, before, exempt, tx, visited, pending, after, checkList, x);
      SpreadOne(before, visited, tx, after, x);
      forall c | c in Forward(dag, x)
        ensures c in Descendants(dag, tx)
      {
        DescendantStep(dag, tx, x, c);
      }
    }
  }

  lemma {:induction false} DescendantStep(dag: Store, tx: VertexId, x: VertexId, c: VertexId)
    requires WellFormed(dag) && x in Descendants(dag, tx) && c in Forward(dag, x) && IsTx(dag, c)
    ensures c in Descendants(dag, tx)
  {
    assert x in TxDeps(dag, c);
    TxReachStep(dag, c, x);
  }

  lemma {:induction false} AddDone(dag: Store, conflictWith: Marks, before: Marks, exempt: set<VertexId>, tx: VertexId,
                                   visited: set<VertexId>, after: Marks, checkList: set<VertexId>)
    requires WellFormed(dag)
    requires Adding(dag, conflictWith, before, exempt, tx, visited, {}, after, checkList)
    ensures Sound(dag, conflictWith, after, exempt)
    ensures Quiet(dag, conflictWith, before, tx) ==> Spread(before, Descendants(dag, tx), tx, after) && checkList == {}
  {
    hide WellFormed, TxReach, Deps, Monotone, Sound, Forward, Quiet;
    ForwardDone(dag, tx, visited, visited);
    if Quiet(dag, conflictWith, before, tx) {
      assert visited == Descendants(dag, tx);
    }
  }

  // ----- the subset law during the walk that spreads a hash -----

  /** Exactly the visited transactions carry the hash, and the law holds for the hashes not spreading. */
  ghost predicate Spreading(dag: Store, before: Marks, spreading: set<VertexId>, tx: VertexId, visited: set<VertexId>,
                            after: Marks)
  {
    && tx !in spreading
    && (forall x :: tx in At(after, x) <==> x in visited)
    && KeptFor(spreading, before, after)
    && if visited == {} then Law(dag, after, spreading) else Law(dag, after, spreading + {tx})
  }

  lemma {:induction false} SpreadingStart(dag: Store, before: Marks, spreading: set<VertexId>, tx: VertexId)
    requires Law(dag, before, spreading) && tx !in At(before, tx)
    ensures Spreading(dag, before, spreading, tx, {}, before)
  {
    assert tx !in spreading;
    assert RootedAt(before, tx);
  }

  lemma {:induction false} SpreadingMark(dag: Store, before: Marks, spreading: set<VertexId>, tx: VertexId,
                                         visited: set<VertexId>, after: Marks, x: VertexId)
    requires Spreading(dag, before, spreading, tx, visited, after) && (x == tx || tx in visited)
    ensures Spreading(dag, before, spreading, tx, visited + {x}, after[x := At(after, x) + {tx}])
  {
    hide Deps, TxDeps;
    var after' := after[x := At(after, x) + {tx}];
    assert forall g, y :: g != tx ==> (g in At(after', y) <==> g in At(after, y));
    forall g | g !in spreading + {tx}
      ensures UpClosed(dag, after', g) && RootedAt(after', g)
    {
      assert UpClosed(dag, after, g) && RootedAt(after, g);
    }
    assert tx in At(after', tx);
  }

  lemma {:induction false} SpreadingNested(dag: Store, before: Marks, spreading: set<VertexId>, tx: VertexId,
                                           visited: set<VertexId>, after: Marks, after': Marks)
    requires Spreading(dag, before, spreading, tx, visited, after) && visited != {}
    requires LawKept(dag, after, after', spreading + {tx})
    ensures Spreading(dag, before, spreading, tx, visited, after')
  {
    hide Law;
    assert tx in spreading + {tx};
  }

  /** When nothing is left to visit, the hash is on everything it should be. */
  lemma {:induction false} SpreadingDone(dag: Store, before: Marks, spreading: set<VertexId>, tx: VertexId,
                                         visited: set<VertexId>, after: Marks)
    requires WellFormed(dag) && Spreading(dag, before, spreading, tx, visited, after) && tx in visited
    requires ForwardWalk(dag, tx, visited, visited, {})
    ensures LawKept(dag, before, after, spreading)
  {
    hide WellFormed, TxReach;
    forall x, d | IsTx(dag, x) && d in TxDeps(dag, x) && tx in At(after, d)
      ensures tx in At(after, x)
    {
      assert d in visited && x in Forward(dag, d);
      assert x in visited + {};
    }
    assert UpClosed(dag, after, tx);
  }

  lemma {:induction false} SpreadLaw(dag: Store, before: Marks, spreading: set<VertexId>, tx: VertexId,
                                     visited: set<VertexId>, after: Marks)
    requires WellFormed(dag) && tx in visited && ForwardWalk(dag, tx, visited, visited, {})
    requires Law(dag, before, spreading) ==> Spreading(dag, before, spreading, tx, visited, after)
    ensures LawKept(dag, before, after, spreading)
  {
    hide WellFormed, Law, Spreading, ForwardWalk;
    if Law(dag, before, spreading) {
      SpreadingDone(dag, before, spreading, tx, visited, after);
    }
  }

  /** Withdrawing a hash that goes on from each carrier keeps the law. */
  lemma {:induction false} RemoveKeepsLaw(dag: Store, before: Marks, tx: VertexId, after: Marks, spreading: set<VertexId>)
    requires WellFormed(dag) && tx !in spreading
    requires UpClosed(dag, before, tx) ==> Withdrawn(before, Descendants(dag, tx), tx, after) && forall x :: tx !in At(after, x)
    ensures LawKept(dag, before, after, spreading)
  {
    hide WellFormed, UpClosed, Descendants, Withdrawn;
    if Law(dag, before, spreading) {
      WithdrawLaw(dag, before, tx, after, spreading);
    }
  }

  lemma {:induction false} LawToMonotone(dag: Store, before: Marks, after: Marks)
    requires LawKept(dag, before, after, {}) && Monotone(dag, before) && Rooted(before)
    ensures Monotone(dag, after) && Rooted(after)
  {
    hide Law, Monotone, Rooted;
    LawIsMonotone(dag, before);
    LawIsMonotone(dag, after);
  }

  lemma {:induction false} WalkOf(dag: Store, conflictWith: Marks, before: Marks, exempt: set<VertexId>, tx: VertexId,
                                  visited: set<VertexId>, pending: set<VertexId>, after: Marks, checkList: set<VertexId>)
    requires WellFormed(dag)
    requires Adding(dag, conflictWith, before, exempt, tx, visited, pending, after, checkList)
    ensures ForwardWalk(dag, tx, visited, visited, pending)
    ensures if visited == {} then pending == {tx} else tx in visited
  {
    hide WellFormed, TxReach, Deps, Forward, Sound, Quiet;
  }

  lemma {:induction false} ConflictIsTx(dag: Store, spentBy: map<Outpoint, set<VertexId>>, conflictWith: Marks,
                                        x: VertexId)
    requires FullySpent(dag, spentBy) && ConflictsExact(spentBy, conflictWith) && At(conflictWith, x) != {}
    ensures IsTx(dag, x)
  {
    var y :| y in At(conflictWith, x);
    assert Clash(spentBy, x, y);
    var o :| o in spentBy && x in spentBy[o] && y in spentBy[o];
    assert Spends(dag, x, o);
  }

  lemma {:induction false} Exempting(dag: Store, conflictWith: Marks, voidedBy: Marks, exempt: set<VertexId>,
                                     x: VertexId)
    requires WellFormed(dag)
    ensures Sound(dag, conflictWith, voidedBy, exempt) ==> Sound(dag, conflictWith, voidedBy, exempt + {x})
    ensures Sound(dag, conflictWith, voidedBy, exempt + {x}) && (At(voidedBy, x) == {} || x in At(voidedBy, x)) ==>
              Sound(dag, conflictWith, voidedBy, exempt)
  {
    hide WellFormed, TxReach;
  }

  /** Without conflicts above `tx`, no transaction is left voided by its own hash alone. */
  lemma {:induction false} NothingToCheck(dag: Store, conflictWith: Marks, after: Marks, exempt: set<VertexId>,
                                          tx: VertexId)
    requires WellFormed(dag) && Sound(dag, conflictWith, after, exempt) && tx !in At(after, tx)
    requires forall y :: y in Descendants(dag, tx) && y != tx ==> At(conflictWith, y) == {}
    ensures (set y | y in Descendants(dag, tx) && At(after, y) == {y}) == {}
  {
    hide WellFormed, TxReach, Deps, Descendants;
    forall y | y in Descendants(dag, tx) && At(after, y) == {y}
      ensures false
    {
      CarrierFacts(dag, conflictWith, after, exempt, y, y);
    }
  }

  // ----- resolving one conflict -----

  /**
   The conflicts of `tx` can be decided without opening any other conflict: `tx` is voided only
   by itself, nothing above it has a conflict, and each conflict that is executed is quiet and
   not below `tx`.
   */
  ghost predicate Decidable(dag: Store, conflictWith: Marks, voidedBy: Marks, tx: VertexId)
    requires WellFormed(dag)
  {
    && IsTx(dag, tx) && At(voidedBy, tx) == {tx} && Monotone(dag, voidedBy) && Rooted(voidedBy)
    && OwnHash(conflictWith, voidedBy, {})
    && (forall y :: y in Descendants(dag, tx) && y != tx ==> At(conflictWith, y) == {})
    && (forall c :: c in At(conflictWith, tx) && At(voidedBy, c) == {} ==>
          Quiet(dag, conflictWith, voidedBy, c) && tx !in Descendants(dag, c))
  }

  /** No voided conflict of `tx` is confirmed. */
  ghost predicate Unconfirmed(conflictWith: Marks, voidedBy: Marks, confirmed: set<VertexId>, tx: VertexId) {
    forall h :: h in At(conflictWith, tx) && At(voidedBy, h) != {} ==> h !in confirmed
  }

  /** The new `tx` has conflicts that can be decided at once: nothing else voids it, and no voided conflict is confirmed. */
  ghost predicate Contested(dag: Store, conflictWith: Marks, voidedBy: Marks, confirmed: set<VertexId>, tx: VertexId)
    requires WellFormed(dag)
  {
    && At(conflictWith, tx) != {} && Decidable(dag, conflictWith, voidedBy, tx) && Inherited(dag, voidedBy, tx) == {}
    && Unconfirmed(conflictWith, voidedBy, confirmed, tx)
  }

  /** `after` is `before` with each hash of `lost` added on that transaction and its descendants. */
  ghost predicate Lost(dag: Store, before: Marks, lost: set<VertexId>, after: Marks)
    requires WellFormed(dag)
  {
    forall x: VertexId :: At(after, x) == At(before, x) + set c | c in lost && x in Descendants(dag, c)
  }

  ghost function Losers(conflictWith: Marks, voidedBy: Marks, tx: VertexId): set<VertexId> {
    set c | c in At(conflictWith, tx) && At(voidedBy, c) == {}
  }

  /** The state while the conflicts of `tx` are being voided; `todo` are still to come. */
  ghost predicate Voiding(dag: Store, conflictWith: Marks, before: Marks, tx: VertexId, todo: set<VertexId>,
                          after: Marks)
    requires WellFormed(dag)
  {
    && todo <= At(conflictWith, tx)
    && Lost(dag, before, Losers(conflictWith, before, tx) - todo, after)
    && Monotone(dag, after) && Rooted(after)
    && OwnHash(conflictWith, after, {})
  }

  lemma {:induction false} VoidingStart(dag: Store, conflictWith: Marks, before: Marks, tx: VertexId)
    requires WellFormed(dag) && Decidable(dag, conflictWith, before, tx)
    ensures Voiding(dag, conflictWith, before, tx, At(conflictWith, tx), before)
  {
    hide WellFormed, Monotone, Descendants, Quiet;
    assert Losers(conflictWith, before, tx) - At(conflictWith, tx) == {};
  }

  /** A conflict that was voided before has its own hash already. */
  lemma {:induction false} VoidingOld(dag: Store, conflictWith: Marks, before: Marks, tx: VertexId, todo: set<VertexId>,
                                      after: Marks, c: VertexId)
    requires WellFormed(dag) && Decidable(dag, conflictWith, before, tx)
    requires Voiding(dag, conflictWith, before, tx, todo, after) && c in todo && At(before, c) != {}
    requires tx in At(conflictWith, c)
    ensures c in At(after, c)
    ensures Voiding(dag, conflictWith, before, tx, todo - {c}, after)
  {
    hide WellFormed, Monotone, Descendants, Quiet;
    assert Losers(conflictWith, before, tx) - (todo - {c}) == Losers(conflictWith, before, tx) - todo;
    assert At(before, c) <= At(after, c);
  }

  lemma {:induction false} VoidingQuiet(dag: Store, conflictWith: Marks, before: Marks, tx: VertexId,
                                        todo: set<VertexId>,
                                        after: Marks, c: VertexId)
    requires WellFormed(dag) && Decidable(dag, conflictWith, before, tx)
    requires Voiding(dag, conflictWith, before, tx, todo, after) && c in todo && At(before, c) == {}
    ensures Quiet(dag, conflictWith, after, c)
  {
    hide WellFormed, Monotone, Forward;
    assert Quiet(dag, conflictWith, before, c);
    forall d | d in Losers(conflictWith, before, tx) - todo
      ensures c !in Descendants(dag, d)
    {
      assert Quiet(dag, conflictWith, before, d);
    }
    assert (set d | d in Losers(conflictWith, before, tx) - todo && c in Descendants(dag, d)) == {};
    assert At(after, c) == {};
    forall y | y in Descendants(dag, c) && y != c && At(conflictWith, y) != {}
      ensures At(after, y) != {}
    {
      assert At(before, y) <= At(after, y);
    }
  }

  lemma {:induction false} VoidingStep(dag: Store, conflictWith: Marks, before: Marks, tx: VertexId,
                                       todo: set<VertexId>,
                                       after: Marks, c: VertexId, after': Marks)
    requires WellFormed(dag) && Decidable(dag, conflictWith, before, tx)
    requires Voiding(dag, conflictWith, before, tx, todo, after) && c in todo && At(before, c) == {}
    requires IsTx(dag, c) && Spread(after, Descendants(dag, c), c, after') && OwnHash(conflictWith, after', {})
    ensures Voiding(dag, conflictWith, before, tx, todo - {c}, after')
  {
    hide WellFormed, Monotone, Forward, Descendants, Quiet;
    SpreadKeeps(dag, after, c, after');
    var lost := Losers(conflictWith, before, tx);
    assert lost - (todo - {c}) == (lost - todo) + {c};
    forall x: VertexId
      ensures At(after', x) == At(before, x) + set d | d in lost - (todo - {c}) && x in Descendants(dag, d)
    {
      assert At(after', x) == At(after, x) + if x in Descendants(dag, c) then {c} else {};
    }
  }

  lemma {:induction false} VoidingMonotone(dag: Store, conflictWith: Marks, before: Marks, tx: VertexId, after: Marks)
    requires WellFormed(dag) && Voiding(dag, conflictWith, before, tx, {}, after)
    ensures Monotone(dag, after)
  {
  }

  lemma {:induction false} VoidingDone(dag: Store, conflictWith: Marks, before: Marks, tx: VertexId, after: Marks)
    requires WellFormed(dag) && Decidable(dag, conflictWith, before, tx)
    requires forall c :: c in At(conflictWith, tx) ==> IsTx(dag, c)
    requires Voiding(dag, conflictWith, before, tx, {}, after)
    ensures Lost(dag, before, Losers(conflictWith, before, tx), after)
    ensures At(after, tx) == {tx}
    ensures forall h :: h in At(conflictWith, tx) ==> At(after, h) != {}
  {
    hide WellFormed, Monotone, Forward, Descendants, Quiet, OwnHash, Rooted, Losers;
    var lost := Losers(conflictWith, before, tx);
    assert lost - {} == lost;
    NotLost(dag, conflictWith, before, tx, after);
    forall h | h in At(conflictWith, tx)
      ensures At(after, h) != {}
    {
      AllVoided(dag, conflictWith, before, tx, after, h);
    }
  }

  lemma {:induction false} NotLost(dag: Store, conflictWith: Marks, before: Marks, tx: VertexId, after: Marks)
    requires WellFormed(dag) && Decidable(dag, conflictWith, before, tx)
    requires Lost(dag, before, Losers(conflictWith, before, tx), after)
    ensures At(after, tx) == {tx}
  {
    hide WellFormed, Monotone, Forward, Descendants, Quiet, OwnHash, Rooted;
    var lost := Losers(conflictWith, before, tx);
    assert forall c :: c in lost ==> tx !in Descendants(dag, c);
    assert (set c | c in lost && tx in Descendants(dag, c)) == {};
  }

  lemma {:induction false} AllVoided(dag: Store, conflictWith: Marks, before: Marks, tx: VertexId, after: Marks,
                                     h: VertexId)
    requires WellFormed(dag) && h in At(conflictWith, tx) && IsTx(dag, h)
    requires Lost(dag, before, Losers(conflictWith, before, tx), after)
    ensures At(after, h) != {}
  {
    hide WellFormed, Forward, Descendants;
    var lost := Losers(conflictWith, before, tx);
    if At(before, h) == {} {
      SelfDescendant(dag, h);
      assert h in (set c | c in lost && h in Descendants(dag, c));
      assert h in At(after, h);
    }
  }

  // ----- giving voided conflicts their own hash -----

  /** The conflicts of `tx` that are voided and do not carry their own hash. */
  ghost function Lacking(conflictWith: Marks, voidedBy: Marks, tx: VertexId): set<VertexId> {
    set h | h in At(conflictWith, tx) && At(voidedBy, h) != {} && h !in At(voidedBy, h)
  }

  /** No voided conflict of `tx` is confirmed, and each that lacks its own hash is quiet. */
  ghost predicate Completable(dag: Store, conflictWith: Marks, voidedBy: Marks, confirmed: set<VertexId>, tx: VertexId)
    requires WellFormed(dag)
  {
    && (forall h :: h in At(conflictWith, tx) && At(voidedBy, h) != {} ==> h !in confirmed)
    && forall h :: h in Lacking(conflictWith, voidedBy, tx) ==> Quiet(dag, conflictWith, voidedBy, h)
  }

  lemma {:induction false} CompleteStart(dag: Store, conflictWith: Marks, voidedBy: Marks, tx: VertexId)
    requires WellFormed(dag)
    ensures Lost(dag, voidedBy, Lacking(conflictWith, voidedBy, tx) - At(conflictWith, tx), voidedBy)
  {
    hide WellFormed, Descendants;
    assert Lacking(conflictWith, voidedBy, tx) - At(conflictWith, tx) == {};
  }

  /** What the next conflict looks like: nothing before it put a hash on it. */
  lemma {:induction false} CompleteStep(dag: Store, conflictWith: Marks, before: Marks, confirmed: set<VertexId>,
                                        tx: VertexId, todo: set<VertexId>, after: Marks, h: VertexId)
    requires WellFormed(dag) && Completable(dag, conflictWith, before, confirmed, tx)
    requires h in todo && todo <= At(conflictWith, tx) && tx in At(conflictWith, h)
    requires Lost(dag, before, Lacking(conflictWith, before, tx) - todo, after)
    ensures At(after, h) != {} ==> h !in confirmed
    ensures At(after, h) != {} && h !in At(after, h) ==>
              h in Lacking(conflictWith, before, tx) && Quiet(dag, conflictWith, after, h)
    ensures At(after, h) == {} || h in At(after, h) ==> Lost(dag, before, Lacking(conflictWith, before, tx) - (todo - {h}), after)
  {
    hide WellFormed, Descendants, Forward;
    var lost := Lacking(conflictWith, before, tx) - todo;
    forall c | c in lost && h in Descendants(dag, c)
      ensures h in At(before, h)
    {
      assert Quiet(dag, conflictWith, before, c);
    }
    assert At(after, h) == At(before, h) + set c | c in lost && h in Descendants(dag, c);
    if h !in At(before, h) {
      assert (set c | c in lost && h in Descendants(dag, c)) == {};
    }
    if h in Lacking(conflictWith, before, tx) {
      assert Quiet(dag, conflictWith, before, h);
      forall y | y in Descendants(dag, h)
        ensures h !in At(after, y) && At(before, y) <= At(after, y)
      {
        assert At(after, y) == At(before, y) + set c | c in lost && y in Descendants(dag, c);
      }
    } else {
      assert Lacking(conflictWith, before, tx) - (todo - {h}) == lost;
    }
  }

  lemma {:induction false} CompleteSpread(dag: Store, conflictWith: Marks, before: Marks, tx: VertexId,
                                          todo: set<VertexId>, after: Marks, h: VertexId, after': Marks)
    requires WellFormed(dag) && h in Lacking(conflictWith, before, tx) && h in todo
    requires Lost(dag, before, Lacking(conflictWith, before, tx) - todo, after)
    requires Spread(after, Descendants(dag, h), h, after')
    ensures Lost(dag, before, Lacking(conflictWith, before, tx) - (todo - {h}), after')
  {
    hide WellFormed, Descendants;
    var lost := Lacking(conflictWith, before, tx);
    assert lost - (todo - {h}) == (lost - todo) + {h};
    forall x: VertexId
      ensures At(after', x) == At(before, x) + set d | d in lost - (todo - {h}) && x in Descendants(dag, d)
    {
      assert At(after', x) == At(after, x) + if x in Descendants(dag, h) then {h} else {};
    }
  }

  // ----- the subset law across arrivals -----

  /** Marking the inputs of the newest transaction touches nothing but itself. */
  lemma {:induction false} MarkedStillBelow(dag: Store, before: Marks, tx: VertexId, after: Marks)
    requires Forward(dag, tx) == {} && forall x :: x != tx ==> At(after, x) == At(before, x)
    requires At(after, tx) == {} || At(after, tx) == {tx}
    requires tx !in At(before, tx) && (forall x :: tx !in At(before, x))
    ensures MonotoneBelow(dag, before, tx) ==> MonotoneBelow(dag, after, tx)
    ensures Rooted(before) ==> Rooted(after)
  {
    if MonotoneBelow(dag, before, tx) {
      forall x, d | x != tx && IsTx(dag, x) && d in TxDeps(dag, x)
        ensures At(after, d) <= At(after, x)
      {
        NotAbove(dag, tx, x, d);
        assert At(before, d) <= At(before, x);
      }
    }
  }

  lemma {:induction false} GrowBelow(dag: Store, id: VertexId, v: Vertex, voidedBy: Marks)
    requires WellFormed(dag) && Monotone(dag, voidedBy) && id !in dag
    ensures MonotoneBelow(dag[id := v], voidedBy, id)
  {
    var dag' := dag[id := v];
    forall x, d | x != id && IsTx(dag', x) && d in TxDeps(dag', x)
      ensures At(voidedBy, d) <= At(voidedBy, x)
    {
      assert Deps(dag', x) == Deps(dag, x);
      DepsOlder(dag, x);
      assert d in TxDeps(dag, x);
    }
  }

  /** A transaction whose inputs are not marked yet has voided nothing. */
  lemma {:induction false} FreshHash(dag: Store, tx: VertexId, spentBy: map<Outpoint, set<VertexId>>, conflictWith: Marks,
                                     voidedBy: Marks)
    requires WellFormed(dag) && Entering(dag, tx, 0, spentBy, conflictWith, voidedBy)
    ensures forall x :: tx !in At(voidedBy, x)
  {
    hide WellFormed, TxReach, Forward;
    forall x | tx in At(voidedBy, x)
      ensures false
    {
      CarrierFacts(dag, conflictWith, voidedBy, At(conflictWith, tx), x, tx);
    }
  }

  lemma {:induction false} GrowBlock(dag: Store, id: VertexId, v: Vertex, voidedBy: Marks)
    requires WellFormed(dag) && Monotone(dag, voidedBy) && id !in dag && v.isBlock
    ensures Monotone(dag[id := v], voidedBy)
  {
    var dag' := dag[id := v];
    forall x, d | IsTx(dag', x) && d in TxDeps(dag', x)
      ensures At(voidedBy, d) <= At(voidedBy, x)
    {
      assert Deps(dag', x) == Deps(dag, x);
      assert d in TxDeps(dag, x);
    }
  }

  /** The winner's conflicts are not above it, so they stay voided when its hash is withdrawn. */
  lemma {:induction false} WinnerValid(dag: Store, conflictWith: Marks, before: Marks, tx: VertexId, after: Marks)
    requires WellFormed(dag) && Withdrawn(before, Descendants(dag, tx), tx, after)
    requires forall y, z :: z in At(conflictWith, y) ==> y in At(conflictWith, z) && y != z
    requires forall y :: y in Descendants(dag, tx) && y != tx ==> At(conflictWith, y) == {}
    requires forall h :: h in At(conflictWith, tx) ==> At(before, h) != {}
    ensures forall h :: h in At(conflictWith, tx) ==> At(after, h) != {}
  {
    hide WellFormed, Descendants;
  }

  // ----- a new transaction -----

  /** A transaction whose inputs are being marked: it is voided by itself as soon as it has a conflict. */
  ghost predicate Entering(dag: Store, tx: VertexId, n: nat, spentBy: map<Outpoint, set<VertexId>>,
                           conflictWith: Marks, voidedBy: Marks)
    requires WellFormed(dag)
  {
    && IsTx(dag, tx) && n <= |dag[tx].inputs| && Forward(dag, tx) == {}
    && SpentExact(dag, tx, n, spentBy)
    && ConflictsExact(spentBy, conflictWith)
    && Sound(dag, conflictWith, voidedBy, At(conflictWith, tx))
    && At(voidedBy, tx) == if At(conflictWith, tx) == {} then {} else {tx}
  }

  /** What marking input `o` of `tx` does to `conflict_with`, where `s` spend it already. */
  ghost predicate Clashed(before: Marks, tx: VertexId, s: set<VertexId>, after: Marks) {
    ClashedWith(before, tx, s, s, after)
  }

  /** The same while only those in `done` know of the conflict. */
  ghost predicate ClashedWith(before: Marks, tx: VertexId, s: set<VertexId>, done: set<VertexId>, after: Marks) {
    && At(after, tx) == At(before, tx) + s
    && forall x :: x != tx ==> At(after, x) == At(before, x) + if x in done then {tx} else {}
  }

  lemma {:induction false} ClashOne(before: Marks, tx: VertexId, s: set<VertexId>, done: set<VertexId>,
                                    after: Marks, h: VertexId)
    requires ClashedWith(before, tx, s, done, after) && h != tx
    ensures ClashedWith(before, tx, s, done + {h}, after[h := At(after, h) + {tx}])
  {
  }

  lemma {:induction false} ClashStart(before: Marks, tx: VertexId, s: set<VertexId>)
    ensures ClashedWith(before, tx, s, {}, before[tx := At(before, tx) + s])
  {
  }

  lemma {:induction false} AlreadySpent(dag: Store, tx: VertexId, n: nat, spentBy: map<Outpoint, set<VertexId>>,
                                        o: Outpoint)
    requires IsTx(dag, tx) && n <= |dag[tx].inputs| && SpentExact(dag, tx, n, spentBy)
    ensures o in spentBy && tx in spentBy[o] <==> o in dag[tx].inputs[..n]
  {
  }

  lemma {:induction false} MarkSpent(dag: Store, tx: VertexId, n: nat, spentBy: map<Outpoint, set<VertexId>>,
                                     s: set<VertexId>)
    requires IsTx(dag, tx) && n < |dag[tx].inputs| && SpentExact(dag, tx, n, spentBy)
    requires s == if dag[tx].inputs[n] in spentBy then spentBy[dag[tx].inputs[n]] else {}
    ensures SpentExact(dag, tx, n + 1, spentBy[dag[tx].inputs[n] := s + {tx}])
  {
    var o := dag[tx].inputs[n];
    assert dag[tx].inputs[..n + 1] == dag[tx].inputs[..n] + [o];
  }

  lemma {:induction false} MarkConflicts(spentBy: map<Outpoint, set<VertexId>>, conflictWith: Marks, tx: VertexId,
                                         o: Outpoint, s: set<VertexId>, conflictWith': Marks)
    requires ConflictsExact(spentBy, conflictWith) && tx !in s
    requires s == if o in spentBy then spentBy[o] else {}
    requires Clashed(conflictWith, tx, s, conflictWith')
    ensures ConflictsExact(spentBy[o := s + {tx}], conflictWith')
  {
    var spentBy' := spentBy[o := s + {tx}];
    forall x, y
      ensures y in At(conflictWith', x) <==> Clash(spentBy', x, y)
    {
      if Clash(spentBy', x, y) {
        var p :| p in spentBy' && x in spentBy'[p] && y in spentBy'[p];
        if p != o || (x != tx && y != tx) {
          assert Clash(spentBy, x, y);
        }
      }
      if y in At(conflictWith', x) {
        if y in At(conflictWith, x) {
          var p :| p in spentBy && x in spentBy[p] && y in spentBy[p];
          assert p in spentBy' && x in spentBy'[p] && y in spentBy'[p];
        } else {
          assert o in spentBy' && x in spentBy'[o] && y in spentBy'[o];
        }
      }
    }
  }

  lemma {:induction false} MarkSound(dag: Store, conflictWith: Marks, voidedBy: Marks, tx: VertexId, s: set<VertexId>,
                                     conflictWith': Marks, voidedBy': Marks)
    requires WellFormed(dag) && IsTx(dag, tx) && tx !in s
    requires Sound(dag, conflictWith, voidedBy, At(conflictWith, tx))
    requires At(voidedBy, tx) == if At(conflictWith, tx) == {} then {} else {tx}
    requires Clashed(conflictWith, tx, s, conflictWith')
    requires voidedBy' == if s == {} then voidedBy else voidedBy[tx := {tx}]
    ensures Sound(dag, conflictWith', voidedBy', At(conflictWith', tx))
    ensures At(voidedBy', tx) == if At(conflictWith', tx) == {} then {} else {tx}
  {
    hide WellFormed, TxReach, Sound;
    SelfReach(dag, tx);
    OnlyRootMarked(voidedBy, tx, s, voidedBy');
    assert At(voidedBy', tx) == if At(conflictWith', tx) == {} then {} else {tx};
    SoundSplit(dag, conflictWith, voidedBy, At(conflictWith, tx));
    assert OwnHash(conflictWith', voidedBy', At(conflictWith', tx)) by {
      forall x | x !in At(conflictWith', tx) && At(voidedBy', x) != {} && At(conflictWith', x) != {}
        ensures x in At(voidedBy', x)
      {
        if x != tx {
          assert x !in s && At(conflictWith', x) == At(conflictWith, x);
        }
      }
    }
    assert NoDoubleSpend(conflictWith', voidedBy') by {
      forall x, y | y in At(conflictWith', x)
        ensures At(voidedBy', x) != {} || At(voidedBy', y) != {}
      {
        assert y in At(conflictWith, x) || x == tx || (y == tx && x in s);
      }
    }
    MarkJustified(dag, conflictWith, voidedBy, tx, s, conflictWith', voidedBy');
    SoundJoin(dag, conflictWith', voidedBy', At(conflictWith', tx));
  }

  lemma {:induction false} MarkJustified(dag: Store, conflictWith: Marks, voidedBy: Marks, tx: VertexId,
                                         s: set<VertexId>,
                                         conflictWith': Marks, voidedBy': Marks)
    requires WellFormed(dag) && IsTx(dag, tx) && Justified(dag, conflictWith, voidedBy)
    requires Clashed(conflictWith, tx, s, conflictWith')
    requires forall x :: x != tx ==> At(voidedBy', x) == At(voidedBy, x)
    requires At(voidedBy', tx) == if At(conflictWith', tx) == {} then {} else {tx}
    ensures Justified(dag, conflictWith', voidedBy')
  {
    forall x, h | h in At(voidedBy', x)
      ensures IsTx(dag, x) && h in TxReach(dag, x) && At(conflictWith', h) != {}
    {
      if x != tx {
        assert h in At(voidedBy, x);
      }
    }
  }

  lemma {:induction false} InheritJustified(dag: Store, conflictWith: Marks, voidedBy: Marks,
                                            exempt: set<VertexId>, tx: VertexId,
                                            after: Marks)
    requires WellFormed(dag) && IsTx(dag, tx) && Sound(dag, conflictWith, voidedBy, exempt)
    requires after == voidedBy[tx := Inherited(dag, voidedBy, tx) + Own(conflictWith, tx)]
    ensures Justified(dag, conflictWith, after)
  {
    forall x, h | h in At(after, x)
      ensures IsTx(dag, x) && h in TxReach(dag, x) && At(conflictWith, h) != {}
    {
      if x != tx {
        CarrierFacts(dag, conflictWith, voidedBy, exempt, x, h);
      } else if h in Inherited(dag, voidedBy, tx) {
        InheritedFacts(dag, conflictWith, voidedBy, exempt, tx, h);
      }
    }
  }

  lemma {:induction false} OnlyRootMarked(voidedBy: Marks, tx: VertexId, s: set<VertexId>, voidedBy': Marks)
    requires voidedBy' == if s == {} then voidedBy else voidedBy[tx := {tx}]
    ensures forall x :: x != tx ==> At(voidedBy', x) == At(voidedBy, x)
    ensures At(voidedBy', tx) == if s == {} then At(voidedBy, tx) else {tx}
  {
  }

  lemma {:induction false} SoundSplit(dag: Store, conflictWith: Marks, voidedBy: Marks, exempt: set<VertexId>)
    requires WellFormed(dag) && Sound(dag, conflictWith, voidedBy, exempt)
    ensures OwnHash(conflictWith, voidedBy, exempt) && NoDoubleSpend(conflictWith, voidedBy) && Justified(dag, conflictWith, voidedBy)
  {
  }

  lemma {:induction false} SoundJoin(dag: Store, conflictWith: Marks, voidedBy: Marks, exempt: set<VertexId>)
    requires WellFormed(dag)
    requires OwnHash(conflictWith, voidedBy, exempt) && NoDoubleSpend(conflictWith, voidedBy) && Justified(dag, conflictWith, voidedBy)
    ensures Sound(dag, conflictWith, voidedBy, exempt)
  {
  }

  /** The store just before and just after a new transaction is stored. */
  lemma {:induction false} EnterStart(dag: Store, tx: VertexId, v: Vertex, spentBy: map<Outpoint, set<VertexId>>,
                                      conflictWith: Marks, voidedBy: Marks)
    requires WellFormed(dag) && FullySpent(dag, spentBy) && ConflictsExact(spentBy, conflictWith)
    requires Sound(dag, conflictWith, voidedBy, {})
    requires tx !in dag && !v.isBlock && WellFormed(dag[tx := v])
    ensures Entering(dag[tx := v], tx, 0, spentBy, conflictWith, voidedBy)
  {
    var dag' := dag[tx := v];
    assert IsTx(dag', tx);
    forall o, x | o in spentBy && x in spentBy[o]
      ensures x != tx && Spends(dag', x, o)
    {
      assert Spends(dag, x, o);
    }
    forall o, x | x != tx && Spends(dag', x, o)
      ensures o in spentBy && x in spentBy[o]
    {
      assert Spends(dag, x, o);
    }
    NoConflictYet(dag, tx, spentBy, conflictWith);
    NothingAbove(dag, tx, v);
    GrowSound(dag, dag', conflictWith, voidedBy);
    assert At(voidedBy, tx) == {};
  }

  lemma {:induction false} NoConflictYet(dag: Store, tx: VertexId, spentBy: map<Outpoint, set<VertexId>>,
                                         conflictWith: Marks)
    requires FullySpent(dag, spentBy) && ConflictsExact(spentBy, conflictWith) && tx !in dag
    ensures At(conflictWith, tx) == {}
  {
    if At(conflictWith, tx) != {} {
      ConflictIsTx(dag, spentBy, conflictWith, tx);
    }
  }

  lemma {:induction false} NothingAbove(dag: Store, id: VertexId, v: Vertex)
    requires WellFormed(dag) && id !in dag && WellFormed(dag[id := v])
    ensures Forward(dag[id := v], id) == {}
  {
    var dag' := dag[id := v];
    forall c | c in dag'
      ensures id !in Deps(dag', c)
    {
      DepsOlder(dag', c);
      if c in dag {
        DepsOlder(dag, c);
        assert Deps(dag', c) == Deps(dag, c);
      }
    }
  }

  lemma {:induction false} GrowSound(dag: Store, dag': Store, conflictWith: Marks, voidedBy: Marks)
    requires Extends(dag, dag') && Sound(dag, conflictWith, voidedBy, {})
    ensures Sound(dag', conflictWith, voidedBy, {})
    ensures forall x :: x !in dag ==> At(voidedBy, x) == {}
  {
    hide WellFormed, TxReach;
    forall x, h | h in At(voidedBy, x)
      ensures IsTx(dag, x) && IsTx(dag', x) && h in TxReach(dag', x) && At(conflictWith, h) != {}
    {
      CarrierFacts(dag, conflictWith, voidedBy, {}, x, h);
      TxReachStable(dag, dag', x);
    }
  }

  /** Everything that voids a parent or a spent transaction of `tx`. */
  function Inherited(dag: Store, voidedBy: Marks, tx: VertexId): set<VertexId>
    requires tx in dag
  {
    set d, h | d in Deps(dag, tx) && h in At(voidedBy, d) :: h
  }

  function Own(conflictWith: Marks, tx: VertexId): set<VertexId> {
    if At(conflictWith, tx) == {} then {} else {tx}
  }

  lemma {:induction false} TxReachNotNewer(dag: Store, v: VertexId, u: VertexId)
    requires WellFormed(dag) && IsTx(dag, v) && u in TxReach(dag, v)
    ensures u in dag && dag[u].timestamp <= dag[v].timestamp
    decreases dag[v].timestamp
  {
    if u != v {
      var d :| d in TxDeps(dag, v) && Older(dag, d, v) && u in TxReach(dag, d);
      TxReachNotNewer(dag, d, u);
    }
  }

  lemma {:induction false} InheritedFacts(dag: Store, conflictWith: Marks, voidedBy: Marks, exempt: set<VertexId>,
                                          tx: VertexId, h: VertexId)
    requires WellFormed(dag) && IsTx(dag, tx) && Sound(dag, conflictWith, voidedBy, exempt)
    requires h in Inherited(dag, voidedBy, tx)
    ensures h != tx && h in TxReach(dag, tx) && At(conflictWith, h) != {}
  {
    hide WellFormed, TxReach, Deps;
    var d :| d in Deps(dag, tx) && h in At(voidedBy, d);
    CarrierFacts(dag, conflictWith, voidedBy, exempt, d, h);
    DepsOlder(dag, tx);
    assert d in TxDeps(dag, tx);
    TxReachStep(dag, tx, d);
    TxReachNotNewer(dag, d, h);
  }

  lemma {:induction false} NotInherited(dag: Store, conflictWith: Marks, voidedBy: Marks, exempt: set<VertexId>,
                                        tx: VertexId)
    requires WellFormed(dag) && IsTx(dag, tx) && Sound(dag, conflictWith, voidedBy, exempt)
    ensures tx !in Inherited(dag, voidedBy, tx)
  {
    if tx in Inherited(dag, voidedBy, tx) {
      InheritedFacts(dag, conflictWith, voidedBy, exempt, tx, tx);
    }
  }

  /** Monotone among all transactions but the newest, `tx`. */
  ghost predicate MonotoneBelow(dag: Store, voidedBy: Marks, tx: VertexId) {
    forall x, d :: x != tx && IsTx(dag, x) && d in TxDeps(dag, x) ==> At(voidedBy, d) <= At(voidedBy, x)
  }

  lemma {:induction false} InheritSound(dag: Store, conflictWith: Marks, voidedBy: Marks, exempt: set<VertexId>,
                                        tx: VertexId)
    requires WellFormed(dag) && IsTx(dag, tx) && Sound(dag, conflictWith, voidedBy, exempt)
    requires forall y, z :: z in At(conflictWith, y) ==> y in At(conflictWith, z) && y != z
    ensures Sound(dag, conflictWith, voidedBy[tx := Inherited(dag, voidedBy, tx) + Own(conflictWith, tx)], exempt)
  {
    hide WellFormed, Inherited, TxReach, Sound;
    var after := voidedBy[tx := Inherited(dag, voidedBy, tx) + Own(conflictWith, tx)];
    SelfReach(dag, tx);
    SoundSplit(dag, conflictWith, voidedBy, exempt);
    assert At(after, tx) == Inherited(dag, voidedBy, tx) + Own(conflictWith, tx);
    assert OwnHash(conflictWith, after, exempt) by {
      forall x | x !in exempt && At(after, x) != {} && At(conflictWith, x) != {}
        ensures x in At(after, x)
      {
        assert x != tx ==> At(after, x) == At(voidedBy, x);
      }
    }
    assert NoDoubleSpend(conflictWith, after) by {
      forall x, y | y in At(conflictWith, x)
        ensures At(after, x) != {} || At(after, y) != {}
      {
        assert x in At(conflictWith, y);
        assert x != tx ==> At(after, x) == At(voidedBy, x);
        assert y != tx ==> At(after, y) == At(voidedBy, y);
      }
    }
    InheritJustified(dag, conflictWith, voidedBy, exempt, tx, after);
    SoundJoin(dag, conflictWith, after, exempt);
  }

  /** The hashes a new transaction takes over keep the markings monotone and rooted. */
  lemma {:induction false} InheritKeeps(dag: Store, conflictWith: Marks, voidedBy: Marks, tx: VertexId, after: Marks)
    requires WellFormed(dag) && IsTx(dag, tx) && Forward(dag, tx) == {}
    requires MonotoneBelow(dag, voidedBy, tx) && Rooted(voidedBy)
    requires At(voidedBy, tx) == Own(conflictWith, tx)
    requires after == voidedBy[tx := Inherited(dag, voidedBy, tx) + Own(conflictWith, tx)]
    ensures Monotone(dag, after) && Rooted(after)
  {
    hide WellFormed, Deps;
    DepsOlder(dag, tx);
    assert forall y :: y != tx ==> At(after, y) == At(voidedBy, y);
    assert At(after, tx) == Inherited(dag, voidedBy, tx) + Own(conflictWith, tx);
    forall x, d | IsTx(dag, x) && d in TxDeps(dag, x)
      ensures At(after, d) <= At(after, x)
    {
      NotAbove(dag, tx, x, d);
      if x == tx {
        assert d in Deps(dag, tx);
      }
    }
    forall x, h | h in At(after, x)
      ensures h in At(after, h)
    {
      if x == tx && h in Inherited(dag, voidedBy, tx) {
        var d :| d in Deps(dag, tx) && h in At(voidedBy, d);
        assert h in At(voidedBy, h);
      }
    }
  }

  lemma {:induction false} AllInputsMarked(dag: Store, tx: VertexId, spentBy: map<Outpoint, set<VertexId>>)
    requires IsTx(dag, tx) && SpentExact(dag, tx, |dag[tx].inputs|, spentBy)
    ensures FullySpent(dag, spentBy)
  {
    assert dag[tx].inputs[..|dag[tx].inputs|] == dag[tx].inputs;
  }

  lemma {:induction false} BlocksSpendNothing(dag: Store, id: VertexId, v: Vertex,
                                              spentBy: map<Outpoint, set<VertexId>>)
    requires FullySpent(dag, spentBy) && id !in dag && v.isBlock
    ensures FullySpent(dag[id := v], spentBy)
  {
    var dag' := dag[id := v];
    assert forall o, x :: Spends(dag', x, o) <==> Spends(dag, x, o);
    assert forall o, x :: Spends(dag', x, o) ==> o in spentBy && x in spentBy[o];
    assert forall o, x :: o in spentBy && x in spentBy[o] ==> Spends(dag', x, o);
  }

  lemma {:induction false} QuietIsExecuted(dag: Store, conflictWith: Marks, voidedBy: Marks, tx: VertexId)
    requires WellFormed(dag) && Sound(dag, conflictWith, voidedBy, {}) && Quiet(dag, conflictWith, voidedBy, tx)
    ensures At(voidedBy, tx) == {}
    ensures forall h :: h in At(conflictWith, tx) ==> At(voidedBy, h) != {}
    ensures forall x :: tx !in At(voidedBy, x)
  {
  }

  /** After a quiet transaction is voided by its own hash, that hash can be withdrawn again. */
  lemma {:induction false} SpreadIsReady(dag: Store, conflictWith: Marks, before: Marks, tx: VertexId, after: Marks)
    requires WellFormed(dag) && Monotone(dag, before) && Quiet(dag, conflictWith, before, tx)
    requires Sound(dag, conflictWith, before, {}) && Spread(before, Descendants(dag, tx), tx, after)
    ensures Monotone(dag, after) && At(after, tx) == {tx}
    ensures forall h :: h in At(conflictWith, tx) ==> At(after, h) != {}
  {
    hide WellFormed, TxReach, Deps, Monotone, Sound;
    QuietIsExecuted(dag, conflictWith, before, tx);
    SelfDescendant(dag, tx);
    SpreadKeeps(dag, before, tx, after);
  }

  lemma {:induction false} QuietFacts(dag: Store, conflictWith: Marks, voidedBy: Marks, tx: VertexId)
    requires WellFormed(dag) && Quiet(dag, conflictWith, voidedBy, tx)
    ensures IsTx(dag, tx) && At(conflictWith, tx) != {}
  {
  }

  /** A transaction that inherits nothing keeps what its inputs gave it. */
  lemma {:induction false} NothingInherited(dag: Store, conflictWith: Marks, voidedBy: Marks, tx: VertexId)
    requires WellFormed(dag) && Decidable(dag, conflictWith, voidedBy, tx)
    requires At(voidedBy, tx) == if At(conflictWith, tx) == {} then {} else {tx}
    ensures At(voidedBy, tx) == {tx}
    ensures voidedBy[tx := {} + Own(conflictWith, tx)] == voidedBy && OwnHash(conflictWith, voidedBy, {})
  {
    assert {} + Own(conflictWith, tx) == {tx} == voidedBy[tx];
  }

  /** In a sound state no executed transaction has an executed conflict. */
  lemma {:induction false} SoundIsValid(dag: Store, conflictWith: Marks, voidedBy: Marks, tx: VertexId)
    requires WellFormed(dag) && Sound(dag, conflictWith, voidedBy, {})
    ensures At(voidedBy, tx) == {} ==> forall h :: h in At(conflictWith, tx) ==> At(voidedBy, h) != {}
  {
  }

  lemma {:induction false} NotVoidedYet(dag: Store, tx: VertexId, spentBy: map<Outpoint, set<VertexId>>, conflictWith: Marks,
                                        voidedBy: Marks)
    requires WellFormed(dag) && IsTx(dag, tx) && Entering(dag, tx, |dag[tx].inputs|, spentBy, conflictWith, voidedBy)
    ensures At(conflictWith, tx) == {} ==> At(voidedBy, tx) == {}
  {
    hide WellFormed, SpentExact, Sound, Forward, ConflictsExact;
  }
}
