/**
 Removing voided transactions from the store: children and spent outputs stay exact inverses of
 parents and inputs.
 */
module RemoveTransactions {
  import opened Dag
  import opened Sequences
  import opened TxMetadata

  type Spent = map<Outpoint, set<VertexId>>

  datatype Outcome = Done | AssertionFailed | ValueError

  function SpentAt(spentBy: Spent, o: Outpoint): set<VertexId> {
    if o in spentBy then spentBy[o] else {}
  }

  /** Everything referred to is stored. */
  ghost predicate NoDangling(dag: Store) {
    forall v, d :: v in dag && d in Deps(dag, v) ==> d in dag
  }

  ghost predicate ChildrenExact(dag: Store, children: Marks) {
    && (forall v :: v in children ==> v in dag)
    && (forall v, c :: v in dag ==> (c in At(children, v) <==> c in dag && v in dag[c].parents))
  }

  ghost predicate SpendersExact(dag: Store, spentBy: Spent) {
    && (forall o :: o in spentBy ==> o.txId in dag)
    && (forall o: Outpoint, c: VertexId :: o.txId in dag ==> (c in SpentAt(spentBy, o) <==> c in dag && o in dag[c].inputs))
  }

  ghost predicate Linked(dag: Store, children: Marks, spentBy: Spent) {
    NoDangling(dag) && ChildrenExact(dag, children) && SpendersExact(dag, spentBy)
  }

  function Spenders(spentBy: Spent, v: VertexId): set<VertexId> {
    set o, c | o in spentBy && o.txId == v && c in spentBy[o] :: c
  }

  /** No vertex outside the set verifies or spends from a member. */
  ghost predicate Closed(dag: Store, s: set<VertexId>) {
    forall v, d :: v in dag && v !in s && d in Deps(dag, v) ==> d !in s
  }

  function Without<T(!new)>(m: map<VertexId, T>, s: set<VertexId>): map<VertexId, T> {
    map v | v in m && v !in s :: m[v]
  }

  function WithoutOutputs(spentBy: Spent, s: set<VertexId>): Spent {
    map o | o in spentBy && o.txId !in s :: spentBy[o]
  }

  // ----- the first pass over the transactions to remove -----

  /** `mid` are the spenders after the transactions in `s` were taken off their inputs. */
  ghost predicate Unspent(dag: Store, before: Spent, s: set<VertexId>, mid: Spent) {
    && mid.Keys == before.Keys
    && forall o, c :: c in SpentAt(mid, o) <==> c in SpentAt(before, o) && !(c in s && c in dag && o in dag[c].inputs)
  }

  /** For each parent outside `all`, its children in `s`. */
  ghost predicate Collected(dag: Store, all: set<VertexId>, s: set<VertexId>, toUpdate: Marks) {
    && (forall p :: p in toUpdate ==> p !in all && toUpdate[p] != {})
    && forall p, c :: c in At(toUpdate, p) <==> c in s && c in dag && p in dag[c].parents && p !in all
  }

  /** What would be left dangling by the transactions in `s`. */
  ghost predicate Dangling(children: Marks, before: Spent, all: set<VertexId>, s: set<VertexId>,
                           dangling: set<VertexId>) {
    forall c :: c in dangling <==>
      c !in all && exists v :: v in s && (c in At(children, v) || c in Spenders(before, v))
  }

  /** The children and spenders of a vertex are exactly the vertices that depend on it. */
  lemma {:induction false} NeighborsDepend(dag: Store, children: Marks, spentBy: Spent, c: VertexId, v: VertexId)
    requires Linked(dag, children, spentBy) && v in dag
    ensures c in At(children, v) || c in Spenders(spentBy, v) <==> c in dag && v in Deps(dag, c)
  {
    if c in Spenders(spentBy, v) {
      var o :| o in spentBy && o.txId == v && c in spentBy[o];
      assert c in SpentAt(spentBy, o);
    }
    if c in dag && v in Deps(dag, c) && v !in dag[c].parents {
      var i :| 0 <= i < |dag[c].inputs| && dag[c].inputs[i].txId == v;
      assert c in SpentAt(spentBy, dag[c].inputs[i]);
    }
  }

  lemma {:induction false} NothingDangles(dag: Store, children: Marks, spentBy: Spent, all: set<VertexId>,
                                          dangling: set<VertexId>)
    requires Linked(dag, children, spentBy) && all <= dag.Keys
    requires Dangling(children, spentBy, all, all, dangling)
    ensures dangling == {} <==> Closed(dag, all)
  {
    hide Linked, At, Spenders, Deps;
    if Closed(dag, all) {
      forall c | c in dangling
        ensures false
      {
        var v :| v in all && (c in At(children, v) || c in Spenders(spentBy, v));
        NeighborsDepend(dag, children, spentBy, c, v);
      }
    }
    forall c, v | c in dag && c !in all && v in Deps(dag, c) && v in all
      ensures c in dangling
    {
      NeighborsDepend(dag, children, spentBy, c, v);
    }
  }

  /** One more transaction: spenders already taken off are members of `all`. */
  lemma {:induction false} DanglingStep(dag: Store, children: Marks, before: Spent, mid: Spent, all: set<VertexId>,
                                        s: set<VertexId>, tx: VertexId, dangling: set<VertexId>)
    requires Unspent(dag, before, s, mid) && s <= all && Dangling(children, before, all, s, dangling)
    ensures Dangling(children, before, all, s + {tx}, dangling + (At(children, tx) + Spenders(mid, tx) - all))
  {
    forall c | c !in all
      ensures c in Spenders(mid, tx) <==> c in Spenders(before, tx)
    {
      if c in Spenders(mid, tx) {
        var o :| o in mid && o.txId == tx && c in mid[o];
        assert c in SpentAt(mid, o);
      }
      if c in Spenders(before, tx) {
        var o :| o in before && o.txId == tx && c in before[o];
        assert c in SpentAt(before, o);
        assert c in SpentAt(mid, o);
      }
    }
  }

  /** Parents outside `all` have lost their children in `all`. */
  ghost predicate Dropped(children: Marks, all: set<VertexId>, children': Marks) {
    && children'.Keys == children.Keys
    && forall v :: v in children && v !in all ==> children'[v] == children[v] - all
  }

  lemma {:induction false} CollectedAt(dag: Store, children: Marks, all: set<VertexId>, toUpdate: Marks, p: VertexId)
    requires NoDangling(dag) && ChildrenExact(dag, children) && all <= dag.Keys
    requires Collected(dag, all, all, toUpdate) && p !in all
    ensures At(toUpdate, p) == At(children, p) * all
  {
    forall c: VertexId
      ensures c in At(toUpdate, p) <==> c in At(children, p) * all
    {
      if p in dag {
        assert c in At(children, p) <==> c in dag && p in dag[c].parents;
      } else if c in dag {
        assert p !in Deps(dag, c);
      }
    }
  }

  lemma {:induction false} CollectedAll(dag: Store, children: Marks, all: set<VertexId>, toUpdate: Marks)
    requires NoDangling(dag) && ChildrenExact(dag, children) && all <= dag.Keys
    requires Collected(dag, all, all, toUpdate)
    ensures forall p :: p in toUpdate ==> p in children && p !in all && toUpdate[p] == At(children, p) * all
    ensures forall p :: p in children && p !in all && p !in toUpdate ==> At(children, p) * all == {}
  {
    forall p | p in toUpdate
      ensures p in children && p !in all && toUpdate[p] == At(children, p) * all
    {
      CollectedAt(dag, children, all, toUpdate, p);
    }
    forall p | p in children && p !in all && p !in toUpdate
      ensures At(children, p) * all == {}
    {
      CollectedAt(dag, children, all, toUpdate, p);
    }
  }

  /** The store that is left is linked again. */
  lemma {:induction false} RemainsLinked(dag: Store, children: Marks, spentBy: Spent, all: set<VertexId>,
                                         children': Marks, spentBy': Spent)
    requires Linked(dag, children, spentBy) && all <= dag.Keys && Closed(dag, all)
    requires Unspent(dag, spentBy, all, spentBy')
    requires Dropped(children, all, children')
    ensures Linked(Without(dag, all), Without(children', all), WithoutOutputs(spentBy', all))
  {
    var dag', kids := Without(dag, all), Without(children', all);
    var spent := WithoutOutputs(spentBy', all);
    forall v, d | v in dag' && d in Deps(dag', v)
      ensures d in dag'
    {
      assert d in Deps(dag, v);
    }
    assert ChildrenExact(dag', kids) by {
      forall v, c | v in dag'
        ensures c in At(kids, v) <==> c in dag' && v in dag'[c].parents
      {
        assert At(kids, v) == At(children, v) - all;
      }
    }
    assert SpendersExact(dag', spent) by {
      forall o: Outpoint, c: VertexId | o.txId in dag'
        ensures c in SpentAt(spent, o) <==> c in dag' && o in dag'[c].inputs
      {
        assert SpentAt(spent, o) == SpentAt(spentBy', o);
      }
    }
  }

  lemma {:induction false} LinkedParts(dag: Store, children: Marks, spentBy: Spent)
    requires Linked(dag, children, spentBy)
    ensures NoDangling(dag) && ChildrenExact(dag, children)
  {
  }

  lemma {:induction false} DetachStart(dag: Store, children: Marks, before: Spent, all: set<VertexId>)
    ensures Unspent(dag, before, {}, before)
    ensures Collected(dag, all, {}, map[])
    ensures Dangling(children, before, all, {}, {})
  {
  }

  ghost predicate HasParentOutside(dag: Store, tx: VertexId, all: set<VertexId>)
    requires tx in dag
  {
    exists k :: 0 <= k < |dag[tx].parents| && dag[tx].parents[k] !in all
  }

  /** A transaction with a parent outside the list is listed twice: it would have to be removed twice from that
      parent's children. */
  ghost predicate Repeated(dag: Store, txs: seq<VertexId>, n: nat, all: set<VertexId>)
    requires n <= |txs| && forall v :: v in txs ==> v in dag
  {
    exists i, j :: 0 <= i < j < n && txs[i] == txs[j] && HasParentOutside(dag, txs[j], all)
  }

  lemma {:induction false} RepeatedStep(dag: Store, txs: seq<VertexId>, n: nat, all: set<VertexId>)
    requires n < |txs| && forall v :: v in txs ==> v in dag
    ensures Repeated(dag, txs, n + 1, all) <==>
            Repeated(dag, txs, n, all) || (txs[n] in ToSet(txs[..n]) && HasParentOutside(dag, txs[n], all))
  {
    if txs[n] in ToSet(txs[..n]) && HasParentOutside(dag, txs[n], all) {
      var i :| 0 <= i < n && txs[..n][i] == txs[n];
      assert txs[i] == txs[n];
    }
    if Repeated(dag, txs, n + 1, all) {
      var i, j :| 0 <= i < j < n + 1 && txs[i] == txs[j] && HasParentOutside(dag, txs[j], all);
      assert j == n ==> txs[..n][i] == txs[n];
    }
  }

  lemma {:induction false} NotRepeated(dag: Store, txs: seq<VertexId>, all: set<VertexId>)
    requires forall v :: v in txs ==> v in dag
    ensures !Repeated(dag, txs, 0, all)
  {
  }

  class Storage {
    var dag: Store
    var children: Marks
    var spentBy: Spent
    var voided: set<VertexId>
    var checkpoints: set<VertexId>

    /** Takes `tx` off the spenders of its inputs. */
    method UnspendInputs(tx: VertexId, ghost before: Spent, ghost s: set<VertexId>)
      requires tx in dag && Unspent(dag, before, s, spentBy)
      modifies this`spentBy
      ensures Unspent(dag, before, s + {tx}, spentBy)
    {
      var i := 0;
      while i < |dag[tx].inputs|
        invariant 0 <= i <= |dag[tx].inputs|
        invariant spentBy.Keys == before.Keys
        invariant forall o, c :: c in SpentAt(spentBy, o) <==>
                    && c in SpentAt(before, o) && !(c in s && c in dag && o in dag[c].inputs)
                    && !(c == tx && o in dag[tx].inputs[..i])
      {
        var o := dag[tx].inputs[i];
        assert dag[tx].inputs[..i + 1] == dag[tx].inputs[..i] + [o];
        if tx in SpentAt(spentBy, o) {
          spentBy := spentBy[o := SpentAt(spentBy, o) - {tx}];
        }
        i := i + 1;
      }
      assert dag[tx].inputs[..i] == dag[tx].inputs;
    }

    /** Notes `tx` for each of its parents outside `all`; says whether it was noted before. */
    method CollectParents(tx: VertexId, toUpdate: Marks, all: set<VertexId>, ghost s: set<VertexId>) returns (toUpdate': Marks, again: bool)
      requires tx in dag && Collected(dag, all, s, toUpdate)
      ensures Collected(dag, all, s + {tx}, toUpdate')
      ensures again <==> tx in s && HasParentOutside(dag, tx, all)
    {
      toUpdate', again := toUpdate, false;
      var i := 0;
      while i < |dag[tx].parents|
        invariant 0 <= i <= |dag[tx].parents|
        invariant forall p :: p in toUpdate' ==> p !in all && toUpdate'[p] != {}
        invariant forall p, c :: c in At(toUpdate', p) <==>
                    || (c in s && c in dag && p in dag[c].parents && p !in all)
                    || (c == tx && p in dag[tx].parents[..i] && p !in all)
        invariant again <==> tx in s && exists k :: 0 <= k < i && dag[tx].parents[k] !in all
      {
        var p := dag[tx].parents[i];
        assert dag[tx].parents[..i + 1] == dag[tx].parents[..i] + [p];
        if p !in all {
          assert tx in At(toUpdate, p) <==> tx in s && p in dag[tx].parents;
          again := again || tx in At(toUpdate, p);
          toUpdate' := toUpdate'[p := At(toUpdate', p) + {tx}];
        }
        i := i + 1;
      }
      assert dag[tx].parents[..i] == dag[tx].parents;
    }

    /** The first pass: checks each transaction, takes it off its inputs, and notes what refers to it. */
    method Detach(txs: seq<VertexId>, all: set<VertexId>)
      returns (r: Outcome, toUpdate: Marks, again: bool, dangling: set<VertexId>)
      requires all == ToSet(txs) && all <= dag.Keys && forall v :: v in txs ==> v in dag
      modifies this`spentBy
      ensures r.Done? <==> forall v :: v in all ==> v !in checkpoints && v in voided
      ensures r.Done? || r.AssertionFailed?
      ensures r.Done? ==> (again <==> Repeated(dag, txs, |txs|, all))
      ensures r.Done? ==> (
                && Unspent(dag, old(spentBy), all, spentBy)
                && Collected(dag, all, all, toUpdate)
                && Dangling(children, old(spentBy), all, all, dangling))
    {
      hide Unspent, Collected, Dangling, Repeated, HasParentOutside;
      ghost var before := spentBy;
      toUpdate, again, dangling := map[], false, {};
      NotRepeated(dag, txs, all);
      var i := 0;
      DetachStart(dag, children, before, all);
      assert ToSet(txs[..0]) == {};
      while i < |txs|
        invariant 0 <= i <= |txs|
        invariant ToSet(txs[..i]) <= all
        invariant forall v :: v in ToSet(txs[..i]) ==> v !in checkpoints && v in voided
        invariant Unspent(dag, before, ToSet(txs[..i]), spentBy)
        invariant Collected(dag, all, ToSet(txs[..i]), toUpdate)
        invariant Dangling(children, before, all, ToSet(txs[..i]), dangling)
        invariant again <==> Repeated(dag, txs, i, all)
      {
        var tx := txs[i];
        assert tx in all;
        if tx in checkpoints || tx !in voided {
          return AssertionFailed, toUpdate, again, dangling;
        }
        ghost var s := ToSet(txs[..i]);
        assert ToSet(txs[..i + 1]) == s + {tx};
        RepeatedStep(dag, txs, i, all);
        var more;
        toUpdate, more := CollectParents(tx, toUpdate, all, s);
        again := again || more;
        DanglingStep(dag, children, before, spentBy, all, s, tx, dangling);
        dangling := dangling + (At(children, tx) + Spenders(spentBy, tx) - all);
        UnspendInputs(tx, before, s);
        i := i + 1;
      }
      assert txs[..i] == txs;
      r := Done;
    }

    /** Takes the noted children off their parents; each is there, so no removal can raise. */
    method DropChildren(toUpdate: Marks, all: set<VertexId>)
      requires forall p :: p in toUpdate ==> p in children && p !in all && toUpdate[p] == At(children, p) * all
      requires forall p :: p in children && p !in all && p !in toUpdate ==> At(children, p) * all == {}
      modifies this`children
      ensures Dropped(old(children), all, children)
    {
      ghost var before := children;
      var left := toUpdate.Keys;
      while left != {}
        invariant left <= toUpdate.Keys
        invariant children.Keys == before.Keys
        invariant forall v :: v in left || v !in toUpdate ==> At(children, v) == At(before, v)
        invariant forall v :: v in toUpdate && v !in left ==> At(children, v) == At(before, v) - all
        decreases |left|
      {
        var p :| p in left;
        assert toUpdate[p] <= At(children, p);
        children := children[p := At(children, p) - toUpdate[p]];
        left := left - {p};
      }
    }

    /**
     Removes the transactions. It completes exactly when all of them are voided, none is a
     checkpoint, nothing that stays depends on one of them, and none with a parent that stays is
     listed twice; what stays is linked again.
     */
    method RemoveAll(txs: seq<VertexId>) returns (r: Outcome)
      requires Linked(dag, children, spentBy)
      requires forall v :: v in txs ==> v in dag
      modifies this
      ensures r.Done? <==>
              && (forall v :: v in txs ==> v !in checkpoints && v in voided)
              && Closed(old(dag), ToSet(txs))
              && !Repeated(old(dag), txs, |txs|, ToSet(txs))
      ensures r.Done? ==> Linked(dag, children, spentBy)
      ensures r.Done? ==> dag == Without(old(dag), ToSet(txs))
    {
      hide Linked, NoDangling, ChildrenExact, Closed, Unspent, Collected, Dangling, Dropped, Repeated;
      ghost var dag0, children0, spent0 := dag, children, spentBy;
      var all := ToSet(txs);
      var toUpdate, again, dangling;
      r, toUpdate, again, dangling := Detach(txs, all);
      if r.AssertionFailed? {
        return;
      }
      NothingDangles(dag0, children0, spent0, all, dangling);
      if dangling != {} {
        return AssertionFailed;
      }
      if again {
        // the second removal from the same list raises
        return ValueError;
      }
      LinkedParts(dag0, children0, spent0);
      CollectedAll(dag0, children0, all, toUpdate);
      DropChildren(toUpdate, all);
      RemainsLinked(dag0, children0, spent0, all, children, spentBy);
      RemoveFromStorage(txs);
    }

    /** Deletes one transaction with its metadata; deleting it again changes nothing. */
    method RemoveTransaction(tx: VertexId)
      modifies this`dag, this`children, this`spentBy
      ensures dag == Without(old(dag), {tx}) && children == Without(old(children), {tx})
      ensures spentBy == WithoutOutputs(old(spentBy), {tx})
    {
      dag, children, spentBy := Without(dag, {tx}), Without(children, {tx}), WithoutOutputs(spentBy, {tx});
    }

    /** Deletes every transaction of the list, one by one. */
    method RemoveFromStorage(txs: seq<VertexId>)
      modifies this`dag, this`children, this`spentBy
      ensures dag == Without(old(dag), ToSet(txs)) && children == Without(old(children), ToSet(txs))
      ensures spentBy == WithoutOutputs(old(spentBy), ToSet(txs))
    {
      var k := 0;
      while k < |txs|
        invariant 0 <= k <= |txs|
        invariant dag == Without(old(dag), ToSet(txs[..k])) && children == Without(old(children), ToSet(txs[..k]))
        invariant spentBy == WithoutOutputs(old(spentBy), ToSet(txs[..k]))
      {
        assert txs[..k + 1] == txs[..k] + [txs[k]];
        ToSetAppend(txs[..k], [txs[k]]);
        assert ToSet([txs[k]]) == {txs[k]};
        RemoveTransaction(txs[k]);
        k := k + 1;
      }
      assert txs[..k] == txs;
    }
  }
}
