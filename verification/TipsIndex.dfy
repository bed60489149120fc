/**
 The tips index of one kind of vertex. Each indexed vertex has the interval from its timestamp
 to the timestamp of its earliest indexed child, and the vertices whose interval holds a time
 are the tips at that time.
 */
module TipsIndex {
  import opened Dag
  import opened Wrappers

  /** [begin, end); an absent end stands for infinity. */
  datatype Interval = Interval(begin: nat, end: Option<nat>, data: VertexId)

  datatype Outcome = Done | AssertionFailed | KeyError

  predicate Before(t: int, end: Option<nat>) {
    match end
    case None => true
    case Some(e) => t < e
  }

  predicate ChildOf(dag: Store, c: VertexId, v: VertexId) {
    c in dag && v in dag[c].parents
  }

  /** `end` is the least timestamp among the children of `v` in `members`. */
  ghost predicate EndOk(dag: Store, members: set<VertexId>, v: VertexId, end: Option<nat>) {
    && (forall c :: c in members && ChildOf(dag, c, v) ==> end.Some? && end.value <= dag[c].timestamp)
    && (end.Some? ==> exists c :: c in members && ChildOf(dag, c, v) && dag[c].timestamp == end.value)
  }

  ghost predicate Structured(dag: Store, kind: bool, tree: set<Interval>, last: map<VertexId, Interval>) {
    && (forall v :: v in last ==> v in dag && dag[v].isBlock == kind && last[v].data == v && last[v].begin == dag[v].timestamp)
    && (forall i :: i in tree <==> i.data in last && last[i.data] == i)
  }

  ghost predicate Exact(dag: Store, last: map<VertexId, Interval>) {
    forall v :: v in last ==> EndOk(dag, last.Keys, v, last[v].end)
  }

  // ----- how the earliest child changes -----

  lemma {:induction false} EndWithChild(dag: Store, members: set<VertexId>, v: VertexId, end: Option<nat>, c: VertexId)
    requires EndOk(dag, members, v, end) && c in dag
    ensures !ChildOf(dag, c, v) ==> EndOk(dag, members + {c}, v, end)
    ensures ChildOf(dag, c, v) ==>
              EndOk(dag, members + {c}, v, if Before(dag[c].timestamp, end) then Some(dag[c].timestamp) else end)
  {
  }

  lemma {:induction false} EndWithoutChild(dag: Store, members: set<VertexId>, v: VertexId, end: Option<nat>,
                                           c: VertexId)
    requires EndOk(dag, members, v, end) && c in members && c in dag
    ensures !ChildOf(dag, c, v) ==> EndOk(dag, members - {c}, v, end)
    ensures ChildOf(dag, c, v) ==> (EndOk(dag, members - {c}, v, end) <==> Covered(dag, members, v, c))
  {
  }

  /** Another indexed child of `v` is no later than `c`. */
  ghost predicate Covered(dag: Store, members: set<VertexId>, v: VertexId, c: VertexId)
    requires c in dag
  {
    exists d :: d in members && d != c && ChildOf(dag, d, v) && dag[d].timestamp <= dag[c].timestamp
  }

  // ----- what the index answers -----

  ghost predicate TipAt(dag: Store, members: set<VertexId>, v: VertexId, t: int) {
    && v in members && v in dag && dag[v].timestamp <= t
    && forall c :: c in members && ChildOf(dag, c, v) ==> t < dag[c].timestamp
  }

  /** The tips at `t`: the indexed vertices no younger than `t` without an indexed child by then. */
  lemma {:induction false} LookupExact(dag: Store, kind: bool, tree: set<Interval>, last: map<VertexId, Interval>,
                                       t: int, v: VertexId)
    requires Structured(dag, kind, tree, last) && Exact(dag, last)
    ensures (exists i :: i in tree && i.begin <= t && Before(t, i.end) && i.data == v) <==> TipAt(dag, last.Keys, v, t)
  {
    if v in last {
      assert last[v] in tree;
      assert EndOk(dag, last.Keys, v, last[v].end);
    }
  }

  /** Once some indexed vertex is no younger than `t` there is a tip at `t`. */
  lemma {:induction false} SomeTip(dag: Store, members: set<VertexId>, t: int)
    requires WellFormed(dag) && members <= dag.Keys
    requires exists v :: v in members && dag[v].timestamp <= t
    ensures exists v :: TipAt(dag, members, v, t)
  {
    var s := set v | v in members && dag[v].timestamp <= t;
    var v :| v in members && dag[v].timestamp <= t;
    assert v in s;
    var n := Newest(dag, s);
    forall c | c in members && ChildOf(dag, c, n)
      ensures t < dag[c].timestamp
    {
      DepsOlder(dag, c);
      var i :| 0 <= i < |dag[c].parents| && dag[c].parents[i] == n;
      assert n in Deps(dag, c);
    }
    assert TipAt(dag, members, n, t);
  }

  lemma {:induction false} Newest(dag: Store, s: set<VertexId>) returns (n: VertexId)
    requires s != {} && s <= dag.Keys
    ensures n in s && forall v :: v in s ==> dag[v].timestamp <= dag[n].timestamp
    decreases |s|
  {
    n :| n in s;
    if s != {n} {
      var m := Newest(dag, s - {n});
      if dag[m].timestamp > dag[n].timestamp {
        n := m;
      }
    }
  }

  /** A vertex that is stored but not indexed changes nothing. */
  lemma {:induction false} GrowKeeps(dag: Store, dag': Store, kind: bool, tree: set<Interval>,
                                     last: map<VertexId, Interval>)
    requires Extends(dag, dag') && Structured(dag, kind, tree, last) && Exact(dag, last)
    ensures Structured(dag', kind, tree, last) && Exact(dag', last)
  {
    hide WellFormed;
    forall v | v in last
      ensures EndOk(dag', last.Keys, v, last[v].end)
    {
      assert EndOk(dag, last.Keys, v, last[v].end);
      assert forall c :: c in last ==> (ChildOf(dag, c, v) <==> ChildOf(dag', c, v));
    }
  }

  class MemoryTipsIndex {
    // the kind of vertex indexed: blocks or transactions
    const kind: bool
    var tree: set<Interval>
    var last: map<VertexId, Interval>

    ghost predicate Valid(dag: Store)
      reads this
    {
      WellFormed(dag) && Structured(dag, kind, tree, last) && Exact(dag, last)
    }

    constructor (kind: bool, ghost dag: Store)
      requires WellFormed(dag)
      ensures Valid(dag) && this.kind == kind && last == map[]
    {
      this.kind := kind;
      tree, last := {}, map[];
    }

    /** The vertices whose interval holds the time `t`. */
    method Lookup(ghost dag: Store, t: int) returns (tips: set<VertexId>)
      requires Valid(dag)
      ensures forall v :: v in tips <==> TipAt(dag, last.Keys, v, t)
      ensures (exists v :: v in last && v in dag && dag[v].timestamp <= t) ==> tips != {}
    {
      hide WellFormed;
      var held := set i | i in tree && i.begin <= t && Before(t, i.end);
      tips := set i | i in held :: i.data;
      forall v
        ensures v in tips <==> TipAt(dag, last.Keys, v, t)
      {
        LookupExact(dag, kind, tree, last, t, v);
      }
      if exists v :: v in last && v in dag && dag[v].timestamp <= t {
        SomeTip(dag, last.Keys, t);
      }
    }

    /** Replaces the end of the interval of an indexed vertex. */
    method SetEnd(v: VertexId, end: Option<nat>, ghost dag: Store)
      requires Structured(dag, kind, tree, last) && v in last && Before(last[v].begin, end)
      modifies this`tree, this`last
      ensures Structured(dag, kind, tree, last)
      ensures last == old(last)[v := Interval(old(last)[v].begin, end, v)]
    {
      var pi := last[v];
      assert pi in tree;
      tree := tree - {pi};
      var i := Interval(pi.begin, end, pi.data);
      tree := tree + {i};
      last := last[i.data := i];
    }

    /** The least timestamp among the indexed children. */
    method EarliestChild(dag: Store, v: VertexId) returns (end: Option<nat>)
      requires last.Keys <= dag.Keys
      ensures EndOk(dag, last.Keys, v, end)
    {
      end := None;
      var children: set<VertexId> := set c | c in dag && v in dag[c].parents;
      var todo := children;
      while todo != {}
        invariant todo <= children
        invariant EndOk(dag, last.Keys - todo, v, end)
        decreases |todo|
      {
        var c :| c in todo;
        if c in last {
          EndWithChild(dag, last.Keys - todo, v, end, c);
          assert last.Keys - (todo - {c}) == last.Keys - todo + {c};
          if Before(dag[c].timestamp, end) {
            end := Some(dag[c].timestamp);
          }
        } else {
          assert last.Keys - (todo - {c}) == last.Keys - todo;
        }
        todo := todo - {c};
      }
      assert last.Keys - todo == last.Keys;
    }

    /** Ends the intervals of the parents no later than the new child `tx`. */
    method ShortenParents(dag: Store, tx: VertexId)
      requires Valid(dag) && tx in dag
      modifies this`tree, this`last
      ensures Structured(dag, kind, tree, last) && last.Keys == old(last).Keys
      ensures forall v :: v in last ==> EndOk(dag, last.Keys + {tx}, v, last[v].end)
    {
      hide WellFormed, Deps, EndOk;
      ghost var members := last.Keys;
      var parents := dag[tx].parents;
      var i := 0;
      while i < |parents|
        invariant 0 <= i <= |parents|
        invariant Structured(dag, kind, tree, last) && last.Keys == members
        invariant forall v :: v in last ==>
                    EndOk(dag, if v in parents[..i] then members + {tx} else members, v, last[v].end)
      {
        var p := parents[i];
        ParentOlder(dag, tx, i);
        assert parents[..i + 1] == parents[..i] + [p];
        if p in last {
          if p in parents[..i] {
            EndRepeats(dag, members, p, last[p].end, tx);
          } else {
            EndWithChild(dag, members, p, last[p].end, tx);
          }
          if Before(dag[tx].timestamp, last[p].end) {
            SetEnd(p, Some(dag[tx].timestamp), dag);
          }
        }
        i := i + 1;
      }
      assert parents[..i] == parents;
      forall v | v in last
        ensures EndOk(dag, members + {tx}, v, last[v].end)
      {
        if v !in parents {
          EndWithChild(dag, members, v, last[v].end, tx);
        }
      }
    }

    /** Adds a vertex: shortens its parents' intervals and takes its own from the children already there. */
    method AddTx(dag: Store, tx: VertexId) returns (added: bool)
      requires Valid(dag) && tx in dag && dag[tx].isBlock == kind
      modifies this`tree, this`last
      ensures Valid(dag)
      ensures added <==> tx !in old(last)
      ensures last.Keys == old(last).Keys + {tx}
    {
      hide WellFormed, Deps, EndOk;
      if tx in last {
        assert last.Keys == last.Keys + {tx};
        return false;
      }
      ghost var members := last.Keys;
      ShortenParents(dag, tx);
      var end := EarliestChild(dag, tx);
      ChildNewer(dag, members, tx, end);
      EndWithChild(dag, members, tx, end, tx);
      var interval := Interval(dag[tx].timestamp, end, tx);
      tree := tree + {interval};
      last := last[tx := interval];
      assert last.Keys == members + {tx};
      return true;
    }

    /** Recomputes the interval of a vertex from its children. A voided vertex is left alone. */
    method UpdateTx(dag: Store, voided: set<VertexId>, tx: VertexId, relaxAssert: bool) returns (r: Outcome)
      requires WellFormed(dag) && Structured(dag, kind, tree, last) && tx in dag
      modifies this`tree, this`last
      ensures Structured(dag, kind, tree, last) && last.Keys == old(last).Keys
      ensures forall v :: v in last && v != tx ==> last[v] == old(last)[v]
      ensures r.Done? <==> if tx in voided then relaxAssert || tx !in last else tx in last
      ensures !r.Done? || tx in voided ==> last == old(last)
      ensures r.Done? && tx !in voided ==> EndOk(dag, last.Keys, tx, last[tx].end)
    {
      hide WellFormed, Deps, EndOk;
      if tx in voided {
        if !relaxAssert && tx in last {
          return AssertionFailed;
        }
        return Done;
      }
      if tx !in last {
        return KeyError;
      }
      var end := EarliestChild(dag, tx);
      if end != last[tx].end {
        ChildNewer(dag, last.Keys, tx, end);
        SetEnd(tx, end, dag);
      }
      return Done;
    }

    /**
     Removes a vertex and recomputes its parents. With the relaxed assertion an indexed parent that
     is voided is left alone, so the index stays exact if and only if another indexed child of each
     such parent is no later than the removed one.
     */
    method DelTx(dag: Store, voided: set<VertexId>, tx: VertexId, relaxAssert: bool) returns (r: Outcome)
      requires Valid(dag) && tx in dag && dag[tx].isBlock == kind
      modifies this`tree, this`last
      ensures Structured(dag, kind, tree, last)
      ensures r.Done? ==> last.Keys == old(last).Keys - {tx}
      ensures r.Done? ==>
                (Valid(dag) <==> forall p :: tx in old(last) && p in dag[tx].parents && p in last && p in voided ==>
                                   Covered(dag, old(last).Keys, p, tx))
      ensures r.Done? && !relaxAssert ==> Valid(dag)
      ensures tx !in old(last) ==> last == old(last)
      ensures r.Done? <==> || tx !in old(last)
                           || ((relaxAssert || old(last)[tx].end == None)
                               && Ready(dag, kind, voided, old(last).Keys, dag[tx].parents, relaxAssert))
    {
      hide WellFormed, Deps, EndOk, Covered;
      if tx !in last {
        assert last.Keys == last.Keys - {tx};
        return Done;
      }
      var interval := last[tx];
      ghost var members := last.Keys;
      if !relaxAssert && interval.end != None {
        return AssertionFailed;
      }
      assert interval in tree;
      last := last - {tx};
      tree := tree - {interval};
      assert last.Keys == members - {tx};
      NotOwnParent(dag, tx);
      r := UpdateParents(dag, voided, tx, relaxAssert, members);
      if r.Done? {
        ExactIff(dag, voided, members, last, tx);
      }
    }

    method UpdateParents(dag: Store, voided: set<VertexId>, tx: VertexId, relaxAssert: bool,
                         ghost members: set<VertexId>)
      returns (r: Outcome)
      requires WellFormed(dag) && Structured(dag, kind, tree, last) && tx in dag && dag[tx].isBlock == kind
      requires tx in members && last.Keys == members - {tx}
      requires forall v :: v in last ==> EndOk(dag, members, v, last[v].end)
      modifies this`tree, this`last
      ensures Structured(dag, kind, tree, last) && last.Keys == old(last).Keys
      ensures r.Done? ==> Updated(dag, voided, members, last, dag[tx].parents, tx)
      ensures r.Done? && !relaxAssert ==> forall p :: p in dag[tx].parents && p in last ==> p !in voided
      ensures r.Done? <==> Ready(dag, kind, voided, last.Keys, dag[tx].parents, relaxAssert)
    {
      hide WellFormed, Deps, EndOk, Updated, Ready;
      var parents := dag[tx].parents;
      UpdateStart(dag, kind, voided, members, last, tx, relaxAssert);
      var i := 0;
      while i < |parents|
        invariant 0 <= i <= |parents|
        invariant Structured(dag, kind, tree, last) && last.Keys == members - {tx}
        invariant Updated(dag, voided, members, last, parents[..i], tx)
        invariant Ready(dag, kind, voided, last.Keys, parents[..i], relaxAssert)
      {
        var p := parents[i];
        ParentOlder(dag, tx, i);
        assert parents[..i + 1] == parents[..i] + [p];
        ghost var before := last;
        if dag[p].isBlock == kind {
          r := UpdateTx(dag, voided, p, relaxAssert);
          if !r.Done? {
            NotReady(dag, kind, voided, last.Keys, parents, relaxAssert, i);
            return;
          }
        }
        UpdateStep(dag, kind, voided, members, before, last, parents[..i], p, tx, relaxAssert);
        i := i + 1;
      }
      assert parents[..i] == parents;
      StrictReady(dag, kind, voided, last, parents);
      r := Done;
    }
  }

  /** Each parent of the indexed kind is indexed, or it is voided; a voided one that is indexed needs
      the relaxed assertion. */
  ghost predicate Ready(dag: Store, kind: bool, voided: set<VertexId>, members: set<VertexId>,
                        parents: seq<VertexId>, relaxAssert: bool) {
    forall p :: p in parents && p in dag && dag[p].isBlock == kind ==>
      if p in voided then relaxAssert || p !in members else p in members
  }

  lemma {:induction false} NotOwnParent(dag: Store, v: VertexId)
    requires WellFormed(dag) && v in dag
    ensures v !in dag[v].parents
  {
    if v in dag[v].parents {
      var i :| 0 <= i < |dag[v].parents| && dag[v].parents[i] == v;
      ParentOlder(dag, v, i);
    }
  }

  /** After the parents `done` of the removed `tx` were recomputed, except the voided ones. */
  ghost predicate Updated(dag: Store, voided: set<VertexId>, members: set<VertexId>, last: map<VertexId, Interval>,
                          done: seq<VertexId>, tx: VertexId) {
    forall v :: v in last ==>
      EndOk(dag, if v in done && v !in voided then members - {tx} else members, v, last[v].end)
  }

  lemma {:induction false} UpdateStart(dag: Store, kind: bool, voided: set<VertexId>, members: set<VertexId>,
                                       last: map<VertexId, Interval>, tx: VertexId, relaxAssert: bool)
    requires forall v :: v in last ==> EndOk(dag, members, v, last[v].end)
    ensures Updated(dag, voided, members, last, [], tx)
    ensures Ready(dag, kind, voided, last.Keys, [], relaxAssert)
  {
  }

  lemma {:induction false} UpdateStep(dag: Store, kind: bool, voided: set<VertexId>, members: set<VertexId>,
                                      last: map<VertexId, Interval>, last': map<VertexId, Interval>,
                                      done: seq<VertexId>, p: VertexId, tx: VertexId, relaxAssert: bool)
    requires p in dag && Updated(dag, voided, members, last, done, tx) && Ready(dag, kind, voided, last.Keys, done, relaxAssert)
    requires last'.Keys == last.Keys == members - {tx}
    requires forall v :: v in last' && v != p ==> last'[v] == last[v]
    requires p in voided || dag[p].isBlock != kind ==> last' == last
    requires dag[p].isBlock != kind ==> p !in last
    requires dag[p].isBlock == kind ==> if p in voided then relaxAssert || p !in last else p in last
    requires dag[p].isBlock == kind && p !in voided ==> EndOk(dag, last'.Keys, p, last'[p].end)
    ensures Updated(dag, voided, members, last', done + [p], tx)
    ensures Ready(dag, kind, voided, last'.Keys, done + [p], relaxAssert)
  {
    hide EndOk;
    assert p in done + [p];
    assert forall v :: v in done + [p] <==> v in done || v == p;
  }

  lemma {:induction false} NotReady(dag: Store, kind: bool, voided: set<VertexId>, members: set<VertexId>,
                                    parents: seq<VertexId>, relaxAssert: bool, i: nat)
    requires i < |parents| && parents[i] in dag && dag[parents[i]].isBlock == kind
    requires !(if parents[i] in voided then relaxAssert || parents[i] !in members else parents[i] in members)
    ensures !Ready(dag, kind, voided, members, parents, relaxAssert)
  {
    assert parents[i] in parents;
  }

  lemma {:induction false} StrictReady(dag: Store, kind: bool, voided: set<VertexId>,
                                       last: map<VertexId, Interval>, parents: seq<VertexId>)
    requires forall v :: v in last ==> v in dag && dag[v].isBlock == kind
    ensures Ready(dag, kind, voided, last.Keys, parents, false) ==> forall p :: p in parents && p in last ==> p !in voided
  {
  }

  lemma {:induction false} ExactIff(dag: Store, voided: set<VertexId>, members: set<VertexId>,
                                    last: map<VertexId, Interval>, tx: VertexId)
    requires tx in dag && tx in members && last.Keys == members - {tx} && Updated(dag, voided, members, last, dag[tx].parents, tx)
    ensures Exact(dag, last) <==> forall p :: p in dag[tx].parents && p in last && p in voided ==> Covered(dag, members, p, tx)
  {
    hide EndOk, Covered;
    forall v | v in last
      ensures EndOk(dag, last.Keys, v, last[v].end) <==>
              (v in dag[tx].parents && v in voided ==> Covered(dag, members, v, tx))
    {
      if v !in dag[tx].parents || v in voided {
        EndWithoutChild(dag, members, v, last[v].end, tx);
      }
    }
  }

  lemma {:induction false} ParentOlder(dag: Store, v: VertexId, i: nat)
    requires WellFormed(dag) && v in dag && i < |dag[v].parents|
    ensures dag[v].parents[i] in dag && dag[dag[v].parents[i]].timestamp < dag[v].timestamp
    ensures ChildOf(dag, v, dag[v].parents[i]) && dag[v].parents[i] != v
  {
    assert dag[v].parents[i] in Deps(dag, v);
    DepsOlder(dag, v);
  }

  lemma {:induction false} EndRepeats(dag: Store, members: set<VertexId>, v: VertexId, end: Option<nat>, c: VertexId)
    requires c in dag && ChildOf(dag, c, v) && EndOk(dag, members + {c}, v, end)
    ensures !Before(dag[c].timestamp, end)
  {
  }

  /** A child is newer, so its timestamp makes a proper interval; and no vertex is its own child. */
  lemma {:induction false} ChildNewer(dag: Store, members: set<VertexId>, v: VertexId, end: Option<nat>)
    requires WellFormed(dag) && v in dag && EndOk(dag, members, v, end)
    ensures Before(dag[v].timestamp, end) && !ChildOf(dag, v, v)
  {
    if end.Some? {
      var c :| c in members && ChildOf(dag, c, v) && dag[c].timestamp == end.value;
      var i :| 0 <= i < |dag[c].parents| && dag[c].parents[i] == v;
      ParentOlder(dag, c, i);
    }
    if ChildOf(dag, v, v) {
      var i :| 0 <= i < |dag[v].parents| && dag[v].parents[i] == v;
      ParentOlder(dag, v, i);
    }
  }

  /** A deletion that leaves the index wrong: the only child of a voided parent that is still indexed
      goes, with relaxed assertions, and the interval of the parent stays as it was. */
  method StaleParent() returns (index: MemoryTipsIndex, ghost dag: Store, r: Outcome)
    ensures r.Done? && !index.Valid(dag)
  {
    var store: Store := map[
      0 := Vertex(false, 1, 1, [], [], {}),
      1 := Vertex(false, 2, 1, [0], [], {})];
    dag := store;
    TwoVertices(store);
    index := new MemoryTipsIndex(false, store);
    var added := index.AddTx(store, 0);
    added := index.AddTx(store, 1);
    r := index.DelTx(store, {0}, 1, true);
    assert !Covered(store, {0, 1}, 0, 1);
  }

  lemma {:induction false} TwoVertices(dag: Store)
    requires dag == map[0 := Vertex(false, 1, 1, [], [], {}), 1 := Vertex(false, 2, 1, [0], [], {})]
    ensures WellFormed(dag)
  {
    assert Deps(dag, 0) == {};
    forall d | d in Deps(dag, 1)
      ensures d == 0
    {
    }
    assert Connected(dag, 0) && Connected(dag, 1) && Shaped(dag, 0) && Shaped(dag, 1);
  }
}
