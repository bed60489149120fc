/** What the nodes refer to after the filler: whether they can be put in order once more. */
module FillerGraph {
  import opened Wrappers
  import opened Sequences
  import opened DagNodes
  import opened Balances
  import opened NodeBalance
  import opened FillerProgress
  import T = TopologicalSort

  // ----- the condition, seen in the description -----

  /** The genesis nodes are there and depend on nothing, and the dummy is an ordinary transaction. */
  ghost predicate Plain(nodes: Nodes) {
    && DUMMY in nodes && nodes[DUMMY].kind == Transaction
    && forall g :: g in GENESIS_NAMES ==> g in nodes && nodes[g].kind == Genesis && AllDependencies(nodes[g]) == {}
  }

  /** A node that comes to depend on the dummy, if the dummy is used. */
  ghost predicate Ordinary(nodes: Nodes, n: Name) {
    n in nodes && n != DUMMY && nodes[n].kind !in {Block, Genesis}
  }

  /** The dummy depends on such a node. */
  ghost predicate ReachesOrdinary(nodes: Nodes) {
    exists p :: T.Path(nodes, p) && |p| >= 2 && p[0] == DUMMY && Ordinary(nodes, p[|p| - 1])
  }

  /** What a node refers to other than by spending, or in any way if it is a genesis node. */
  ghost function Named(node: Node): set<Name> {
    if node.kind == Genesis then AllDependencies(node) else node.parents + node.deps
  }

  /** Some node refers to the dummy, and not only to spend from it. */
  ghost predicate NamesDummy(nodes: Nodes) {
    exists n :: n in nodes && n != DUMMY && DUMMY in Named(nodes[n])
  }

  // ----- what one step refers to -----

  ghost function NewParents(nodes: Nodes, n: Name): set<Name>
    requires n in nodes
  {
    if nodes[n].kind == Genesis then {}
    else if nodes[n].kind == Block then
      GENESIS_NAMES + set p, d | p in nodes[n].parents && p in nodes && nodes[p].kind == Block && d in nodes[p].parents :: d
    else GENESIS_NAMES
  }

  ghost function NewHomes(nodes: Nodes, n: Name): iset<Name>
    requires n in nodes
  {
    if BalancedHere(nodes, n) then Homes(nodes, n) else if nodes[n].kind == Token then iset{DUMMY} else iset{}
  }

  /** What completing `n` adds to what the nodes refer to. */
  ghost predicate Rewired(nodes: Nodes, nodes': Nodes, n: Name) {
    && n in nodes && nodes'.Keys <= nodes.Keys + nodes[n].parents
    && if n == DUMMY then nodes' == nodes else Wired(nodes, nodes', n, NewParents(nodes, n), NewHomes(nodes, n))
  }

  // ----- what every step keeps -----

  ghost function Rank(order: seq<Name>, x: Name): nat
    requires x in order
  {
    if x in GENESIS_NAMES then 0 else 1 + T.Position(order, x)
  }

  ghost predicate Lower(order: seq<Name>, n: Name, d: Name) {
    n in order && d in order && (d == DUMMY || Rank(order, d) < Rank(order, n))
  }

  /** Every node refers to lower ones only, or to the dummy. */
  ghost predicate Descends(order: seq<Name>, nodes: Nodes) {
    forall n, d :: n in nodes && d in AllDependencies(nodes[n]) ==> Lower(order, n, d)
  }

  /** From the set there is no way out, and none to the dummy. */
  ghost predicate Inside(nodes: Nodes, s: set<Name>) {
    forall x :: x in s ==> x in nodes && AllDependencies(nodes[x]) <= s - {DUMMY}
  }

  /** Nothing in the set is ordinary. */
  ghost predicate Closed(nodes: Nodes, s: set<Name>) {
    && Inside(nodes, s) && GENESIS_NAMES <= s && DUMMY in s
    && forall x :: x in s ==> !Ordinary(nodes, x)
  }

  ghost predicate Includes(a: Nodes, b: Nodes) {
    forall n :: n in a ==> n in b && AllDependencies(a[n]) <= AllDependencies(b[n])
  }

  ghost predicate Traced(filled: Nodes, order: seq<Name>, nodes: Nodes, s: set<Name>) {
    && nodes.Keys == filled.Keys && (forall n :: n in filled ==> nodes[n].kind == filled[n].kind)
    && Includes(filled, nodes) && Descends(order, nodes)
    && (!NamesDummy(filled) ==> !NamesDummy(nodes))
    && (Closed(filled, s) ==> Closed(nodes, s))
  }

  lemma {:induction false} TracedStart(filled: Nodes, order: seq<Name>, s: set<Name>)
    requires T.TopologicalOrder(filled, order) && Plain(filled)
    ensures Traced(filled, order, filled, s)
  {
    forall n, d | n in filled && d in AllDependencies(filled[n])
      ensures Lower(order, n, d)
    {
      assert n in ToSet(order);
      var i := T.Position(order, n);
      assert d in ToSet(order[..i]);
      assert T.Position(order, d) < i;
    }
  }

  /** A node refers to what it did, to its new parents and to the homes of what it takes. */
  lemma {:induction false} ReferredTo(a: Node, b: Node, parents: set<Name>, homes: iset<Name>)
    requires Refers(a, b, parents, homes)
    ensures AllDependencies(a) <= AllDependencies(b)
    ensures forall d :: d in AllDependencies(b) && d !in AllDependencies(a) ==> d in parents || d in homes
  {
  }

  lemma {:induction false} SameReferred(a: Node, b: Node)
    requires Refers(a, b, {}, iset{})
    ensures AllDependencies(b) == AllDependencies(a) && b.parents == a.parents && b.deps == a.deps
  {
    ReferredTo(a, b, {}, iset{});
  }

  /** A step makes only the completed node and the dummy refer to more. */
  lemma {:induction false} NewReference(nodes: Nodes, nodes': Nodes, n: Name, m: Name, d: Name)
    requires Rewired(nodes, nodes', n) && n != DUMMY && m in nodes && m in nodes'
    requires d in AllDependencies(nodes'[m]) && d !in AllDependencies(nodes[m])
    ensures m == DUMMY ==> d in GENESIS_NAMES
    ensures m != DUMMY ==> m == n && (d in NewParents(nodes, n) || d in NewHomes(nodes, n))
  {
    hide AllDependencies, Homes, NewParents, NewHomes, Refers;
    if m == DUMMY {
      ReferredTo(nodes[m], nodes'[m], GENESIS_NAMES, iset{GENESIS_BLOCK});
    } else if m == n {
      ReferredTo(nodes[m], nodes'[m], NewParents(nodes, n), NewHomes(nodes, n));
    } else {
      SameReferred(nodes[m], nodes'[m]);
    }
  }

  lemma {:induction false} IncludesStep(nodes: Nodes, nodes': Nodes, n: Name)
    requires Rewired(nodes, nodes', n)
    ensures Includes(nodes, nodes')
  {
    hide AllDependencies, Refers;
    if n != DUMMY {
      forall m | m in nodes
        ensures AllDependencies(nodes[m]) <= AllDependencies(nodes'[m])
      {
        if m == DUMMY {
          ReferredTo(nodes[m], nodes'[m], GENESIS_NAMES, iset{GENESIS_BLOCK});
        } else if m == n {
          ReferredTo(nodes[m], nodes'[m], NewParents(nodes, n), NewHomes(nodes, n));
        } else {
          SameReferred(nodes[m], nodes'[m]);
        }
      }
    }
  }

  /** What a node is short of comes before it. */
  ghost predicate ShortOfLower(order: seq<Name>, nodes: Nodes, n: Name) {
    forall h :: n in nodes && BalancedHere(nodes, n) && h != HTR && Short(nodes, n, h) ==> Lower(order, n, h)
  }

  lemma {:induction false} DescendsStep(order: seq<Name>, nodes: Nodes, nodes': Nodes, n: Name)
    requires Descends(order, nodes) && Rewired(nodes, nodes', n) && n != DUMMY && nodes'.Keys == nodes.Keys
    requires (forall x :: x in nodes ==> x in order) && PlainKinds(nodes) && ShortOfLower(order, nodes, n)
    ensures Descends(order, nodes')
  {
    hide AllDependencies, Rewired, BalancedHere, Short;
    forall m, d | m in nodes' && d in AllDependencies(nodes'[m])
      ensures Lower(order, m, d)
    {
      if d !in AllDependencies(nodes[m]) {
        NewReference(nodes, nodes', n, m, d);
        if d !in GENESIS_NAMES && m != DUMMY && d in NewParents(nodes, n) {
          ThroughBlock(order, nodes, n, d);
        }
      }
    }
  }

  /** The genesis nodes, and the dummy, are what they are called. */
  ghost predicate PlainKinds(nodes: Nodes) {
    && DUMMY in nodes && nodes[DUMMY].kind == Transaction
    && forall g :: g in GENESIS_NAMES ==> g in nodes && nodes[g].kind == Genesis
  }

  lemma {:induction false} ThroughBlock(order: seq<Name>, nodes: Nodes, n: Name, d: Name)
    requires Descends(order, nodes) && PlainKinds(nodes) && n in nodes && d in NewParents(nodes, n) && d !in GENESIS_NAMES
    ensures Lower(order, n, d)
  {
    var p :| p in nodes[n].parents && p in nodes && nodes[p].kind == Block && d in nodes[p].parents;
    assert p in AllDependencies(nodes[n]) && d in AllDependencies(nodes[p]);
  }

  lemma {:induction false} ClosedStep(nodes: Nodes, nodes': Nodes, n: Name, s: set<Name>)
    requires Closed(nodes, s) && Rewired(nodes, nodes', n) && n != DUMMY && nodes'.Keys == nodes.Keys
    requires forall m :: m in nodes ==> nodes'[m].kind == nodes[m].kind
    ensures Closed(nodes', s)
  {
    hide AllDependencies, Rewired, Homes;
    forall x, d | x in s && d in AllDependencies(nodes'[x])
      ensures d in s - {DUMMY}
    {
      if d !in AllDependencies(nodes[x]) {
        NewReference(nodes, nodes', n, x, d);
        if d !in GENESIS_NAMES && x == n {
          assert !Ordinary(nodes, n);
          WithinBlock(nodes, n, d, s);
        }
      }
    }
    forall x | x in s
      ensures !Ordinary(nodes', x)
    {
      assert !Ordinary(nodes, x);
    }
  }

  lemma {:induction false} WithinBlock(nodes: Nodes, n: Name, d: Name, s: set<Name>)
    requires Inside(nodes, s) && n in s && n in nodes && d in NewParents(nodes, n) && d !in GENESIS_NAMES
    ensures d in s - {DUMMY}
  {
    var p :| p in nodes[n].parents && p in nodes && nodes[p].kind == Block && d in nodes[p].parents;
    assert p in AllDependencies(nodes[n]) && d in AllDependencies(nodes[p]);
  }

  lemma {:induction false} NamesStep(nodes: Nodes, nodes': Nodes, n: Name)
    requires !NamesDummy(nodes) && Rewired(nodes, nodes', n) && n != DUMMY && nodes'.Keys == nodes.Keys && PlainKinds(nodes)
    requires forall m :: m in nodes ==> nodes'[m].kind == nodes[m].kind
    ensures !NamesDummy(nodes')
  {
    hide Homes;
    forall x | x in nodes' && x != DUMMY
      ensures DUMMY !in Named(nodes'[x])
    {
      assert DUMMY !in Named(nodes[x]);
    }
  }

  lemma {:induction false} KeysStep(order: seq<Name>, nodes: Nodes, nodes': Nodes, n: Name)
    requires Descends(order, nodes) && Rewired(nodes, nodes', n) && forall x :: x in nodes <==> x in order
    ensures nodes'.Keys == nodes.Keys
  {
    hide Homes, NewHomes, NewParents, Refers;
    forall d | d in nodes[n].parents
      ensures d in nodes
    {
      assert d in AllDependencies(nodes[n]);
      assert Lower(order, n, d);
    }
  }

  /** Each step keeps all of it. */
  lemma {:induction false} TracedStep(filled: Nodes, order: seq<Name>, nodes: Nodes, nodes': Nodes, n: Name, s: set<Name>)
    requires T.TopologicalOrder(filled, order) && Plain(filled) && Traced(filled, order, nodes, s) && Rewired(nodes, nodes', n)
    requires forall m :: m in nodes ==> m in nodes' && nodes'[m].kind == nodes[m].kind
    requires ShortOfLower(order, nodes, n)
    ensures Traced(filled, order, nodes', s)
  {
    hide Descends, Rewired, Closed, NamesDummy, AllDependencies, ShortOfLower, T.Ordered;
    assert forall x :: x in nodes <==> x in ToSet(order);
    KeysStep(order, nodes, nodes', n);
    IncludesStep(nodes, nodes', n);
    if n == DUMMY {
      RewiredDummy(nodes, nodes');
    } else {
      DescendsStep(order, nodes, nodes', n);
      if Closed(nodes, s) {
        ClosedStep(nodes, nodes', n, s);
      }
      if !NamesDummy(nodes) {
        NamesStep(nodes, nodes', n);
      }
    }
  }

  lemma {:induction false} RewiredDummy(nodes: Nodes, nodes': Nodes)
    requires Rewired(nodes, nodes', DUMMY)
    ensures nodes' == nodes
  {
  }

  /** In the run, a node is only short of what comes before it. */
  lemma {:induction false} RunShortOfLower(deposit: int -> int, issued: int, filled: Nodes, order: seq<Name>, k: nat, nodes: Nodes,
                                           done: set<Name>)
    requires T.TopologicalOrder(filled, order) && k < |order| && order[k] != DUMMY
    requires Before(filled, nodes, ToSet(order[..k]), done, order[k]) && PlainKinds(nodes)
    requires Collected(deposit, issued, filled, nodes, ToSet(order[..k]), done)
    ensures ShortOfLower(order, nodes, order[k])
  {
    hide AllDependencies, Net, Target, AlmostTyped, Extends, DummyPure, DrainedBy, Settled, Waiting, Prepared, DepsInside, ToSet;
    var n, s := order[k], ToSet(order[..k]);
    NotDrainedYet(filled, nodes, s, done, n);
    DrainedByMore(filled, done, n, n);
    forall h | n in nodes && BalancedHere(nodes, n) && h != HTR && Short(nodes, n, h)
      ensures Lower(order, n, h)
    {
      WaitingNet(filled, nodes, done, n, h);
      if h !in s {
        ForeignPrepared(filled, s, n, h);
      }
      EarlierIsLower(filled, order, k, h);
    }
  }

  lemma {:induction false} ForeignPrepared(filled: Nodes, s: set<Name>, n: Name, h: Name)
    requires Prepared(filled) && DepsInside(filled, s) && n in filled && AllDependencies(filled[n]) <= s && h !in s && h != HTR
    ensures Net(filled, n, h) == Target(filled[n], h)
  {
    hide Net, Target, AllDependencies, AlmostTyped;
    Foreign(filled, s, n, h);
  }

  lemma {:induction false} EarlierIsLower(filled: Nodes, order: seq<Name>, k: nat, h: Name)
    requires T.TopologicalOrder(filled, order) && k < |order| && h in ToSet(order[..k])
    ensures order[k] in GENESIS_NAMES || Lower(order, order[k], h)
  {
    hide AllDependencies;
    assert order[k] in order && h in order;
    assert T.Position(order, order[k]) == k;
    var j :| 0 <= j < k && order[j] == h;
    assert T.Position(order, h) == j;
  }

  // ----- the end -----

  /** The dummy is gone, or everything ordinary depends on it. */
  ghost predicate Linked(nodes: Nodes, nodes': Nodes) {
    if DUMMY in nodes' then
      && nodes'.Keys == nodes.Keys
      && forall n :: n in nodes ==>
           AllDependencies(nodes'[n]) == if Ordinary(nodes, n) then AllDependencies(nodes[n]) + {DUMMY} else AllDependencies(nodes[n])
    else nodes' == nodes - {DUMMY}
  }

  /** Everything the dummy reaches, and genesis. */
  ghost function Reached(nodes: Nodes): (s: set<Name>)
    ensures GENESIS_NAMES <= s
  {
    GENESIS_NAMES + set x | x in nodes && ReachedBy(nodes, x)
  }

  ghost predicate ReachedBy(nodes: Nodes, x: Name) {
    exists p :: T.Path(nodes, p) && p != [] && p[0] == DUMMY && p[|p| - 1] == x
  }

  lemma {:induction false} ReachedFurther(nodes: Nodes, x: Name, d: Name)
    requires x in nodes && ReachedBy(nodes, x) && d in AllDependencies(nodes[x]) && d in nodes && !T.Cyclic(nodes)
    ensures ReachedBy(nodes, d) && d != DUMMY
    ensures !ReachesOrdinary(nodes) ==> !Ordinary(nodes, d)
  {
    hide AllDependencies;
    var p :| T.Path(nodes, p) && p != [] && p[0] == DUMMY && p[|p| - 1] == x;
    var q := p + [d];
    assert T.Path(nodes, q) && q[0] == DUMMY && q[|q| - 1] == d;
    assert d == DUMMY ==> T.Cycle(nodes, q);
  }

  lemma {:induction false} ReachedClosed(nodes: Nodes)
    requires Plain(nodes) && !T.Cyclic(nodes) && !T.Missing(nodes) && !ReachesOrdinary(nodes)
    ensures Closed(nodes, Reached(nodes))
  {
    hide AllDependencies, T.Cyclic, ReachedBy, ReachesOrdinary;
    assert ReachedBy(nodes, DUMMY) by { ReachesItself(nodes); }
    forall x, d | x in Reached(nodes) && d in AllDependencies(nodes[x])
      ensures d in Reached(nodes) - {DUMMY}
    {
      assert d in nodes;
      ReachedFurther(nodes, x, d);
    }
    forall x | x in Reached(nodes)
      ensures !Ordinary(nodes, x)
    {
      if x !in GENESIS_NAMES {
        ReachedNotOrdinary(nodes, x);
      }
    }
  }

  lemma {:induction false} ReachesItself(nodes: Nodes)
    requires DUMMY in nodes
    ensures ReachedBy(nodes, DUMMY)
  {
    var p := [DUMMY];
    assert T.Path(nodes, p);
  }

  lemma {:induction false} ReachedNotOrdinary(nodes: Nodes, x: Name)
    requires ReachedBy(nodes, x) && !ReachesOrdinary(nodes)
    ensures !Ordinary(nodes, x)
  {
    hide AllDependencies;
    var p :| T.Path(nodes, p) && p != [] && p[0] == DUMMY && p[|p| - 1] == x;
  }

  /** A path that avoids the dummy only goes down. */
  lemma {:induction false} PathLower(order: seq<Name>, nodes: Nodes, p: seq<Name>, k: nat)
    requires Descends(order, nodes) && T.Path(nodes, p) && 0 < k < |p| && forall i :: 0 < i < |p| ==> p[i] != DUMMY
    ensures p[0] in order && p[k] in order && Rank(order, p[k]) < Rank(order, p[0])
  {
    hide AllDependencies, Rank;
    assert Lower(order, p[k - 1], p[k]);
    if k > 1 {
      PathLower(order, nodes, p, k - 1);
    }
  }

  /** A path from the set stays in it, and never comes to the dummy. */
  lemma {:induction false} PathInside(nodes: Nodes, s: set<Name>, p: seq<Name>, k: nat)
    requires Inside(nodes, s) && T.Path(nodes, p) && 0 < k < |p| && p[0] in s
    ensures p[k] in s && p[k] != DUMMY
  {
    hide AllDependencies;
    assert p[k] in AllDependencies(nodes[p[k - 1]]);
    if k > 1 {
      PathInside(nodes, s, p, k - 1);
    }
  }

  /** A cycle can be entered anywhere. */
  lemma {:induction false} Rotated(nodes: Nodes, p: seq<Name>, i: nat) returns (q: seq<Name>)
    requires T.Cycle(nodes, p) && i < |p| - 1
    ensures T.Cycle(nodes, q) && q[0] == p[i]
  {
    hide AllDependencies;
    q := p[i..] + p[1..i + 1];
    assert q[|q| - 1] == p[i];
    forall k | 0 < k < |q|
      ensures q[k] in AllDependencies(nodes[q[k - 1]])
    {
      if k < |p| - i {
        assert q[k] == p[i + k] && q[k - 1] == p[i + k - 1];
      } else {
        assert q[k] == p[k - (|p| - i) + 1];
        assert q[k - 1] == p[k - (|p| - i)];
      }
    }
  }

  /** A cycle goes through the dummy, which can then reach itself. */
  lemma {:induction false} NoCycle(order: seq<Name>, nodes: Nodes, s: set<Name>)
    requires Descends(order, nodes) && (DUMMY !in nodes || (Inside(nodes, s) && DUMMY in s))
    ensures !T.Cyclic(nodes)
  {
    hide AllDependencies, Descends, Inside, Rank;
    forall p | T.Cycle(nodes, p)
      ensures false
    {
      if i :| 0 <= i < |p| - 1 && p[i] == DUMMY {
        var q := Rotated(nodes, p, i);
        PathInside(nodes, s, q, |q| - 1);
      } else {
        PathLower(order, nodes, p, |p| - 1);
      }
    }
  }

  lemma {:induction false} LinkedDescends(order: seq<Name>, nodes: Nodes, nodes': Nodes)
    requires Descends(order, nodes) && Linked(nodes, nodes') && DUMMY in nodes && forall n :: n in nodes ==> n in order
    ensures Descends(order, nodes')
  {
    hide AllDependencies, Rank;
    forall n, d | n in nodes' && d in AllDependencies(nodes'[n])
      ensures Lower(order, n, d)
    {
      if d in AllDependencies(nodes[n]) {
        assert Lower(order, n, d);
      }
    }
  }

  lemma {:induction false} LinkedInside(nodes: Nodes, nodes': Nodes, s: set<Name>)
    requires Closed(nodes, s) && Linked(nodes, nodes') && DUMMY in nodes'
    ensures Inside(nodes', s)
  {
    hide AllDependencies;
    forall x | x in s
      ensures x in nodes' && AllDependencies(nodes'[x]) <= s - {DUMMY}
    {
      assert !Ordinary(nodes, x);
    }
  }

  /** A path from the dummy to an ordinary node is closed by the dependency that node is given. */
  lemma {:induction false} LinkedCycle(filled: Nodes, nodes: Nodes, nodes': Nodes)
    requires Includes(filled, nodes) && Linked(nodes, nodes') && DUMMY in nodes' && ReachesOrdinary(filled)
    requires forall n :: n in filled ==> n in nodes && nodes[n].kind == filled[n].kind
    ensures T.Cyclic(nodes')
  {
    hide AllDependencies;
    var p :| T.Path(filled, p) && |p| >= 2 && p[0] == DUMMY && Ordinary(filled, p[|p| - 1]);
    var q := p + [DUMMY];
    assert Ordinary(nodes, p[|p| - 1]);
    forall i | 0 < i < |q|
      ensures q[i] in AllDependencies(nodes'[q[i - 1]])
    {
      if i < |p| {
        assert p[i] in AllDependencies(filled[p[i - 1]]);
      }
    }
    assert T.Cycle(nodes', q);
  }

  /** No input of a completed node leads to an unused dummy. */
  lemma {:induction false} NotFromDummy(deposit: int -> int, issued: int, nodes: Nodes, n: Name, drained: bool)
    requires DUMMY in nodes && nodes[DUMMY].outputs == [] && n in nodes && n != DUMMY && Settled(deposit, issued, nodes, n, drained)
    requires nodes[n].kind != Unknown
    ensures DUMMY in AllDependencies(nodes[n]) ==> DUMMY in Named(nodes[n])
  {
    hide Net;
    if nodes[n].kind != Genesis {
      assert Resolved(nodes, n);
      forall i | i in nodes[n].inputs
        ensures i.node != DUMMY
      {
        assert Slot(nodes, i).Some?;
      }
    }
  }

  /** What is settled before the end. */
  ghost predicate AllDone(deposit: int -> int, issued: int, filled: Nodes, done: set<Name>, nodes: Nodes) {
    forall n :: n in filled && n != DUMMY ==>
      n in nodes && nodes[n].kind != Unknown && Settled(deposit, issued, nodes, n, DrainedBy(filled, done, n))
  }

  lemma {:induction false} LinkedMissing(deposit: int -> int, issued: int, filled: Nodes, order: seq<Name>, done: set<Name>, nodes: Nodes,
                                         nodes': Nodes)
    requires Includes(filled, nodes) && Descends(order, nodes) && (!NamesDummy(filled) ==> !NamesDummy(nodes))
    requires (forall n :: n in order <==> n in nodes) && nodes.Keys == filled.Keys && DUMMY in nodes && Linked(nodes, nodes')
    requires AllDone(deposit, issued, filled, done, nodes) && (DUMMY !in nodes' ==> nodes[DUMMY].outputs == [])
    ensures T.Missing(nodes') <==> DUMMY !in nodes' && NamesDummy(filled)
  {
    hide AllDependencies, Settled, DrainedBy, Rank, Named;
    LinkedDescends(order, nodes, nodes');
    if n, d :| n in nodes' && d in AllDependencies(nodes'[n]) && d !in nodes' {
      assert Lower(order, n, d);
      NotFromDummy(deposit, issued, nodes, n, DrainedBy(filled, done, n));
    }
    if DUMMY !in nodes' && NamesDummy(filled) {
      var n :| n in filled && n != DUMMY && DUMMY in Named(filled[n]);
      NamedIsReferred(filled[n]);
      assert DUMMY in AllDependencies(nodes'[n]);
    }
  }

  lemma {:induction false} NamedIsReferred(node: Node)
    ensures Named(node) <= AllDependencies(node)
  {
  }

  /** The nodes after the filler can be put in order, unless the dummy is missing or closes a cycle. */
  lemma {:induction false} GraphAtEnd(deposit: int -> int, issued: int, filled: Nodes, order: seq<Name>, done: set<Name>, nodes: Nodes,
                                      nodes': Nodes)
    requires T.TopologicalOrder(filled, order) && Plain(filled) && Traced(filled, order, nodes, Reached(filled))
    requires AllDone(deposit, issued, filled, done, nodes) && Linked(nodes, nodes')
    requires DUMMY !in nodes' ==> nodes[DUMMY].outputs == []
    ensures T.Missing(nodes') <==> DUMMY !in nodes' && NamesDummy(filled)
    ensures T.Cyclic(nodes') <==> DUMMY in nodes' && ReachesOrdinary(filled)
  {
    hide AllDependencies, Descends, Inside, NamesDummy, T.Ordered, AllDone, T.Cyclic, T.Missing, ReachesOrdinary, Linked;
    assert forall n :: n in order <==> n in ToSet(order);
    LinkedMissing(deposit, issued, filled, order, done, nodes, nodes');
    if DUMMY in nodes' && ReachesOrdinary(filled) {
      LinkedCycle(filled, nodes, nodes');
    } else {
      if DUMMY in nodes' {
        T.OrderedIsSound(filled, order);
        ReachedClosed(filled);
        LinkedInside(nodes, nodes', Reached(filled));
      }
      LinkedDescends(order, nodes, nodes');
      NoCycle(order, nodes', Reached(filled));
    }
  }

  // ----- the description and the nodes without gaps -----

  /** Filling gaps changes nothing about all this. */
  lemma {:induction false} SameGraph(nodes: Nodes, filled: Nodes)
    requires PreparedFrom(nodes, filled)
    ensures Plain(nodes) ==> Plain(filled)
    ensures NamesDummy(nodes) <==> NamesDummy(filled)
    ensures ReachesOrdinary(nodes) <==> ReachesOrdinary(filled)
  {
    hide GapsFilled, AllDependencies, Named;
    forall n | n in nodes
      ensures AllDependencies(filled[n]) == AllDependencies(nodes[n]) && (Ordinary(filled, n) <==> Ordinary(nodes, n))
      ensures filled[n].kind == Genesis <==> nodes[n].kind == Genesis
      ensures Named(filled[n]) == Named(nodes[n])
    {
      SameNode(nodes, filled, n);
    }
    SamePaths(nodes, filled);
    SamePaths(filled, nodes);
    assert DUMMY in nodes ==> NodeFilled(nodes[DUMMY := Known(nodes[DUMMY])], DUMMY, filled[DUMMY]);
  }

  lemma {:induction false} SameNode(nodes: Nodes, filled: Nodes, n: Name)
    requires PreparedFrom(nodes, filled) && n in nodes
    ensures AllDependencies(filled[n]) == AllDependencies(nodes[n]) && (Ordinary(filled, n) <==> Ordinary(nodes, n))
    ensures (filled[n].kind == Genesis <==> nodes[n].kind == Genesis) && Named(filled[n]) == Named(nodes[n])
  {
    hide GapsFilled;
    assert NodeFilled(nodes[n := Known(nodes[n])], n, filled[n]);
  }

  lemma {:induction false} SamePaths(a: Nodes, b: Nodes)
    requires a.Keys == b.Keys
    requires forall n :: n in a ==> AllDependencies(b[n]) == AllDependencies(a[n]) && (Ordinary(b, n) <==> Ordinary(a, n))
    ensures ReachesOrdinary(a) ==> ReachesOrdinary(b)
  {
    hide AllDependencies, Ordinary;
    if p :| T.Path(a, p) && |p| >= 2 && p[0] == DUMMY && Ordinary(a, p[|p| - 1]) {
      assert T.Path(b, p);
    }
  }

  // ----- the steps of the filler -----

  lemma {:induction false} WiredMore(nodes: Nodes, nodes': Nodes, n: Name, parents: set<Name>, homes: iset<Name>, parents': set<Name>,
                                     homes': iset<Name>)
    requires Wired(nodes, nodes', n, parents, homes) && parents <= parents' && homes <= homes'
    ensures Wired(nodes, nodes', n, parents', homes')
  {
  }

  lemma {:induction false} RewiredParents(nodes: Nodes, nodes': Nodes, n: Name)
    requires n in nodes && n in nodes' && n != DUMMY && nodes' == nodes[n := nodes[n].(parents := nodes'[n].parents)]
    requires nodes[n].parents <= nodes'[n].parents <= nodes[n].parents + NewParents(nodes, n)
    ensures Rewired(nodes, nodes', n)
  {
    hide Homes, NewHomes, NewParents;
  }

  lemma {:induction false} RewiredBlock(nodes: Nodes, nodes': Nodes, n: Name, parent: Option<Name>, candidates: set<Name>)
    requires n in nodes && n in nodes' && n != DUMMY && nodes[n].kind == Block && nodes'.Keys <= nodes.Keys + nodes[n].parents
    requires nodes'[n] == nodes[n].(parents := nodes'[n].parents)
    requires forall m :: m in nodes && m != n ==> m in nodes' && nodes'[m] == nodes[m]
    requires parent.Some? ==> IsParentBlock(nodes, n, parent.value) && candidates <= nodes[parent.value].parents
    requires parent.None? ==> candidates == {}
    requires nodes[n].parents <= nodes'[n].parents <= nodes[n].parents + {GENESIS_BLOCK} + SourceSet(candidates)
    ensures Rewired(nodes, nodes', n)
  {
    hide Homes, NewHomes;
    forall d | d in candidates
      ensures d in NewParents(nodes, n)
    {
      assert parent.value in nodes[n].parents;
    }
  }

  lemma {:induction false} RewiredOutputs(nodes: Nodes, middle: Nodes, nodes': Nodes, n: Name)
    requires Rewired(nodes, middle, n) && n != DUMMY && n in middle && n in nodes'
    requires nodes' == middle[n := middle[n].(outputs := nodes'[n].outputs)]
    ensures Rewired(nodes, nodes', n)
  {
    hide Homes, NewHomes, NewParents, Refers, Wired;
    WiredOutputs(middle, n, nodes', n, NewParents(nodes, n), NewHomes(nodes, n));
    WiredTransitive(nodes, middle, nodes', n, NewParents(nodes, n), NewHomes(nodes, n));
  }

  lemma {:induction false} RewiredBalanced(nodes: Nodes, middle: Nodes, nodes': Nodes, n: Name)
    requires n in nodes && n in middle && n != DUMMY && BalancedHere(nodes, n) && nodes'.Keys == nodes.Keys
    requires Rewired(nodes, middle, n) && Wired(middle, nodes', n, {}, Homes(middle, n))
    requires forall t :: Net(middle, n, t) == Net(nodes, n, t) && Target(middle[n], t) == Target(nodes[n], t)
    ensures Rewired(nodes, nodes', n)
  {
    hide NewParents, Refers, Wired, Net, Target;
    assert Homes(middle, n) == Homes(nodes, n);
    WiredMore(middle, nodes', n, {}, Homes(middle, n), NewParents(nodes, n), NewHomes(nodes, n));
    WiredTransitive(nodes, middle, nodes', n, NewParents(nodes, n), NewHomes(nodes, n));
  }

  lemma {:induction false} RewiredToken(nodes: Nodes, taken: Nodes, nodes': Nodes, n: Name, i: Input)
    requires n in nodes && n in taken && n != DUMMY && nodes[n].kind == Token && nodes'.Keys == nodes.Keys && i.node == DUMMY
    requires Wired(nodes, taken, n, {}, iset{DUMMY}) && nodes' == taken[n := taken[n].(inputs := taken[n].inputs + {i})]
    ensures Rewired(nodes, nodes', n)
  {
    hide NewParents, Refers, Wired, Homes;
    WiredInput(taken, n, i, nodes', {}, iset{DUMMY});
    WiredTransitive(nodes, taken, nodes', n, {}, iset{DUMMY});
    WiredMore(nodes, nodes', n, {}, iset{DUMMY}, NewParents(nodes, n), NewHomes(nodes, n));
  }

  lemma {:induction false} RewiredSelf(nodes: Nodes, n: Name)
    requires n in nodes
    ensures Rewired(nodes, nodes, n)
  {
    hide NewParents, NewHomes, Refers, Wired;
    WiredSelf(nodes, n, NewParents(nodes, n), NewHomes(nodes, n));
  }

  /** Completing the next node in the order. */
  lemma {:induction false} TraceNext(deposit: int -> int, issued: int, filled: Nodes, order: seq<Name>, k: nat, nodes: Nodes,
                                     done: set<Name>, nodes': Nodes, s: set<Name>)
    requires T.TopologicalOrder(filled, order) && Plain(filled) && k < |order|
    requires Before(filled, nodes, ToSet(order[..k]), done, order[k])
    requires Collected(deposit, issued, filled, nodes, ToSet(order[..k]), done)
    requires Traced(filled, order, nodes, s) && Rewired(nodes, nodes', order[k])
    requires forall m :: m in nodes ==> m in nodes' && nodes'[m].kind == nodes[m].kind
    ensures Traced(filled, order, nodes', s)
  {
    hide T.TopologicalOrder, Before, Collected, Rewired, Includes, Descends, Closed, NamesDummy, ToSet, AllDependencies, Short;
    if order[k] != DUMMY {
      RunShortOfLower(deposit, issued, filled, order, k, nodes, done);
    }
    TracedStep(filled, order, nodes, nodes', order[k], s);
  }

  /** Completing a token node. */
  lemma {:induction false} TraceToken(filled: Nodes, order: seq<Name>, nodes: Nodes, nodes': Nodes, n: Name, s: set<Name>)
    requires T.TopologicalOrder(filled, order) && Plain(filled) && Traced(filled, order, nodes, s) && Rewired(nodes, nodes', n)
    requires n in nodes && nodes[n].kind == Token && forall m :: m in nodes ==> m in nodes' && nodes'[m].kind == nodes[m].kind
    ensures Traced(filled, order, nodes', s)
  {
    hide T.TopologicalOrder, Rewired, Traced, Plain, Short;
    TracedStep(filled, order, nodes, nodes', n, s);
  }

  lemma {:induction false} CandidatesWithin(nodes: Nodes, parent: Option<Name>)
    ensures parent.Some? && parent.value in nodes ==> Candidates(nodes, parent.value) <= nodes[parent.value].parents
  {
  }

  lemma {:induction false} DummyIsNoBlock(nodes: Nodes)
    requires Typed(nodes)
    ensures DUMMY in nodes && nodes[DUMMY].kind != Block
  {
  }

  lemma {:induction false} GenesisParents(nodes: Nodes, n: Name)
    requires n in nodes && nodes[n].kind !in {Genesis, Block}
    ensures ToSet(Sources([])) <= NewParents(nodes, n)
  {
  }

  lemma {:induction false} ReachedKeys(nodes: Nodes, nodes': Nodes, n: Name, target: int)
    requires HtrReached(nodes, nodes', n, target)
    ensures nodes'.Keys == nodes.Keys
  {
  }

  lemma {:induction false} PlainDummy(filled: Nodes, nodes: Nodes)
    requires Plain(filled) && Grown(filled, nodes)
    ensures DUMMY in nodes && nodes[DUMMY].kind == Transaction
  {
  }

  lemma {:induction false} FilledLinks(nodes: Nodes, cleared: Nodes, nodes': Nodes)
    requires DummyFilled(nodes, cleared) && nodes'.Keys == cleared.Keys
    requires DUMMY !in cleared ==> nodes' == cleared
    requires DUMMY in cleared ==> forall n :: n in cleared ==>
               nodes'[n] == if n == DUMMY || cleared[n].kind in {Block, Genesis} then cleared[n]
                            else cleared[n].(deps := cleared[n].deps + {DUMMY})
    ensures Linked(nodes, nodes')
    ensures DUMMY !in nodes' ==> nodes[DUMMY].outputs == []
  {
    hide Cleared, Extends;
  }

  lemma {:induction false} SettledAtEnd(deposit: int -> int, issued: int, filled: Nodes, done: set<Name>, nodes: Nodes)
    requires Prepared(filled) && Grown(filled, nodes)
    requires forall n :: n in filled && n != DUMMY ==>
               n in nodes && Settled(deposit, issued, nodes, n, DrainedBy(filled, done, n))
    ensures AllDone(deposit, issued, filled, done, nodes)
  {
    hide Settled, DrainedBy, AlmostTyped, Extends;
  }

  /** Balancing gives nobody but the dummy new parents. */
  lemma {:induction false} BalancedParents(nodes: Nodes, middle: Nodes, nodes': Nodes, n: Name)
    requires n in nodes && n in middle && middle == nodes[n := nodes[n].(parents := middle[n].parents)]
    requires Balancing(middle, nodes', n, {})
    requires n != DUMMY ==> Wired(middle, nodes', n, {}, Homes(middle, n)) && ParentsFilled(nodes[n], middle[n])
    ensures ParentsStep(nodes, nodes', n)
  {
    hide Net, Target, Received, OutputTokens, AlmostTyped, Extends, Resolved, Homes;
    if n != DUMMY {
      assert nodes'[n].parents == middle[n].parents;
    }
    forall m | m in nodes && m != n && m != DUMMY
      ensures m in nodes' && SameLinks(nodes[m], nodes'[m])
    {
      OtherNodeOf(middle, nodes', n, m);
    }
  }

  lemma {:induction false} ThreeParents(nodes: Nodes, nodes': Nodes, n: Name)
    requires n in nodes && nodes[n].kind == Block && n != DUMMY && Rewired(nodes, nodes', n) && ParentsTaken(nodes, nodes', n)
    requires forall m :: m in nodes && m != n ==> m in nodes' && nodes'[m] == nodes[m]
    ensures ParentsStep(nodes, nodes', n)
  {
    hide Homes, NewHomes, NewParents;
  }
}
