/** The order in which the nodes of a DAG description are built. */
module TopologicalSort {
  import opened DagNodes
  import opened Sequences

  // ----- the specification -----

  /** Each node of `order` comes once, and after everything it depends on. */
  ghost predicate Ordered(nodes: Nodes, order: seq<Name>) {
    && Distinct(order)
    && forall k :: 0 <= k < |order| ==> order[k] in nodes && AllDependencies(nodes[order[k]]) <= ToSet(order[..k])
  }

  ghost predicate TopologicalOrder(nodes: Nodes, order: seq<Name>) {
    Ordered(nodes, order) && ToSet(order) == nodes.Keys
  }

  /** Each node depends on the next one. */
  ghost predicate Path(nodes: Nodes, p: seq<Name>) {
    && (forall i :: 0 <= i < |p| ==> p[i] in nodes)
    && forall i :: 0 < i < |p| ==> p[i] in AllDependencies(nodes[p[i - 1]])
  }

  ghost predicate Cycle(nodes: Nodes, p: seq<Name>) {
    |p| >= 2 && p[0] == p[|p| - 1] && Path(nodes, p)
  }

  ghost predicate Cyclic(nodes: Nodes) {
    exists p :: Cycle(nodes, p)
  }

  /** Some node depends on a name that no node has. */
  ghost predicate Missing(nodes: Nodes) {
    exists n, d :: n in nodes && d in AllDependencies(nodes[n]) && d !in nodes
  }

  // ----- an order excludes cycles and missing names -----

  ghost function Position(order: seq<Name>, x: Name): (i: nat)
    requires x in order
    ensures i < |order| && order[i] == x
  {
    var i :| 0 <= i < |order| && order[i] == x;
    i
  }

  /** Along a path, positions go down. */
  lemma {:induction false} PathDescends(nodes: Nodes, order: seq<Name>, p: seq<Name>, k: nat)
    requires TopologicalOrder(nodes, order) && Path(nodes, p) && 0 < k < |p|
    ensures p[k] in order && p[0] in order && Position(order, p[k]) < Position(order, p[0])
  {
    assert p[0] in ToSet(order) && p[k] in ToSet(order) && p[k - 1] in ToSet(order);
    var i := Position(order, p[k - 1]);
    assert p[k] in ToSet(order[..i]);
    if k > 1 {
      PathDescends(nodes, order, p, k - 1);
    }
  }

  lemma {:induction false} OrderedIsSound(nodes: Nodes, order: seq<Name>)
    requires TopologicalOrder(nodes, order)
    ensures !Cyclic(nodes) && !Missing(nodes)
  {
    forall p | Cycle(nodes, p)
      ensures false
    {
      PathDescends(nodes, order, p, |p| - 1);
    }
    forall n, d | n in nodes && d in AllDependencies(nodes[n])
      ensures d in nodes
    {
      assert n in ToSet(order);
      assert d in ToSet(order[..Position(order, n)]);
      assert d in ToSet(order);
    }
  }

  // ----- a set in which every node waits for another member holds a cycle -----

  /** None of the nodes left can be built next. */
  ghost predicate Stuck(nodes: Nodes, left: set<Name>) {
    left != {} && left <= nodes.Keys && forall n :: n in left ==> AllDependencies(nodes[n]) * left != {}
  }

  lemma {:induction false} PathWithin(nodes: Nodes, left: set<Name>, k: nat) returns (p: seq<Name>)
    requires Stuck(nodes, left)
    ensures Path(nodes, p) && |p| == k + 1 && forall i :: 0 <= i < |p| ==> p[i] in left
  {
    hide AllDependencies;
    if k == 0 {
      var n :| n in left;
      p := [n];
    } else {
      var q := PathWithin(nodes, left, k - 1);
      var d :| d in AllDependencies(nodes[q[k - 1]]) * left;
      p := q + [d];
    }
  }

  lemma {:induction false} DistinctIsShort(s: seq<Name>, bound: set<Name>)
    requires Distinct(s) && forall i :: 0 <= i < |s| ==> s[i] in bound
    ensures |s| <= |bound|
  {
    if s != [] {
      var last := s[|s| - 1];
      DistinctIsShort(s[..|s| - 1], bound - {last});
    }
  }

  lemma {:induction false} Segment(nodes: Nodes, p: seq<Name>, i: nat, j: nat)
    requires Path(nodes, p) && i < j < |p| && p[i] == p[j]
    ensures Cyclic(nodes)
  {
    hide AllDependencies;
    var q := p[i..j + 1];
    assert forall k :: 0 <= k < |q| ==> q[k] == p[i + k];
    forall k | 0 < k < |q|
      ensures q[k] in AllDependencies(nodes[q[k - 1]])
    {
      assert q[k - 1] == p[i + k - 1];
    }
    assert Cycle(nodes, q);
  }

  lemma {:induction false} StuckIsCyclic(nodes: Nodes, left: set<Name>)
    requires Stuck(nodes, left)
    ensures Cyclic(nodes)
  {
    hide AllDependencies, Stuck;
    var p := PathWithin(nodes, left, |left|);
    if Distinct(p) {
      DistinctIsShort(p, left);
    } else {
      var i, j :| 0 <= i < j < |p| && p[i] == p[j];
      Segment(nodes, p, i, j);
    }
  }

  // ----- Kahn's algorithm -----

  /** Nodes not yet struck off (`pending`) still count `name` as a dependency; the rest have none that was seen. */
  ghost predicate DirectExact(nodes: Nodes, seen: set<Name>, direct: map<Name, set<Name>>, name: Name,
                              pending: set<Name>) {
    && direct.Keys <= nodes.Keys
    && (forall n :: n in direct ==> direct[n] == AllDependencies(nodes[n]) - (if n in pending then seen - {name} else seen))
    && forall n :: n in nodes && n !in direct ==> n !in pending && AllDependencies(nodes[n]) <= seen
  }

  ghost predicate Ready(nodes: Nodes, seen: set<Name>, pending: set<Name>, n: Name) {
    n in nodes && n !in seen && n !in pending && AllDependencies(nodes[n]) <= seen
  }

  ghost predicate CandidatesExact(nodes: Nodes, seen: set<Name>, candidates: seq<Name>, pending: set<Name>) {
    Distinct(candidates) && forall n :: n in candidates <==> Ready(nodes, seen, pending, n)
  }

  /** What each name is a dependency of. */
  ghost predicate Reversed(nodes: Nodes, done: set<Name>, rev: map<Name, set<Name>>) {
    forall x, n :: n in DependentsOf(rev, x) <==> n in done && n in nodes && x in AllDependencies(nodes[n])
  }

  function DependentsOf(rev: map<Name, set<Name>>, x: Name): set<Name> {
    if x in rev then rev[x] else {}
  }

  lemma {:induction false} OrderIsShort(order: seq<Name>)
    ensures |ToSet(order)| <= |order|
  {
    if order != [] {
      var rest := order[..|order| - 1];
      OrderIsShort(rest);
      assert ToSet(order) == ToSet(rest) + {order[|order| - 1]};
    }
  }

  lemma {:induction false} NoCandidate(nodes: Nodes, order: seq<Name>)
    requires CandidatesExact(nodes, ToSet(order), [], {}) && |order| < |nodes|
    ensures Cyclic(nodes) || Missing(nodes)
  {
    hide AllDependencies, Cyclic;
    var seen := ToSet(order);
    var left := nodes.Keys - seen;
    OrderIsShort(order);
    EmptyDifference(nodes.Keys, seen);
    if left == {} {
      Smaller(nodes.Keys, seen);
    }
    if !Missing(nodes) {
      forall n | n in left
        ensures AllDependencies(nodes[n]) * left != {}
      {
        assert !Ready(nodes, seen, {}, n);
        var d :| d in AllDependencies(nodes[n]) && d !in seen;
        assert d in AllDependencies(nodes[n]) * left;
      }
      StuckIsCyclic(nodes, left);
    }
  }

  lemma {:induction false} EmptyDifference(a: set<Name>, b: set<Name>)
    ensures a - b == {} <==> a <= b
  {
    forall x | x in a && x !in b
      ensures a - b != {}
    {
      assert x in a - b;
    }
  }

  lemma {:induction false} Smaller(a: set<Name>, b: set<Name>)
    requires a <= b
    ensures |a| <= |b|
  {
    if x :| x in a {
      Smaller(a - {x}, b - {x});
    }
  }

  lemma {:induction false} AllOut(nodes: Nodes, order: seq<Name>)
    requires Ordered(nodes, order) && |order| == |nodes|
    ensures TopologicalOrder(nodes, order)
  {
    if x :| x in nodes && x !in ToSet(order) {
      DistinctIsShort(order, nodes.Keys - {x});
    }
  }

  // ----- taking a candidate -----

  lemma {:induction false} OrderedStep(nodes: Nodes, order: seq<Name>, name: Name)
    requires Ordered(nodes, order) && Ready(nodes, ToSet(order), {}, name)
    ensures Ordered(nodes, order + [name])
    ensures ToSet(order + [name]) == ToSet(order) + {name}
    ensures |order| < |nodes|
  {
    hide AllDependencies;
    var order' := order + [name];
    forall k | 0 <= k < |order'|
      ensures order'[k] in nodes && AllDependencies(nodes[order'[k]]) <= ToSet(order'[..k])
    {
      assert order'[..k] == order[..k];
      assert k == |order| ==> order[..k] == order;
    }
    DistinctIsShort(order', nodes.Keys);
  }

  lemma {:induction false} DirectPopped(nodes: Nodes, seen: set<Name>, direct: map<Name, set<Name>>, last: Name,
                                        name: Name, dependents: set<Name>)
    requires DirectExact(nodes, seen, direct, last, {}) && name !in seen
    requires forall n :: n in dependents <==> n in nodes && name in AllDependencies(nodes[n])
    ensures DirectExact(nodes, seen + {name}, direct, name, dependents)
  {
    hide AllDependencies;
  }

  lemma {:induction false} CandidatesPopped(nodes: Nodes, seen: set<Name>, candidates: seq<Name>, name: Name,
                                            dependents: set<Name>)
    requires CandidatesExact(nodes, seen, candidates, {}) && candidates != [] && name == candidates[|candidates| - 1]
    requires forall n :: n in dependents <==> n in nodes && name in AllDependencies(nodes[n])
    ensures CandidatesExact(nodes, seen + {name}, candidates[..|candidates| - 1], dependents)
  {
    hide AllDependencies;
    var rest := candidates[..|candidates| - 1];
    assert candidates == rest + [name];
    assert name in candidates && Ready(nodes, seen, {}, name);
    forall n
      ensures n in rest <==> Ready(nodes, seen + {name}, dependents, n)
    {
      assert n in rest <==> n in candidates && n != name;
      assert n in candidates <==> Ready(nodes, seen, {}, n);
      if Ready(nodes, seen + {name}, dependents, n) {
        assert AllDependencies(nodes[n]) <= seen;
      }
    }
  }

  // ----- striking it off -----

  lemma {:induction false} DirectStruck(nodes: Nodes, seen: set<Name>, direct: map<Name, set<Name>>, name: Name,
                                        left: set<Name>, d: Name)
    requires DirectExact(nodes, seen, direct, name, left) && name in seen && d in left && d in nodes
    ensures d in direct
    ensures var rest := direct[d] - {name};
            && (rest == {} <==> AllDependencies(nodes[d]) <= seen)
            && DirectExact(nodes, seen, direct[d := rest], name, left - {d})
            && (rest == {} ==> DirectExact(nodes, seen, map n | n in direct && n != d :: direct[n], name, left - {d}))
  {
    hide AllDependencies;
    assert direct[d] - {name} == AllDependencies(nodes[d]) - seen;
    EmptyDifference(AllDependencies(nodes[d]), seen);
  }

  lemma {:induction false} CandidatesStruck(nodes: Nodes, seen: set<Name>, candidates: seq<Name>, left: set<Name>,
                                            d: Name)
    requires CandidatesExact(nodes, seen, candidates, left) && d in left && d in nodes && d !in seen
    ensures AllDependencies(nodes[d]) <= seen ==> CandidatesExact(nodes, seen, candidates + [d], left - {d})
    ensures !(AllDependencies(nodes[d]) <= seen) ==> CandidatesExact(nodes, seen, candidates, left - {d})
  {
    hide AllDependencies;
    assert !Ready(nodes, seen, left, d);
    assert forall n :: n != d ==> (Ready(nodes, seen, left, n) <==> Ready(nodes, seen, left - {d}, n));
  }

  // ----- before the first round -----

  ghost predicate Collecting(nodes: Nodes, done: set<Name>, direct: map<Name, set<Name>>, candidates: seq<Name>) {
    && direct.Keys == done <= nodes.Keys
    && (forall n :: n in direct ==> direct[n] == AllDependencies(nodes[n]))
    && Distinct(candidates)
    && forall n :: n in candidates <==> n in done && n in nodes && AllDependencies(nodes[n]) == {}
  }

  lemma {:induction false} CollectStep(nodes: Nodes, done: set<Name>, direct: map<Name, set<Name>>,
                                       candidates: seq<Name>, name: Name)
    requires Collecting(nodes, done, direct, candidates) && name in nodes && name !in done
    ensures var deps := AllDependencies(nodes[name]);
            Collecting(nodes, done + {name}, direct[name := deps], if deps == {} then candidates + [name] else candidates)
  {
    hide AllDependencies;
  }

  lemma {:induction false} CollectDone(nodes: Nodes, direct: map<Name, set<Name>>, candidates: seq<Name>)
    requires Collecting(nodes, nodes.Keys, direct, candidates)
    ensures DirectExact(nodes, {}, direct, Name(""), {})
    ensures CandidatesExact(nodes, {}, candidates, {})
  {
    hide AllDependencies;
    assert forall s: set<Name> :: s <= {} <==> s == {};
  }

  /** `name` is already among the dependents of the names in `part`. */
  ghost predicate Reversing(nodes: Nodes, done: set<Name>, name: Name, part: set<Name>, rev: map<Name, set<Name>>) {
    forall x, n :: n in DependentsOf(rev, x) <==> Waits(nodes, done, name, part, x, n)
  }

  ghost predicate Waits(nodes: Nodes, done: set<Name>, name: Name, part: set<Name>, x: Name, n: Name) {
    (n in done && n in nodes && x in AllDependencies(nodes[n])) || (n == name && x in part)
  }

  lemma {:induction false} ReverseStep(nodes: Nodes, done: set<Name>, name: Name, part: set<Name>,
                                       rev: map<Name, set<Name>>, d: Name)
    requires Reversing(nodes, done, name, part, rev)
    ensures Reversing(nodes, done, name, part + {d}, rev[d := DependentsOf(rev, d) + {name}])
  {
    hide AllDependencies;
    var rev' := rev[d := DependentsOf(rev, d) + {name}];
    forall x, n
      ensures n in DependentsOf(rev', x) <==> Waits(nodes, done, name, part + {d}, x, n)
    {
      assert n in DependentsOf(rev, x) <==> Waits(nodes, done, name, part, x, n);
    }
  }

  lemma {:induction false} ReverseEnds(nodes: Nodes, done: set<Name>, name: Name, rev: map<Name, set<Name>>)
    requires name in nodes
    ensures Reversed(nodes, done, rev) ==> Reversing(nodes, done, name, {}, rev)
    ensures Reversing(nodes, done, name, AllDependencies(nodes[name]), rev) ==> Reversed(nodes, done + {name}, rev)
  {
    hide AllDependencies, DependentsOf;
  }

  /** Collects, for each name, the nodes that depend on it, and the nodes that depend on nothing. */
  method Prepare(nodes: Nodes)
    returns (direct: map<Name, set<Name>>, rev: map<Name, set<Name>>, candidates: seq<Name>)
    ensures DirectExact(nodes, {}, direct, Name(""), {})
    ensures CandidatesExact(nodes, {}, candidates, {})
    ensures Reversed(nodes, nodes.Keys, rev)
  {
    hide AllDependencies, Reversed, Collecting, DirectExact, CandidatesExact;
    direct, rev, candidates := map[], map[], [];
    var left := nodes.Keys;
    ghost var done: set<Name> := {};
    NothingCollected(nodes);
    while left != {}
      invariant left !! done && left + done == nodes.Keys
      invariant Collecting(nodes, done, direct, candidates)
      invariant Reversed(nodes, done, rev)
      decreases |left|
    {
      var name :| name in left;
      CollectStep(nodes, done, direct, candidates, name);
      var deps := AllDependencies(nodes[name]);
      direct := direct[name := deps];
      rev := AddReversed(nodes, done, name, rev);
      if deps == {} {
        candidates := candidates + [name];
      }
      left := left - {name};
      done := done + {name};
    }
    assert done == nodes.Keys;
    CollectDone(nodes, direct, candidates);
  }

  lemma {:induction false} NothingCollected(nodes: Nodes)
    ensures Collecting(nodes, {}, map[], []) && Reversed(nodes, {}, map[])
  {
  }

  method AddReversed(nodes: Nodes, ghost done: set<Name>, name: Name, rev: map<Name, set<Name>>)
    returns (rev': map<Name, set<Name>>)
    requires name in nodes && Reversed(nodes, done, rev)
    ensures Reversed(nodes, done + {name}, rev')
  {
    hide AllDependencies, Reversed, Reversing;
    rev' := rev;
    ReverseEnds(nodes, done, name, rev);
    var left := AllDependencies(nodes[name]);
    ghost var part: set<Name> := {};
    while left != {}
      invariant left !! part && left + part == AllDependencies(nodes[name])
      invariant Reversing(nodes, done, name, part, rev')
      decreases |left|
    {
      var x :| x in left;
      ReverseStep(nodes, done, name, part, rev', x);
      rev' := rev'[x := DependentsOf(rev', x) + {name}];
      left := left - {x};
      part := part + {x};
    }
    assert part == AllDependencies(nodes[name]);
    ReverseEnds(nodes, done, name, rev');
  }

  /** Strikes `name` off the nodes that wait for it; a node that waits for nothing more becomes a candidate. */
  method Strike(nodes: Nodes, ghost seen: set<Name>, direct: map<Name, set<Name>>, candidates: seq<Name>,
                name: Name, dependents: set<Name>)
    returns (direct': map<Name, set<Name>>, candidates': seq<Name>)
    requires name in seen
    requires DirectExact(nodes, seen, direct, name, dependents)
    requires CandidatesExact(nodes, seen, candidates, dependents)
    requires forall n :: n in dependents ==> n in nodes && n !in seen
    ensures DirectExact(nodes, seen, direct', name, {})
    ensures CandidatesExact(nodes, seen, candidates', {})
  {
    hide AllDependencies, DirectExact, CandidatesExact;
    direct', candidates' := direct, candidates;
    var left := dependents;
    while left != {}
      invariant left <= dependents
      invariant DirectExact(nodes, seen, direct', name, left)
      invariant CandidatesExact(nodes, seen, candidates', left)
      decreases |left|
    {
      var d :| d in left;
      DirectStruck(nodes, seen, direct', name, left, d);
      CandidatesStruck(nodes, seen, candidates', left, d);
      var rest := direct'[d] - {name};
      if rest == {} {
        candidates' := candidates' + [d];
        direct' := map n | n in direct' && n != d :: direct'[n];
      } else {
        direct' := direct'[d := rest];
      }
      left := left - {d};
    }
  }

  /**
   Yields every node once, after its dependencies, or raises. It raises exactly when the
   dependencies have a cycle or name a node that does not exist; what was yielded before that is
   ordered too.
   */
  method TopologicalSorting(nodes: Nodes) returns (order: seq<Name>, raised: bool)
    ensures Ordered(nodes, order)
    ensures !raised ==> TopologicalOrder(nodes, order)
    ensures raised <==> Cyclic(nodes) || Missing(nodes)
  {
    hide AllDependencies, DirectExact, Ordered, TopologicalOrder, Cyclic, Missing;
    var direct, rev, candidates := Prepare(nodes);
    order := [];
    NothingOrdered(nodes);
    ghost var last := Name("");
    while |order| < |nodes|
      invariant |order| <= |nodes|
      invariant Ordered(nodes, order)
      invariant DirectExact(nodes, ToSet(order), direct, last, {})
      invariant CandidatesExact(nodes, ToSet(order), candidates, {})
    {
      if candidates == [] {
        NoCandidate(nodes, order);
        return order, true;
      }
      ghost var seen := ToSet(order);
      var name := candidates[|candidates| - 1];
      assert name in candidates && Ready(nodes, seen, {}, name);
      var dependents := DependentsOf(rev, name);
      assert forall n :: n in dependents <==> n in nodes && name in AllDependencies(nodes[n]);
      DirectPopped(nodes, seen, direct, last, name, dependents);
      CandidatesPopped(nodes, seen, candidates, name, dependents);
      OrderedStep(nodes, order, name);
      NotSeenYet(nodes, order, name, dependents);
      candidates := candidates[..|candidates| - 1];
      order := order + [name];
      last := name;
      direct, candidates := Strike(nodes, ToSet(order), direct, candidates, name, dependents);
    }
    AllOut(nodes, order);
    OrderedIsSound(nodes, order);
    raised := false;
  }

  lemma {:induction false} NothingOrdered(nodes: Nodes)
    ensures Ordered(nodes, []) && ToSet<Name>([]) == {}
  {
  }

  /** A node that waits for `name` was not yielded before it. */
  lemma {:induction false} NotSeenYet(nodes: Nodes, order: seq<Name>, name: Name, dependents: set<Name>)
    requires Ordered(nodes, order) && Ready(nodes, ToSet(order), {}, name)
    requires forall n :: n in dependents <==> n in nodes && name in AllDependencies(nodes[n])
    ensures forall n :: n in dependents ==> n in nodes && n !in ToSet(order) + {name}
  {
    hide AllDependencies;
    forall n | n in order
      ensures n !in dependents
    {
      var k :| 0 <= k < |order| && order[k] == n;
      assert ToSet(order[..k]) <= ToSet(order);
    }
  }
}
