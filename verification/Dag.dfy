/**
 The DAG of blocks and transactions, as values: an immutable vertex for each identifier.
 Everything the consensus algorithms derive from the DAG alone (past cones, chains, heights,
 scores) is defined here by plain recursion, independently of any stored metadata.
 */
module Dag {

  // Stands for a 32-byte vertex hash.
  type VertexId = nat

  datatype Outpoint = Outpoint(txId: VertexId, index: nat)

  /** `work` is the integer work of the vertex's weight; `signals` are a block's signal bits. */
  datatype Vertex = Vertex(isBlock: bool, timestamp: nat, work: nat, parents: seq<VertexId>,
                           inputs: seq<Outpoint>, signals: set<nat>)

  type Store = map<VertexId, Vertex>

  /** Everything a vertex verifies or spends from. */
  function Deps(dag: Store, v: VertexId): set<VertexId>
    requires v in dag
  {
    (set i | 0 <= i < |dag[v].parents| :: dag[v].parents[i]) +
    (set i | 0 <= i < |dag[v].inputs| :: dag[v].inputs[i].txId)
  }

  predicate IsTx(dag: Store, v: VertexId) { v in dag && !dag[v].isBlock }

  predicate IsBlock(dag: Store, v: VertexId) { v in dag && dag[v].isBlock }

  predicate IsGenesis(dag: Store, b: VertexId) { IsBlock(dag, b) && dag[b].parents == [] }

  /** Dependencies are stored and strictly older, and work is positive. */
  ghost predicate Connected(dag: Store, v: VertexId)
    requires v in dag
  {
    && dag[v].work > 0
    && forall d :: d in Deps(dag, v) ==> d in dag && dag[d].timestamp < dag[v].timestamp
  }

  /** A block's first parent is its block parent and its other parents are transactions;
      a transaction verifies transactions only, but may spend the outputs of blocks. */
  ghost predicate Shaped(dag: Store, v: VertexId)
    requires v in dag
  {
    if dag[v].isBlock then
      && dag[v].inputs == []
      && (dag[v].parents != [] ==>
            && IsBlock(dag, dag[v].parents[0])
            && forall i :: 1 <= i < |dag[v].parents| ==> IsTx(dag, dag[v].parents[i]))
    else
      forall i :: 0 <= i < |dag[v].parents| ==> IsTx(dag, dag[v].parents[i])
  }

  ghost predicate WellFormed(dag: Store) {
    && (forall v {:trigger Connected(dag, v)} :: v in dag ==> Connected(dag, v))
    && (forall v {:trigger Shaped(dag, v)} :: v in dag ==> Shaped(dag, v))
    && (forall a, b :: IsGenesis(dag, a) && IsGenesis(dag, b) ==> a == b)
  }

  lemma DepsOlder(dag: Store, v: VertexId)
    requires WellFormed(dag) && v in dag
    ensures dag[v].work > 0
    ensures forall d :: d in Deps(dag, v) ==> d in dag && dag[d].timestamp < dag[v].timestamp
  {
    assert Connected(dag, v);
  }

  // ----- transactions in the past of a transaction -----

  ghost function TxDeps(dag: Store, v: VertexId): set<VertexId>
    requires v in dag
  {
    set d | d in Deps(dag, v) && IsTx(dag, d)
  }

  /** The transactions reachable from transaction `v`, itself included, without passing a block. */
  ghost function TxReach(dag: Store, v: VertexId): set<VertexId>
    requires WellFormed(dag) && IsTx(dag, v)
    decreases dag[v].timestamp
  {
    {v} + set d, u | d in TxDeps(dag, v) && Older(dag, d, v) && u in TxReach(dag, d) :: u
  }

  ghost predicate Older(dag: Store, d: VertexId, v: VertexId)
    requires v in dag
  {
    d in dag && dag[d].timestamp < dag[v].timestamp
  }

  ghost predicate TxClosed(dag: Store, s: set<VertexId>) {
    forall v, d :: v in s && IsTx(dag, v) && d in TxDeps(dag, v) ==> d in s
  }

  lemma TxReachStep(dag: Store, v: VertexId, d: VertexId)
    requires WellFormed(dag) && IsTx(dag, v) && d in TxDeps(dag, v)
    ensures TxReach(dag, d) <= TxReach(dag, v)
  {
    assert Connected(dag, v);
    assert Older(dag, d, v);
  }

  lemma {:induction false} TxReachIsTx(dag: Store, v: VertexId, u: VertexId)
    requires WellFormed(dag) && IsTx(dag, v) && u in TxReach(dag, v)
    ensures IsTx(dag, u)
    decreases dag[v].timestamp
  {
    if u != v {
      var d :| d in TxDeps(dag, v) && Older(dag, d, v) && u in TxReach(dag, d);
      TxReachIsTx(dag, d, u);
    }
  }

  lemma {:induction false} TxReachClosed(dag: Store, v: VertexId, u: VertexId, d: VertexId)
    requires WellFormed(dag) && IsTx(dag, v) && u in TxReach(dag, v)
    requires IsTx(dag, u) && d in TxDeps(dag, u)
    ensures d in TxReach(dag, v)
    decreases dag[v].timestamp
  {
    if u == v {
      TxReachStep(dag, v, d);
    } else {
      var e :| e in TxDeps(dag, v) && Older(dag, e, v) && u in TxReach(dag, e);
      TxReachClosed(dag, e, u, d);
      TxReachStep(dag, v, e);
    }
  }

  /** `TxReach` is the least closed set holding `v`. */
  lemma {:induction false} TxReachLeast(dag: Store, v: VertexId, s: set<VertexId>)
    requires WellFormed(dag) && IsTx(dag, v) && v in s && TxClosed(dag, s)
    ensures TxReach(dag, v) <= s
    decreases dag[v].timestamp
  {
    forall u | u in TxReach(dag, v)
      ensures u in s
    {
      if u != v {
        var d :| d in TxDeps(dag, v) && Older(dag, d, v) && u in TxReach(dag, d);
        TxReachLeast(dag, d, s);
      }
    }
  }

  lemma TxReachIsClosed(dag: Store, v: VertexId)
    requires WellFormed(dag) && IsTx(dag, v)
    ensures TxClosed(dag, TxReach(dag, v))
    ensures forall u :: u in TxReach(dag, v) ==> IsTx(dag, u)
  {
    forall u | u in TxReach(dag, v)
      ensures IsTx(dag, u)
      ensures forall d :: d in TxDeps(dag, u) ==> d in TxReach(dag, v)
    {
      TxReachIsTx(dag, v, u);
      forall d | d in TxDeps(dag, u)
        ensures d in TxReach(dag, v)
      {
        TxReachClosed(dag, v, u, d);
      }
    }
  }

  /**
   A walk from `v` that does not continue below the closed set `pruned`. So far it has collected
   `visited`; `pending` still has to be looked at, in any order.
   */
  ghost predicate Walking(dag: Store, v: VertexId, pruned: set<VertexId>, visited: set<VertexId>,
                          pending: set<VertexId>)
    requires WellFormed(dag) && IsTx(dag, v)
  {
    && visited <= TxReach(dag, v) && visited !! pruned && pending <= dag.Keys
    && (forall d :: d in pending && IsTx(dag, d) ==> d in TxReach(dag, v))
    && TxClosedUpTo(dag, visited, pruned + pending)
    && (v in visited || v in pruned + pending)
  }

  ghost predicate TxClosedUpTo(dag: Store, s: set<VertexId>, rest: set<VertexId>) {
    forall u, d :: u in s && IsTx(dag, u) && d in TxDeps(dag, u) ==> d in s || d in rest
  }

  lemma {:induction false} WalkStart(dag: Store, v: VertexId, pruned: set<VertexId>)
    requires WellFormed(dag) && IsTx(dag, v)
    ensures Walking(dag, v, pruned, {}, {v})
    ensures Work(dag, {}) == 0
  {
  }

  /** Dropping a pending block, or one that was visited or pruned before. */
  lemma {:induction false} WalkSkip(dag: Store, v: VertexId, pruned: set<VertexId>, visited: set<VertexId>,
                                    pending: set<VertexId>, x: VertexId)
    requires WellFormed(dag) && IsTx(dag, v) && Walking(dag, v, pruned, visited, pending)
    requires x in pending && (dag[x].isBlock || x in visited || x in pruned)
    ensures Walking(dag, v, pruned, visited, pending - {x})
  {
    forall u, d | u in visited && IsTx(dag, u) && d in TxDeps(dag, u)
      ensures d in visited || d in pruned + (pending - {x})
    {
      assert d in visited || d in pruned + pending;
    }
  }

  lemma {:induction false} WalkVisit(dag: Store, v: VertexId, pruned: set<VertexId>, visited: set<VertexId>,
                                     pending: set<VertexId>, x: VertexId)
    requires WellFormed(dag) && IsTx(dag, v) && Walking(dag, v, pruned, visited, pending)
    requires x in pending && IsTx(dag, x) && x !in visited && x !in pruned
    ensures Walking(dag, v, pruned, visited + {x}, pending - {x} + Deps(dag, x))
  {
    assert Connected(dag, x);
    var pending' := pending - {x} + Deps(dag, x);
    forall d | d in pending' && IsTx(dag, d)
      ensures d in TxReach(dag, v)
    {
      if d in Deps(dag, x) {
        TxReachClosed(dag, v, x, d);
      }
    }
    forall u, d | u in visited + {x} && IsTx(dag, u) && d in TxDeps(dag, u)
      ensures d in visited + {x} || d in pruned + pending'
    {
      if u in visited {
        assert d in visited || d in pruned + pending;
      }
    }
  }

  /**
   The central fact about pruned traversals: when nothing is pending the walk has collected
   exactly the full traversal minus the pruned set.
   */
  lemma {:induction false} WalkDone(dag: Store, v: VertexId, pruned: set<VertexId>, visited: set<VertexId>)
    requires WellFormed(dag) && IsTx(dag, v) && TxClosed(dag, pruned)
    requires Walking(dag, v, pruned, visited, {})
    ensures visited == TxReach(dag, v) - pruned
    ensures TxClosed(dag, pruned + visited)
    ensures pruned + visited == pruned + TxReach(dag, v)
  {
    forall u, d | u in pruned + visited && IsTx(dag, u) && d in TxDeps(dag, u)
      ensures d in pruned + visited
    {
      assert u in visited ==> d in visited || d in pruned + {};
    }
    TxReachLeast(dag, v, pruned + visited);
  }

  // ----- chains of blocks -----

  function BlockParent(dag: Store, b: VertexId): VertexId
    requires b in dag && dag[b].parents != []
  {
    dag[b].parents[0]
  }

  lemma BlockParentIsBlock(dag: Store, b: VertexId)
    requires WellFormed(dag) && IsBlock(dag, b) && !IsGenesis(dag, b)
    ensures IsBlock(dag, BlockParent(dag, b))
    ensures dag[BlockParent(dag, b)].timestamp < dag[b].timestamp
  {
    assert Shaped(dag, b);
    assert Connected(dag, b);
    assert BlockParent(dag, b) in Deps(dag, b);
  }

  /** The path of blocks from genesis to `b`; the block of height h is at position h. */
  function Chain(dag: Store, b: VertexId): (c: seq<VertexId>)
    requires WellFormed(dag) && IsBlock(dag, b)
    ensures |c| > 0 && c[|c| - 1] == b
    decreases dag[b].timestamp
  {
    if IsGenesis(dag, b) then [b]
    else
      BlockParentIsBlock(dag, b);
      Chain(dag, BlockParent(dag, b)) + [b]
  }

  function Height(dag: Store, b: VertexId): nat
    requires WellFormed(dag) && IsBlock(dag, b)
  {
    |Chain(dag, b)| - 1
  }

  /** `a` is `b` or one of its ancestor blocks. */
  ghost predicate OnChain(dag: Store, a: VertexId, b: VertexId)
    requires WellFormed(dag) && IsBlock(dag, b)
  {
    a in Chain(dag, b)
  }

  lemma OnChainStep(dag: Store, a: VertexId, b: VertexId)
    requires WellFormed(dag) && IsBlock(dag, b)
    ensures OnChain(dag, b, b)
    ensures !IsGenesis(dag, b) ==>
              && IsBlock(dag, BlockParent(dag, b))
              && Height(dag, b) == Height(dag, BlockParent(dag, b)) + 1
              && (OnChain(dag, a, b) <==> a == b || OnChain(dag, a, BlockParent(dag, b)))
    ensures IsGenesis(dag, b) ==> Height(dag, b) == 0 && (OnChain(dag, a, b) <==> a == b)
  {
    if !IsGenesis(dag, b) {
      BlockParentIsBlock(dag, b);
    }
  }

  /** A block on a chain is a block, its own chain is a prefix, and it is no younger. */
  lemma {:induction false} OnChainPrefix(dag: Store, a: VertexId, b: VertexId)
    requires WellFormed(dag) && IsBlock(dag, b) && OnChain(dag, a, b)
    ensures IsBlock(dag, a)
    ensures Chain(dag, a) <= Chain(dag, b)
    ensures Height(dag, a) <= Height(dag, b)
    ensures Chain(dag, b)[Height(dag, a)] == a
    ensures dag[a].timestamp <= dag[b].timestamp
    ensures a != b ==> dag[a].timestamp < dag[b].timestamp && Height(dag, a) < Height(dag, b)
    decreases dag[b].timestamp
  {
    if a != b {
      OnChainStep(dag, a, b);
      BlockParentIsBlock(dag, b);
      OnChainPrefix(dag, a, BlockParent(dag, b));
    }
  }

  lemma OnChainTrans(dag: Store, a: VertexId, b: VertexId, c: VertexId)
    requires WellFormed(dag) && IsBlock(dag, b) && IsBlock(dag, c)
    requires OnChain(dag, a, b) && OnChain(dag, b, c)
    ensures OnChain(dag, a, c)
  {
    OnChainPrefix(dag, b, c);
  }

  /** Two blocks on one chain are ordered, and timestamps decide the order. */
  lemma OnChainTotal(dag: Store, a: VertexId, b: VertexId, c: VertexId)
    requires WellFormed(dag) && IsBlock(dag, c)
    requires OnChain(dag, a, c) && OnChain(dag, b, c)
    ensures IsBlock(dag, a) && IsBlock(dag, b)
    ensures OnChain(dag, a, b) <==> dag[a].timestamp <= dag[b].timestamp
  {
    OnChainPrefix(dag, a, c);
    OnChainPrefix(dag, b, c);
    var ha, hb := Height(dag, a), Height(dag, b);
    if ha <= hb {
      assert Chain(dag, b)[ha] == a;
      OnChainPrefix(dag, a, b);
    } else {
      assert Chain(dag, a)[hb] == b;
      OnChainPrefix(dag, b, a);
      if OnChain(dag, a, b) {
        OnChainPrefix(dag, a, b);
        assert false;
      }
    }
  }

  lemma {:induction false} GenesisOnChain(dag: Store, g: VertexId, b: VertexId)
    requires WellFormed(dag) && IsBlock(dag, b) && IsGenesis(dag, g)
    ensures OnChain(dag, g, b)
    decreases dag[b].timestamp
  {
    OnChainStep(dag, g, b);
    if !IsGenesis(dag, b) {
      BlockParentIsBlock(dag, b);
      GenesisOnChain(dag, g, BlockParent(dag, b));
    }
  }

  // ----- the past of a block -----

  /** The transactions that the first `n` parents of a block reach directly. */
  ghost function ReachOfParents(dag: Store, b: VertexId, n: nat): set<VertexId>
    requires WellFormed(dag) && IsBlock(dag, b) && n <= |dag[b].parents|
  {
    if n <= 1 then {}
    else
      assert Shaped(dag, b);
      ReachOfParents(dag, b, n - 1) + TxReach(dag, dag[b].parents[n - 1])
  }

  /** All transactions confirmed by `b` or by one of its ancestor blocks. */
  ghost function TxPast(dag: Store, b: VertexId): set<VertexId>
    requires WellFormed(dag) && IsBlock(dag, b)
    decreases dag[b].timestamp
  {
    if IsGenesis(dag, b) then {}
    else
      BlockParentIsBlock(dag, b);
      TxPast(dag, BlockParent(dag, b)) + ReachOfParents(dag, b, |dag[b].parents|)
  }

  lemma {:induction false} ReachOfParentsClosed(dag: Store, b: VertexId, n: nat)
    requires WellFormed(dag) && IsBlock(dag, b) && n <= |dag[b].parents|
    ensures TxClosed(dag, ReachOfParents(dag, b, n))
    ensures forall u :: u in ReachOfParents(dag, b, n) ==> IsTx(dag, u)
  {
    if n > 1 {
      assert Shaped(dag, b);
      ReachOfParentsClosed(dag, b, n - 1);
      TxReachIsClosed(dag, dag[b].parents[n - 1]);
    }
  }

  lemma {:induction false} TxPastClosed(dag: Store, b: VertexId)
    requires WellFormed(dag) && IsBlock(dag, b)
    ensures TxClosed(dag, TxPast(dag, b))
    ensures forall u :: u in TxPast(dag, b) ==> IsTx(dag, u)
    decreases dag[b].timestamp
  {
    if !IsGenesis(dag, b) {
      BlockParentIsBlock(dag, b);
      TxPastClosed(dag, BlockParent(dag, b));
      ReachOfParentsClosed(dag, b, |dag[b].parents|);
    }
  }

  lemma {:induction false} TxPastMonotone(dag: Store, a: VertexId, b: VertexId)
    requires WellFormed(dag) && IsBlock(dag, b) && OnChain(dag, a, b)
    ensures IsBlock(dag, a) && TxPast(dag, a) <= TxPast(dag, b)
    decreases dag[b].timestamp
  {
    OnChainPrefix(dag, a, b);
    if a != b {
      OnChainStep(dag, a, b);
      BlockParentIsBlock(dag, b);
      TxPastMonotone(dag, a, BlockParent(dag, b));
    }
  }

  // ----- work -----

  ghost function Work(dag: Store, s: set<VertexId>): nat
    requires s <= dag.Keys
  {
    if s == {} then 0 else
      var v :| v in s;
      dag[v].work + Work(dag, s - {v})
  }

  lemma {:induction false} WorkRemove(dag: Store, s: set<VertexId>, v: VertexId)
    requires s <= dag.Keys && v in s
    ensures Work(dag, s) == dag[v].work + Work(dag, s - {v})
    decreases |s|
  {
    var w :| w in s && Work(dag, s) == dag[w].work + Work(dag, s - {w});
    if w != v {
      WorkRemove(dag, s - {w}, v);
      WorkRemove(dag, s - {v}, w);
      assert s - {w} - {v} == s - {v} - {w};
    }
  }

  lemma WorkAdd(dag: Store, s: set<VertexId>, v: VertexId)
    requires s <= dag.Keys && v in dag && v !in s
    ensures Work(dag, s + {v}) == Work(dag, s) + dag[v].work
  {
    WorkRemove(dag, s + {v}, v);
    assert s + {v} - {v} == s;
  }

  lemma {:induction false} WorkUnion(dag: Store, s: set<VertexId>, t: set<VertexId>)
    requires s <= dag.Keys && t <= dag.Keys && s !! t
    ensures Work(dag, s + t) == Work(dag, s) + Work(dag, t)
    decreases |t|
  {
    if t == {} {
      assert s + t == s;
    } else {
      var v :| v in t;
      WorkUnion(dag, s, t - {v});
      WorkRemove(dag, t, v);
      WorkRemove(dag, s + t, v);
      assert s + t - {v} == s + (t - {v});
    }
  }

  ghost function ChainSet(dag: Store, b: VertexId): (s: set<VertexId>)
    requires WellFormed(dag) && IsBlock(dag, b)
  {
    set a | a in Chain(dag, b)
  }

  /** The score of a block: the work of its whole past, blocks of its chain and transactions. */
  ghost function ConeWork(dag: Store, b: VertexId): nat
    requires WellFormed(dag) && IsBlock(dag, b)
  {
    ConeInStore(dag, b);
    Work(dag, ChainSet(dag, b)) + Work(dag, TxPast(dag, b))
  }

  lemma ConeInStore(dag: Store, b: VertexId)
    requires WellFormed(dag) && IsBlock(dag, b)
    ensures ChainSet(dag, b) <= dag.Keys && TxPast(dag, b) <= dag.Keys
  {
    forall a | a in Chain(dag, b)
      ensures a in dag
    {
      OnChainPrefix(dag, a, b);
    }
    TxPastClosed(dag, b);
  }

  /** One block more on the chain adds its own work and that of the transactions it confirms first. */
  lemma ConeWorkStep(dag: Store, b: VertexId)
    requires WellFormed(dag) && IsBlock(dag, b) && !IsGenesis(dag, b)
    ensures IsBlock(dag, BlockParent(dag, b))
    ensures TxPast(dag, b) <= dag.Keys
    ensures ConeWork(dag, b) == dag[b].work + ConeWork(dag, BlockParent(dag, b))
                                + Work(dag, TxPast(dag, b) - TxPast(dag, BlockParent(dag, b)))
  {
    BlockParentIsBlock(dag, b);
    var p := BlockParent(dag, b);
    ConeInStore(dag, b);
    ConeInStore(dag, p);
    OnChainStep(dag, b, b);
    if OnChain(dag, b, p) {
      OnChainPrefix(dag, b, p);
      assert false;
    }
    assert ChainSet(dag, b) == ChainSet(dag, p) + {b};
    WorkAdd(dag, ChainSet(dag, p), b);
    assert TxPast(dag, b) == TxPast(dag, p) + (TxPast(dag, b) - TxPast(dag, p));
    WorkUnion(dag, TxPast(dag, p), TxPast(dag, b) - TxPast(dag, p));
  }

  lemma {:induction false} ConeWorkMonotone(dag: Store, a: VertexId, b: VertexId)
    requires WellFormed(dag) && IsBlock(dag, b) && OnChain(dag, a, b)
    ensures IsBlock(dag, a) && (a != b ==> ConeWork(dag, a) < ConeWork(dag, b))
    decreases dag[b].timestamp
  {
    OnChainPrefix(dag, a, b);
    if a != b {
      OnChainStep(dag, a, b);
      ConeWorkStep(dag, b);
      BlockParentIsBlock(dag, b);
      assert Connected(dag, b);
      ConeWorkMonotone(dag, a, BlockParent(dag, b));
    }
  }

  // ----- the score is the work of everything a block verifies, directly or indirectly -----

  /** Everything reachable from `v` along any edge. */
  ghost function Cone(dag: Store, v: VertexId): set<VertexId>
    requires WellFormed(dag) && v in dag
    decreases dag[v].timestamp
  {
    {v} + set d, u | d in Deps(dag, v) && Older(dag, d, v) && u in Cone(dag, d) :: u
  }

  lemma {:induction false} ConeStep(dag: Store, v: VertexId, d: VertexId)
    requires WellFormed(dag) && v in dag && d in Deps(dag, v)
    ensures d in dag && dag[d].timestamp < dag[v].timestamp && Cone(dag, d) <= Cone(dag, v)
  {
    DepsOlder(dag, v);
    assert Older(dag, d, v);
  }

  lemma {:induction false} ConeLeast(dag: Store, v: VertexId, s: set<VertexId>)
    requires WellFormed(dag) && v in dag && v in s
    requires forall u, d :: u in s && u in dag && d in Deps(dag, u) ==> d in s
    ensures Cone(dag, v) <= s
    decreases dag[v].timestamp
  {
    forall u | u in Cone(dag, v)
      ensures u in s
    {
      if u != v {
        var d :| d in Deps(dag, v) && Older(dag, d, v) && u in Cone(dag, d);
        ConeLeast(dag, d, s);
      }
    }
  }

  lemma {:induction false} TxReachInCone(dag: Store, v: VertexId)
    requires WellFormed(dag) && IsTx(dag, v)
    ensures TxReach(dag, v) <= Cone(dag, v)
    decreases dag[v].timestamp
  {
    forall u | u in TxReach(dag, v)
      ensures u in Cone(dag, v)
    {
      if u != v {
        var d :| d in TxDeps(dag, v) && Older(dag, d, v) && u in TxReach(dag, d);
        TxReachInCone(dag, d);
        ConeStep(dag, v, d);
      }
    }
  }

  lemma {:induction false} ReachOfParentsInCone(dag: Store, b: VertexId, n: nat)
    requires WellFormed(dag) && IsBlock(dag, b) && n <= |dag[b].parents|
    ensures ReachOfParents(dag, b, n) <= Cone(dag, b)
  {
    if n > 1 {
      assert Shaped(dag, b);
      var t := dag[b].parents[n - 1];
      ReachOfParentsInCone(dag, b, n - 1);
      assert t in Deps(dag, b);
      TxReachInCone(dag, t);
      ConeStep(dag, b, t);
    }
  }

  lemma {:induction false} ChainAndTxsInCone(dag: Store, b: VertexId)
    requires WellFormed(dag) && IsBlock(dag, b)
    ensures ChainSet(dag, b) + TxPast(dag, b) <= Cone(dag, b)
    decreases dag[b].timestamp
  {
    if !IsGenesis(dag, b) {
      BlockParentIsBlock(dag, b);
      var p := BlockParent(dag, b);
      ChainAndTxsInCone(dag, p);
      assert p in Deps(dag, b);
      ConeStep(dag, b, p);
      ReachOfParentsInCone(dag, b, |dag[b].parents|);
      assert ChainSet(dag, b) == ChainSet(dag, p) + {b};
    }
  }

  lemma {:induction false} TxParentsInPast(dag: Store, b: VertexId, n: nat, i: nat)
    requires WellFormed(dag) && IsBlock(dag, b) && 1 <= i < n <= |dag[b].parents|
    ensures dag[b].parents[i] in ReachOfParents(dag, b, n)
  {
    assert Shaped(dag, b);
    if i < n - 1 {
      TxParentsInPast(dag, b, n - 1, i);
    }
  }

  lemma {:induction false} BlockDepsInside(dag: Store, b: VertexId, c: VertexId, d: VertexId)
    requires WellFormed(dag) && IsBlock(dag, b) && OnChain(dag, c, b) && c in dag && d in Deps(dag, c)
    ensures d in ChainSet(dag, b) + TxPast(dag, b)
  {
    OnChainPrefix(dag, c, b);
    assert Shaped(dag, c);
    var i :| 0 <= i < |dag[c].parents| && d == dag[c].parents[i];
    if i == 0 {
      OnChainStep(dag, d, c);
      OnChainStep(dag, d, d);
      OnChainTrans(dag, d, c, b);
    } else {
      TxParentsInPast(dag, c, |dag[c].parents|, i);
      TxPastMonotone(dag, c, b);
    }
  }

  lemma {:induction false} ConeClosed(dag: Store, v: VertexId, u: VertexId, d: VertexId)
    requires WellFormed(dag) && v in dag && u in Cone(dag, v) && u in dag && d in Deps(dag, u)
    ensures d in Cone(dag, v)
    decreases dag[v].timestamp
  {
    if u == v {
      ConeStep(dag, v, d);
    } else {
      var e :| e in Deps(dag, v) && Older(dag, e, v) && u in Cone(dag, e);
      ConeClosed(dag, e, u, d);
    }
  }

  lemma {:induction false} WorkGrows(dag: Store, s: set<VertexId>, t: set<VertexId>, v: VertexId)
    requires WellFormed(dag) && s <= t <= dag.Keys && v in t && v !in s
    ensures Work(dag, s) < Work(dag, t)
  {
    WorkUnion(dag, s, t - s);
    assert s + (t - s) == t;
    WorkRemove(dag, t - s, v);
    assert Connected(dag, v);
  }

  /** The transactions of the past spend only from blocks of the chain. */
  ghost predicate SpendsOnChain(dag: Store, b: VertexId)
    requires WellFormed(dag) && IsBlock(dag, b)
  {
    forall t, d :: t in TxPast(dag, b) && IsTx(dag, t) && d in Deps(dag, t) && IsBlock(dag, d) ==> OnChain(dag, d, b)
  }

  /** The score is the work of the whole past cone exactly when the transactions of the past spend
      only from blocks of the chain; otherwise it leaves out the blocks that are off it. */
  lemma {:induction false} ConeWorkIsWholeCone(dag: Store, b: VertexId)
    requires WellFormed(dag) && IsBlock(dag, b)
    ensures Cone(dag, b) <= dag.Keys && ConeWork(dag, b) <= Work(dag, Cone(dag, b))
    ensures ConeWork(dag, b) == Work(dag, Cone(dag, b)) <==> SpendsOnChain(dag, b)
  {
    hide Deps, Cone, TxPast, Chain;
    var s := ChainSet(dag, b) + TxPast(dag, b);
    DepsStored(dag);
    ConeLeast(dag, b, dag.Keys);
    ChainAndTxsInCone(dag, b);
    ConeInStore(dag, b);
    TxPastClosed(dag, b);
    forall c | c in Chain(dag, b)
      ensures IsBlock(dag, c)
    {
      OnChainPrefix(dag, c, b);
    }
    WorkUnion(dag, ChainSet(dag, b), TxPast(dag, b));
    if SpendsOnChain(dag, b) {
      ConeWithin(dag, b);
    } else {
      var t, d :| t in TxPast(dag, b) && IsTx(dag, t) && d in Deps(dag, t) && IsBlock(dag, d) && !OnChain(dag, d, b);
      ConeClosed(dag, b, t, d);
      WorkGrows(dag, s, Cone(dag, b), d);
    }
  }

  lemma {:induction false} DepsStored(dag: Store)
    requires WellFormed(dag)
    ensures forall u, d :: u in dag && d in Deps(dag, u) ==> d in dag
  {
    forall u, d | u in dag && d in Deps(dag, u)
      ensures d in dag
    {
      DepsOlder(dag, u);
    }
  }

  lemma {:induction false} ConeWithin(dag: Store, b: VertexId)
    requires WellFormed(dag) && IsBlock(dag, b) && SpendsOnChain(dag, b)
    ensures Cone(dag, b) == ChainSet(dag, b) + TxPast(dag, b)
  {
    hide Deps, Cone, TxPast, Chain;
    var s := ChainSet(dag, b) + TxPast(dag, b);
    TxPastClosed(dag, b);
    OnChainStep(dag, b, b);
    forall u, d | u in s && u in dag && d in Deps(dag, u)
      ensures d in s
    {
      if u in Chain(dag, b) {
        BlockDepsInside(dag, b, u, d);
      } else {
        DepsOlder(dag, u);
        assert IsBlock(dag, d) || d in TxDeps(dag, u);
      }
    }
    ConeLeast(dag, b, s);
    ChainAndTxsInCone(dag, b);
  }

  // ----- growth of the store: nothing about an old vertex changes -----

  ghost predicate Extends(dag: Store, dag': Store) {
    && WellFormed(dag) && WellFormed(dag')
    && forall v :: v in dag ==> v in dag' && dag'[v] == dag[v]
  }

  lemma {:induction false} TxReachStable(dag: Store, dag': Store, v: VertexId)
    requires Extends(dag, dag') && IsTx(dag, v)
    ensures TxReach(dag', v) == TxReach(dag, v)
    decreases dag[v].timestamp
  {
    assert Connected(dag, v);
    assert TxDeps(dag, v) == TxDeps(dag', v);
    forall d | d in TxDeps(dag, v)
      ensures TxReach(dag', d) == TxReach(dag, d) && Older(dag, d, v) && Older(dag', d, v)
    {
      assert d in Deps(dag, v);
      TxReachStable(dag, dag', d);
    }
  }

  lemma {:induction false} ReachOfParentsStable(dag: Store, dag': Store, b: VertexId, n: nat)
    requires Extends(dag, dag') && IsBlock(dag, b) && n <= |dag[b].parents|
    ensures ReachOfParents(dag', b, n) == ReachOfParents(dag, b, n)
  {
    if n > 1 {
      assert Shaped(dag, b);
      ReachOfParentsStable(dag, dag', b, n - 1);
      TxReachStable(dag, dag', dag[b].parents[n - 1]);
    }
  }

  lemma {:induction false} WorkStable(dag: Store, dag': Store, s: set<VertexId>)
    requires Extends(dag, dag') && s <= dag.Keys
    ensures s <= dag'.Keys && Work(dag', s) == Work(dag, s)
    decreases |s|
  {
    if s != {} {
      var v :| v in s;
      WorkRemove(dag, s, v);
      WorkRemove(dag', s, v);
      WorkStable(dag, dag', s - {v});
    }
  }

  lemma {:induction false} BlockStable(dag: Store, dag': Store, b: VertexId)
    requires Extends(dag, dag') && IsBlock(dag, b)
    ensures Chain(dag', b) == Chain(dag, b)
    ensures TxPast(dag', b) == TxPast(dag, b)
    ensures ConeWork(dag', b) == ConeWork(dag, b)
    decreases dag[b].timestamp
  {
    if !IsGenesis(dag, b) {
      BlockParentIsBlock(dag, b);
      BlockStable(dag, dag', BlockParent(dag, b));
      ReachOfParentsStable(dag, dag', b, |dag[b].parents|);
    }
    ConeInStore(dag, b);
    WorkStable(dag, dag', ChainSet(dag, b));
    WorkStable(dag, dag', TxPast(dag, b));
  }

  /** A fork of two blocks; a transaction that one of them confirms spends from the other. */
  const FORK: Store := map[
    0 := Vertex(true, 0, 1, [], [], {}),
    1 := Vertex(true, 1, 1, [0], [], {}),
    2 := Vertex(false, 2, 1, [], [Outpoint(1, 0)], {}),
    3 := Vertex(true, 3, 1, [0, 2], [], {})]

  lemma {:induction false} ForkIsWellFormed()
    ensures WellFormed(FORK)
  {
    Root(FORK, 0);
    OneParent(FORK, 1, 0);
    Spender(FORK, 2, 1);
    TwoParents(FORK, 3, 0, 2);
  }

  lemma {:induction false} Root(dag: Store, v: VertexId)
    requires v in dag && dag[v].isBlock && dag[v].work > 0 && dag[v].parents == [] && dag[v].inputs == []
    ensures Connected(dag, v) && Shaped(dag, v)
  {
  }

  lemma {:induction false} OneParent(dag: Store, v: VertexId, p: VertexId)
    requires v in dag && dag[v].isBlock && dag[v].work > 0 && dag[v].parents == [p] && dag[v].inputs == []
    requires IsBlock(dag, p) && dag[p].timestamp < dag[v].timestamp
    ensures Connected(dag, v) && Shaped(dag, v)
  {
  }

  lemma {:induction false} Spender(dag: Store, v: VertexId, p: VertexId)
    requires v in dag && !dag[v].isBlock && dag[v].work > 0 && dag[v].parents == [] && dag[v].inputs == [Outpoint(p, 0)]
    requires p in dag && dag[p].timestamp < dag[v].timestamp
    ensures Connected(dag, v) && Shaped(dag, v)
  {
  }

  lemma {:induction false} TwoParents(dag: Store, v: VertexId, p: VertexId, t: VertexId)
    requires v in dag && dag[v].isBlock && dag[v].work > 0 && dag[v].parents == [p, t] && dag[v].inputs == []
    requires IsBlock(dag, p) && IsTx(dag, t) && dag[p].timestamp < dag[v].timestamp && dag[t].timestamp < dag[v].timestamp
    ensures Connected(dag, v) && Shaped(dag, v)
  {
  }

  /** There the score is less than the work of the whole past. */
  lemma {:induction false} ScoreLeavesOut()
    ensures WellFormed(FORK) && IsBlock(FORK, 3) && Cone(FORK, 3) <= FORK.Keys
    ensures ConeWork(FORK, 3) < Work(FORK, Cone(FORK, 3))
  {
    hide WellFormed, TxReach, Cone;
    ForkIsWellFormed();
    assert Chain(FORK, 0) == [0];
    assert Chain(FORK, 3) == [0, 3];
    SelfReach(FORK, 2);
    assert 2 in ReachOfParents(FORK, 3, 2) && 2 in TxPast(FORK, 3);
    assert FORK[2].inputs[0].txId == 1 && 1 in Deps(FORK, 2);
    assert IsBlock(FORK, 1) && !OnChain(FORK, 1, 3);
    ConeWorkIsWholeCone(FORK, 3);
  }

  lemma {:induction false} SelfReach(dag: Store, v: VertexId)
    requires WellFormed(dag) && IsTx(dag, v)
    ensures v in TxReach(dag, v)
  {
  }
}
