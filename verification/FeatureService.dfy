/**
 The feature service: states are cached in block metadata and the ancestor at a boundary is
 looked up in the height index when possible. It answers as the plain recursion does.
 */
module FeatureService {
  import opened Dag
  import opened Wrappers
  import opened FeatureStates
  import opened BlockMetadata
  import opened ForkChoice

  datatype Signaling = BlockIsSignaling | BlockIsMissingSignal(feature: Feature)

  /** The index is the chain of some block, and has every connected block that is not voided. */
  ghost predicate Trusted(dag: Store, known: set<VertexId>, voided: set<VertexId>, index: seq<VertexId>)
    requires WellFormed(dag)
  {
    && (exists x :: IsBlock(dag, x) && index == Chain(dag, x))
    && forall b :: b in known && b !in voided ==> IsBlock(dag, b) && Height(dag, b) < |index| && index[Height(dag, b)] == b
  }

  /** Every state of the block consensus gives a trusted index. */
  lemma {:induction false} ConsistentIsTrusted(dag: Store, known: set<VertexId>, score: map<VertexId, nat>,
                                               firstBlock: map<VertexId, VertexId>, voided: set<VertexId>,
                                               tips: seq<VertexId>, index: seq<VertexId>, p: VertexId, x: VertexId)
    requires Consistent(dag, known, score, firstBlock, voided, tips, index, p, x)
    ensures Trusted(dag, known, voided, index)
  {
    hide Chain, TxPast, ConeWork, Markers, TipsExact;
    forall b | b in known && b !in voided
      ensures IsBlock(dag, b) && Height(dag, b) < |index| && index[Height(dag, b)] == b
    {
      OnChainTrans(dag, b, p, x);
      OnChainPrefix(dag, b, x);
    }
  }

  lemma {:induction false} LookUp(dag: Store, known: set<VertexId>, voided: set<VertexId>, index: seq<VertexId>,
                                  b: VertexId, h: nat)
    requires WellFormed(dag) && Trusted(dag, known, voided, index)
    requires b in known && b !in voided && IsBlock(dag, b) && h <= Height(dag, b)
    ensures h < |index| && index[h] == Chain(dag, b)[h]
  {
    var x :| IsBlock(dag, x) && index == Chain(dag, x);
    assert OnChain(dag, b, x);
    OnChainPrefix(dag, b, x);
  }

  ghost predicate CacheSound(dag: Store, s: Settings, cache: map<(VertexId, Feature), State>)
    requires WellFormed(dag) && ValidSettings(s)
  {
    forall k :: k in cache ==> IsBlock(dag, k.0) && cache[k] == StateOf(dag, s, k.1, k.0)
  }

  lemma {:induction false} BoundaryBefore(h: nat, interval: nat)
    requires interval > 0 && h > 0
    ensures var offset := if h % interval == 0 then interval else h % interval;
            0 <= h - offset < h <= h - offset + interval && (h - offset) % interval == 0
  {
    BoundaryBelow(h, interval);
    if h % interval == 0 {
      BoundaryBelow(h - 1, interval);
      MultipleGap(h - 1 - (h - 1) % interval, h, interval);
    }
  }

  class Service {
    const settings: Settings
    var dag: Store
    // blocks whose validation is complete
    var known: set<VertexId>
    var voided: set<VertexId>
    var heightIndex: seq<VertexId>
    var cache: map<(VertexId, Feature), State>
    // features reported to the bit signaling service
    var mustSignal: set<Feature>

    ghost predicate Valid()
      reads this
    {
      && WellFormed(dag) && ValidSettings(settings)
      && Trusted(dag, known, voided, heightIndex)
      && CacheSound(dag, settings, cache)
    }

    constructor (s: Settings, dag: Store, known: set<VertexId>, voided: set<VertexId>, index: seq<VertexId>)
      requires ValidSettings(s) && WellFormed(dag) && Trusted(dag, known, voided, index)
      ensures Valid() && settings == s && this.dag == dag && this.known == known && cache == map[]
    {
      settings := s;
      this.dag, this.known, this.voided, heightIndex := dag, known, voided, index;
      cache, mustSignal := map[], {};
    }

    /** The consensus moves on: the store grows and any chain may become the best. */
    method OnConsensusUpdate(dag': Store, known': set<VertexId>, voided': set<VertexId>, index': seq<VertexId>)
      requires Valid() && Extends(dag, dag') && Trusted(dag', known', voided', index')
      modifies this
      ensures Valid() && dag == dag' && known == known' && cache == old(cache)
    {
      forall k | k in cache
        ensures IsBlock(dag', k.0) && cache[k] == StateOf(dag', settings, k.1, k.0)
      {
        StateStable(dag, dag', settings, k.1, k.0);
      }
      dag, known, voided, heightIndex := dag', known', voided', index';
    }

    /** Steps back over the parents. */
    method GetAncestorIteratively(block: VertexId, ancestorHeight: nat) returns (a: VertexId)
      requires Valid() && IsBlock(dag, block) && ancestorHeight <= Height(dag, block)
      requires Height(dag, block) - ancestorHeight <= settings.evaluationInterval
      ensures a == Chain(dag, block)[ancestorHeight]
    {
      hide WellFormed, Chain, CacheSound, Trusted;
      a := block;
      OnChainStep(dag, block, block);
      OnChainPrefix(dag, block, block);
      while Height(dag, a) > ancestorHeight
        invariant IsBlock(dag, a) && OnChain(dag, a, block) && Height(dag, a) >= ancestorHeight
        invariant Chain(dag, a)[ancestorHeight] == Chain(dag, block)[ancestorHeight]
        decreases dag[a].timestamp
      {
        OnChainStep(dag, a, a);
        BlockParentIsBlock(dag, a);
        ChainEnd(dag, a);
        OnChainStep(dag, BlockParent(dag, a), BlockParent(dag, a));
        OnChainStep(dag, BlockParent(dag, a), a);
        OnChainTrans(dag, BlockParent(dag, a), a, block);
        a := BlockParent(dag, a);
      }
    }

    /** The ancestor at a height, from the height index if the parent is on the best chain. */
    method GetAncestorAtHeight(block: VertexId, ancestorHeight: nat) returns (a: VertexId)
      requires Valid() && IsBlock(dag, block) && !IsGenesis(dag, block) && AncestorsIn(dag, block, known)
      requires ancestorHeight < Height(dag, block) <= ancestorHeight + settings.evaluationInterval
      ensures a == Chain(dag, block)[ancestorHeight]
    {
      hide WellFormed, Chain, CacheSound, Trusted;
      OnChainStep(dag, block, block);
      BlockParentIsBlock(dag, block);
      ChainEnd(dag, block);
      var parent := BlockParent(dag, block);
      OnChainStep(dag, parent, parent);
      OnChainStep(dag, parent, block);
      assert parent in known;
      if Height(dag, parent) == ancestorHeight {
        return parent;
      }
      if parent !in voided {
        LookUp(dag, known, voided, heightIndex, parent, ancestorHeight);
        assert ancestorHeight < |heightIndex|;
        return heightIndex[ancestorHeight];
      }
      a := GetAncestorIteratively(parent, ancestorHeight);
    }

    /** Stores a state that is not set yet, or is set to the same value. */
    method SetFeatureState(block: VertexId, feature: Feature, state: State)
      requires Valid() && IsBlock(dag, block) && state == StateOf(dag, settings, feature, block)
      modifies this`cache
      ensures Valid() && cache == old(cache)[(block, feature) := state]
    {
      assert (block, feature) in cache ==> cache[(block, feature)] == state;
      cache := cache[(block, feature) := state];
    }

    /** The state of a feature at a block. */
    method GetState(block: VertexId, feature: Feature) returns (state: State)
      requires Valid() && IsBlock(dag, block) && AncestorsIn(dag, block, known)
      modifies this`cache, this`mustSignal
      ensures Valid()
      ensures state == StateOf(dag, settings, feature, block)
      ensures forall k :: k in old(cache) ==> k in cache && cache[k] == old(cache)[k]
      ensures old(mustSignal) <= mustSignal <= old(mustSignal) + {feature}
      ensures !IsGenesis(dag, block) && Height(dag, block) % settings.evaluationInterval == 0 ==> (block, feature) in cache
      ensures !IsGenesis(dag, block) && (block, feature) !in old(cache) ==>
                exists h :: && 0 <= h < Height(dag, block) <= h + settings.evaluationInterval && h % settings.evaluationInterval == 0
                            && (Chain(dag, block)[h], feature) in cache
      ensures
        (!IsGenesis(dag, block) && (block, feature) !in old(cache) && Height(dag, block) % settings.evaluationInterval == 0 &&
         state == MustSignal) ==> feature in mustSignal
      decreases dag[block].timestamp
    {
      hide WellFormed, Chain, Trusted, BitCount, Transition, CalculateNewState;
      if IsGenesis(dag, block) {
        return Defined;
      }
      if (block, feature) in cache {
        return cache[(block, feature)];
      }
      var interval := settings.evaluationInterval;
      var height := Height(dag, block);
      var offsetToBoundary := height % interval;
      var offset := if offsetToBoundary == 0 then interval else offsetToBoundary;
      PreviousBoundary(dag, settings, feature, block);
      assert height - offset >= 0;
      BoundaryBefore(height, interval);
      var boundary := GetAncestorAtHeight(block, height - offset);
      AncestorsBelow(dag, block, boundary, known);
      var previous := GetState(boundary, feature);
      SetFeatureState(boundary, feature, previous);
      assert (Chain(dag, block)[height - offset], feature) in cache;
      if offsetToBoundary != 0 {
        return previous;
      }
      state := CalculateNewState(dag, settings, block, feature, previous);
      if state == MustSignal {
        mustSignal := mustSignal + {feature};
      }
      SetFeatureState(block, feature, state);
    }

    /** The state of every configured feature. */
    method GetFeatureInfos(block: VertexId) returns (states: map<Feature, State>)
      requires Valid() && IsBlock(dag, block) && AncestorsIn(dag, block, known)
      modifies this`cache, this`mustSignal
      ensures Valid()
      ensures states.Keys == settings.features.Keys
      ensures forall f :: f in states ==> states[f] == StateOf(dag, settings, f, block)
    {
      hide WellFormed, Chain, Trusted, CacheSound, StateOf;
      states := map[];
      var todo := settings.features.Keys;
      while todo != {}
        invariant Valid() && todo <= settings.features.Keys && states.Keys == settings.features.Keys - todo
        invariant forall f :: f in states ==> states[f] == StateOf(dag, settings, f, block)
        decreases |todo|
      {
        var feature :| feature in todo;
        var state := GetState(block, feature);
        states := states[feature := state];
        todo := todo - {feature};
      }
    }

    /** Whether the block signals every feature that is mandatory for it; `order` is the order in which
        the features are configured, and the first one missing is reported. */
    method IsSignalingMandatoryFeatures(block: VertexId, order: seq<Feature>) returns (r: Signaling)
      requires Valid() && IsBlock(dag, block) && AncestorsIn(dag, block, known)
      requires forall f :: f in order <==> f in settings.features
      modifies this`cache, this`mustSignal
      ensures Valid()
      ensures r.BlockIsSignaling? <==>
              forall f :: f in settings.features ==> !MissesMandatory(dag, settings, block, f)
      ensures r.BlockIsMissingSignal? ==>
                exists k :: && 0 <= k < |order| && order[k] == r.feature && MissesMandatory(dag, settings, block, order[k])
                            && forall j :: 0 <= j < k ==> !MissesMandatory(dag, settings, block, order[j])
    {
      hide WellFormed, Chain, Trusted, BitCount, CacheSound, StateOf, MissesSignal;
      var states := GetFeatureInfos(block);
      var k := 0;
      while k < |order|
        invariant 0 <= k <= |order| && Valid()
        invariant forall j :: 0 <= j < k ==> !MissesMandatory(dag, settings, block, order[j])
      {
        var feature := order[k];
        assert feature in order;
        if states[feature] == MustSignal && MissesSignal(dag, settings, block, settings.features[feature]) {
          assert MissesMandatory(dag, settings, block, order[k]);
          return BlockIsMissingSignal(feature);
        }
        k := k + 1;
      }
      return BlockIsSignaling;
    }
  }

  /** The feature is mandatory for the block, and the block leaves its threshold out of reach. */
  ghost predicate MissesMandatory(dag: Store, s: Settings, block: VertexId, f: Feature)
    requires WellFormed(dag) && ValidSettings(s) && IsBlock(dag, block)
  {
    f in s.features && StateOf(dag, s, f, block) == MustSignal && MissesSignal(dag, s, block, s.features[f])
  }

  /** The boundary block of the interval before: its state is what the block continues from. */
  lemma {:induction false} PreviousBoundary(dag: Store, s: Settings, feature: Feature, b: VertexId)
    requires WellFormed(dag) && ValidSettings(s) && IsBlock(dag, b) && !IsGenesis(dag, b)
    ensures var i, h := s.evaluationInterval, Height(dag, b);
            var offset := if h % i == 0 then i else h % i;
            && 0 <= h - offset < h <= h - offset + i
            && var a := Chain(dag, b)[h - offset];
               && IsBlock(dag, a) && OnChain(dag, a, b) && a != b
               && dag[a].timestamp < dag[b].timestamp
               && StateOf(dag, s, feature, b) ==
                    if h % i == 0 then CalculateNewState(dag, s, b, feature, StateOf(dag, s, feature, a))
                    else StateOf(dag, s, feature, a)
  {
    hide WellFormed, Chain, CalculateNewState;
    var i, h := s.evaluationInterval, Height(dag, b);
    var offset := if h % i == 0 then i else h % i;
    OnChainStep(dag, b, b);
    BlockParentIsBlock(dag, b);
    BoundaryBelow(h, i);
    if h % i == 0 {
      MultipleOf(i, 0);
      MultipleGap(0, h, i);
      Shifted(h, i);
    }
    AtHeight(dag, b, h - offset);
    var a := Chain(dag, b)[h - offset];
    OnChainPrefix(dag, a, b);
    assert a != b;
    if h % i == 0 {
      OnChainStep(dag, a, b);
      IntervalState(dag, s, feature, a, BlockParent(dag, b));
    } else {
      IntervalState(dag, s, feature, a, b);
    }
  }

  lemma {:induction false} AncestorsBelow(dag: Store, b: VertexId, a: VertexId, known: set<VertexId>)
    requires WellFormed(dag) && IsBlock(dag, a) && IsBlock(dag, b) && OnChain(dag, a, b) && AncestorsIn(dag, b, known)
    ensures AncestorsIn(dag, a, known)
  {
    hide WellFormed, Chain;
    forall c | OnChain(dag, c, a) && c != a
      ensures c in known
    {
      OnChainTrans(dag, c, a, b);
      OnChainPrefix(dag, c, a);
      OnChainPrefix(dag, a, b);
    }
  }
}
