/**
 Feature activation as a function of a block's own ancestors: the state of a feature only
 changes at the boundary block of each evaluation interval.
 */
module FeatureStates {
  import opened Dag
  import opened Wrappers

  type Feature = nat

  datatype State = Defined | Started | MustSignal | LockedIn | Active | Failed

  datatype Criteria = Criteria(bit: nat, startHeight: nat, timeoutHeight: nat, threshold: Option<nat>,
                               minimumActivationHeight: nat, lockInOnTimeout: bool)

  datatype Settings = Settings(evaluationInterval: nat, defaultThreshold: nat, features: map<Feature, Criteria>)

  predicate ValidSettings(s: Settings) {
    s.evaluationInterval > 0 && s.defaultThreshold <= s.evaluationInterval
  }

  function Threshold(c: Criteria, s: Settings): nat {
    match c.threshold
    case Some(t) => t
    case None => s.defaultThreshold
  }

  /** How many blocks of the interval so far, this one included, have the signal bit set. */
  function BitCount(dag: Store, interval: nat, b: VertexId, bit: nat): nat
    requires WellFormed(dag) && IsBlock(dag, b) && interval > 0
    decreases dag[b].timestamp
  {
    var own := if bit in dag[b].signals then 1 else 0;
    if Height(dag, b) % interval == 0 then own
    else
      OnChainStep(dag, b, b);
      BlockParentIsBlock(dag, b);
      BitCount(dag, interval, BlockParent(dag, b), bit) + own
  }

  /** One step of the state machine, at a boundary height; `reached` says whether the interval
      before it had enough signals. */
  function Transition(c: Criteria, interval: nat, height: nat, reached: bool, previous: State): State {
    match previous
    case Defined => if height >= c.startHeight then Started else Defined
    case Started =>
      if height >= c.timeoutHeight && !c.lockInOnTimeout then Failed
      else if height < c.timeoutHeight && reached then LockedIn
      else if height + interval >= c.timeoutHeight && c.lockInOnTimeout then MustSignal
      else Started
    case MustSignal => LockedIn
    case LockedIn => if height >= c.minimumActivationHeight then Active else LockedIn
    case Active => Active
    case Failed => Failed
  }

  /** The state after a boundary block. The count of its parent is that of the whole interval before. */
  function CalculateNewState(dag: Store, s: Settings, b: VertexId, feature: Feature, previous: State): State
    requires WellFormed(dag) && ValidSettings(s) && IsBlock(dag, b) && !IsGenesis(dag, b)
    requires Height(dag, b) % s.evaluationInterval == 0
  {
    if feature !in s.features then Defined
    else
      var c := s.features[feature];
      BlockParentIsBlock(dag, b);
      var count := BitCount(dag, s.evaluationInterval, BlockParent(dag, b), c.bit);
      Transition(c, s.evaluationInterval, Height(dag, b), count >= Threshold(c, s), previous)
  }

  /** Plain recursion: a boundary block moves the state of its parent on, any other block keeps it. */
  ghost function StateOf(dag: Store, s: Settings, feature: Feature, b: VertexId): State
    requires WellFormed(dag) && ValidSettings(s) && IsBlock(dag, b)
    decreases dag[b].timestamp
  {
    if IsGenesis(dag, b) then Defined
    else
      BlockParentIsBlock(dag, b);
      var previous := StateOf(dag, s, feature, BlockParent(dag, b));
      if Height(dag, b) % s.evaluationInterval == 0 then CalculateNewState(dag, s, b, feature, previous)
      else previous
  }

  // ----- intervals -----

  /** All blocks of an interval share the state of its boundary block. */
  lemma {:induction false} IntervalState(dag: Store, s: Settings, feature: Feature, a: VertexId, b: VertexId)
    requires WellFormed(dag) && ValidSettings(s) && IsBlock(dag, a) && IsBlock(dag, b) && OnChain(dag, a, b)
    requires Height(dag, a) % s.evaluationInterval == 0
    requires Height(dag, b) < Height(dag, a) + s.evaluationInterval
    ensures StateOf(dag, s, feature, b) == StateOf(dag, s, feature, a)
    decreases dag[b].timestamp
  {
    hide WellFormed, Chain;
    if a != b {
      OnChainPrefix(dag, a, b);
      OnChainStep(dag, a, b);
      BlockParentIsBlock(dag, b);
      NoBoundaryBetween(Height(dag, a), Height(dag, b), s.evaluationInterval);
      IntervalState(dag, s, feature, a, BlockParent(dag, b));
    }
  }

  lemma {:induction false} NoBoundaryBetween(a: nat, h: nat, interval: nat)
    requires interval > 0 && a % interval == 0 && a < h < a + interval
    ensures h % interval != 0
  {
    if h % interval == 0 {
      MultipleGap(a, h, interval);
    }
  }

  lemma {:induction false} MultipleGap(a: nat, b: nat, interval: nat)
    requires interval > 0 && a % interval == 0 && b % interval == 0 && a < b
    ensures a + interval <= b
  {
    var k := b / interval - a / interval;
    assert b - a == interval * k by {
      assert a == interval * (a / interval) && b == interval * (b / interval);
      Distribute(interval, b / interval, a / interval);
    }
    PositiveFactor(interval, k);
  }

  lemma Distribute(i: nat, p: int, q: int)
    ensures i * (p - q) == i * p - i * q
  {
  }

  lemma PositiveFactor(i: nat, k: int)
    requires i * k > 0
    ensures i * k >= i
  {
  }

  /** The boundary below a height: the height itself or the start of its interval. */
  lemma {:induction false} BoundaryBelow(h: nat, interval: nat)
    requires interval > 0
    ensures (h - h % interval) % interval == 0 && 0 <= h - h % interval <= h < h - h % interval + interval
  {
    var q := h / interval;
    assert h - h % interval == interval * q;
    assert (interval * q) % interval == 0 by {
      MultipleOf(interval, q);
    }
  }

  lemma {:induction false} MultipleOf(interval: nat, q: nat)
    requires interval > 0
    ensures (interval * q) % interval == 0
  {
    var x := interval * q;
    var k := q - x / interval;
    assert x % interval == interval * k by {
      assert x == interval * (x / interval) + x % interval;
      Distribute(interval, q, x / interval);
    }
    if interval * k > 0 {
      PositiveFactor(interval, k);
    }
  }

  /** Growth of the store changes no state. */
  lemma {:induction false} BitCountStable(dag: Store, dag': Store, interval: nat, b: VertexId, bit: nat)
    requires Extends(dag, dag') && IsBlock(dag, b) && interval > 0
    ensures BitCount(dag', interval, b, bit) == BitCount(dag, interval, b, bit)
    decreases dag[b].timestamp
  {
    BlockStable(dag, dag', b);
    if Height(dag, b) % interval != 0 {
      OnChainStep(dag, b, b);
      BlockParentIsBlock(dag, b);
      BitCountStable(dag, dag', interval, BlockParent(dag, b), bit);
    }
  }

  lemma {:induction false} StateStable(dag: Store, dag': Store, s: Settings, feature: Feature, b: VertexId)
    requires Extends(dag, dag') && ValidSettings(s) && IsBlock(dag, b)
    ensures StateOf(dag', s, feature, b) == StateOf(dag, s, feature, b)
    decreases dag[b].timestamp
  {
    BlockStable(dag, dag', b);
    if !IsGenesis(dag, b) {
      BlockParentIsBlock(dag, b);
      StateStable(dag, dag', s, feature, BlockParent(dag, b));
      if feature in s.features {
        BitCountStable(dag, dag', s.evaluationInterval, BlockParent(dag, b), s.features[feature].bit);
      }
    }
  }

  // ----- the life of a feature -----

  /** What the validation of criteria demands. */
  predicate ValidCriteria(c: Criteria, s: Settings) {
    var i := s.evaluationInterval;
    && i > 0
    && c.startHeight % i == 0 && c.timeoutHeight % i == 0 && c.minimumActivationHeight % i == 0
    && c.timeoutHeight >= c.startHeight + 2 * i
    && Threshold(c, s) <= i
  }

  /** The first height at which the process can be in progress. */
  function FirstHeight(c: Criteria, s: Settings): nat {
    if c.startHeight >= s.evaluationInterval then c.startHeight else s.evaluationInterval
  }

  /** Two whole intervals remain between the first height and the timeout. */
  predicate EnoughTime(c: Criteria, s: Settings) {
    c.timeoutHeight >= FirstHeight(c, s) + 2 * s.evaluationInterval
  }

  function Rank(state: State): nat {
    match state
    case Defined => 0
    case Started => 1
    case MustSignal => 2
    case LockedIn => 3
    case Active => 4
    case Failed => 5
  }

  /** Along a chain the state only moves forward; active and failed are final. */
  lemma {:induction false} OnlyForward(dag: Store, s: Settings, feature: Feature, a: VertexId, b: VertexId)
    requires WellFormed(dag) && ValidSettings(s) && IsBlock(dag, a) && IsBlock(dag, b) && OnChain(dag, a, b)
    ensures Rank(StateOf(dag, s, feature, a)) <= Rank(StateOf(dag, s, feature, b))
    ensures StateOf(dag, s, feature, a) == Active ==> StateOf(dag, s, feature, b) == Active
    decreases dag[b].timestamp
  {
    if a != b {
      OnChainStep(dag, a, b);
      BlockParentIsBlock(dag, b);
      OnlyForward(dag, s, feature, a, BlockParent(dag, b));
      Unconfigured(dag, s, feature, BlockParent(dag, b));
    }
  }

  lemma {:induction false} Unconfigured(dag: Store, s: Settings, feature: Feature, b: VertexId)
    requires WellFormed(dag) && ValidSettings(s) && IsBlock(dag, b)
    ensures feature !in s.features ==> StateOf(dag, s, feature, b) == Defined
    decreases dag[b].timestamp
  {
    if !IsGenesis(dag, b) {
      BlockParentIsBlock(dag, b);
      Unconfigured(dag, s, feature, BlockParent(dag, b));
    }
  }

  /** The states a feature that locks in on timeout can have at height `h`. */
  predicate LockInLife(c: Criteria, s: Settings, h: nat, state: State) {
    var i := s.evaluationInterval;
    && (state == Active ==> h >= c.minimumActivationHeight)
    && if h < FirstHeight(c, s) then state == Defined
       else if h < c.timeoutHeight - i then state in {Started, LockedIn, Active}
       else if h < c.timeoutHeight then state in {MustSignal, LockedIn, Active}
       else if h < c.timeoutHeight + i then state in {LockedIn, Active}
       else state == if h >= c.minimumActivationHeight then Active else LockedIn
  }

  /** The same when the timeout comes too early: the mandatory interval starts only at the timeout. */
  predicate LateLife(c: Criteria, s: Settings, h: nat, state: State) {
    var i := s.evaluationInterval;
    if h < i then state == Defined
    else if h < c.timeoutHeight then state == Started
    else if h < c.timeoutHeight + i then state == MustSignal
    else if h < c.timeoutHeight + 2 * i then state == LockedIn
    else state == if h >= c.minimumActivationHeight then Active else LockedIn
  }

  /** The states of any other feature at height `h`. */
  predicate PlainLife(c: Criteria, s: Settings, h: nat, state: State) {
    && (state == Active ==> h >= c.minimumActivationHeight)
    && if h < FirstHeight(c, s) then state == Defined
       else if h < c.timeoutHeight then state in {Started, LockedIn, Active}
       else state in {Failed, LockedIn, Active}
  }

  /** Where a boundary height `h` stands to the multiples `t` and `t + interval`. */
  lemma {:induction false} AtBoundary(h: nat, t: nat, interval: nat)
    requires interval > 0 && t % interval == 0 && h > 0
    ensures h % interval != 0 ==> (h - 1 < t <==> h < t)
    ensures h % interval == 0 && h - 1 >= t ==> h >= t + interval
  {
    if h % interval == 0 && h - 1 >= t {
      MultipleGap(t, h, interval);
    }
  }

  lemma {:induction false} Shifted(t: nat, interval: nat)
    requires interval > 0 && t % interval == 0 && t >= interval
    ensures (t - interval) % interval == 0 && (t + interval) % interval == 0 && (t + 2 * interval) % interval == 0
  {
    var q := t / interval;
    assert t == interval * q;
    Distribute(interval, q, 1);
    Distribute(interval, q, -1);
    Distribute(interval, q, -2);
    if q < 1 {
      assert false;
    }
    MultipleOf(interval, q - 1);
    MultipleOf(interval, q + 1);
    MultipleOf(interval, q + 2);
  }

  lemma {:induction false} FirstHeightMultiple(c: Criteria, s: Settings)
    requires ValidCriteria(c, s)
    ensures FirstHeight(c, s) % s.evaluationInterval == 0
    ensures c.startHeight < s.evaluationInterval ==> c.startHeight == 0
    ensures !EnoughTime(c, s) ==> c.startHeight == 0 && c.timeoutHeight == 2 * s.evaluationInterval
  {
    var i := s.evaluationInterval;
    MultipleOf(i, 1);
    if 0 < c.startHeight < i {
      MultipleGap(0, c.startHeight, i);
    }
    if !EnoughTime(c, s) && c.timeoutHeight > 2 * i {
      MultipleOf(i, 2);
      MultipleGap(2 * i, c.timeoutHeight, i);
    }
  }

  /** A block's height `h` and the multiple `t` of the interval: within an interval the parent is on the
      same side of `t`, and a boundary above `t` is a whole interval above it. */
  predicate Aligned(h: nat, t: int, interval: nat, boundary: bool)
    requires h > 0
  {
    && (!boundary ==> (h - 1 < t <==> h < t))
    && (boundary && h - 1 >= t ==> h >= t + interval)
  }

  /** Every height named by the criteria, seen from a block and from its parent. */
  lemma {:induction false} Landmarks(c: Criteria, s: Settings, h: nat)
    requires ValidCriteria(c, s) && h > 0
    ensures var i := s.evaluationInterval;
            var boundary := h % i == 0;
            && Aligned(h, 0, i, boundary) && Aligned(h, i, i, boundary) && Aligned(h, FirstHeight(c, s), i, boundary)
            && Aligned(h, c.timeoutHeight - i, i, boundary) && Aligned(h, c.timeoutHeight, i, boundary)
            && Aligned(h, c.timeoutHeight + i, i, boundary) && Aligned(h, c.timeoutHeight + 2 * i, i, boundary)
            && Aligned(h, c.minimumActivationHeight, i, boundary)
  {
    var i := s.evaluationInterval;
    FirstHeightMultiple(c, s);
    Shifted(c.timeoutHeight, i);
    MultipleOf(i, 0);
    MultipleOf(i, 1);
    AtBoundary(h, 0, i);
    AtBoundary(h, i, i);
    AtBoundary(h, FirstHeight(c, s), i);
    AtBoundary(h, c.timeoutHeight - i, i);
    AtBoundary(h, c.timeoutHeight, i);
    AtBoundary(h, c.timeoutHeight + i, i);
    AtBoundary(h, c.timeoutHeight + 2 * i, i);
    AtBoundary(h, c.minimumActivationHeight, i);
  }

  lemma {:induction false} LockInStart(c: Criteria, s: Settings)
    requires ValidCriteria(c, s) && EnoughTime(c, s) && c.lockInOnTimeout
    ensures LockInLife(c, s, 0, Defined)
  {
    FirstHeightMultiple(c, s);
  }

  lemma {:induction false} LockInStep(c: Criteria, s: Settings, h: nat, reached: bool, previous: State)
    requires ValidCriteria(c, s) && h > 0 && EnoughTime(c, s) && c.lockInOnTimeout && LockInLife(c, s, h - 1, previous)
    ensures LockInLife(c, s, h, if h % s.evaluationInterval == 0 then Transition(c, s.evaluationInterval, h, reached, previous)
                           else previous)
  {
    Landmarks(c, s, h);
    FirstHeightMultiple(c, s);
  }

  lemma {:induction false} LateStart(c: Criteria, s: Settings)
    requires ValidCriteria(c, s) && !EnoughTime(c, s) && c.lockInOnTimeout
    ensures LateLife(c, s, 0, Defined)
  {
    FirstHeightMultiple(c, s);
  }

  lemma {:induction false} LateStep(c: Criteria, s: Settings, h: nat, reached: bool, previous: State)
    requires ValidCriteria(c, s) && h > 0 && !EnoughTime(c, s) && c.lockInOnTimeout && LateLife(c, s, h - 1, previous)
    ensures LateLife(c, s, h, if h % s.evaluationInterval == 0 then Transition(c, s.evaluationInterval, h, reached, previous)
                           else previous)
  {
    Landmarks(c, s, h);
    FirstHeightMultiple(c, s);
  }

  lemma {:induction false} PlainStart(c: Criteria, s: Settings)
    requires ValidCriteria(c, s) && !c.lockInOnTimeout
    ensures PlainLife(c, s, 0, Defined)
  {
    FirstHeightMultiple(c, s);
  }

  lemma {:induction false} PlainStep(c: Criteria, s: Settings, h: nat, reached: bool, previous: State)
    requires ValidCriteria(c, s) && h > 0 && !c.lockInOnTimeout && PlainLife(c, s, h - 1, previous)
    ensures PlainLife(c, s, h, if h % s.evaluationInterval == 0 then Transition(c, s.evaluationInterval, h, reached, previous)
                           else previous)
  {
    Landmarks(c, s, h);
    FirstHeightMultiple(c, s);
  }

  lemma {:induction false} LockInHolds(dag: Store, s: Settings, feature: Feature, b: VertexId)
    requires WellFormed(dag) && ValidSettings(s) && IsBlock(dag, b) && feature in s.features
    requires ValidCriteria(s.features[feature], s) && EnoughTime(s.features[feature], s)
             && s.features[feature].lockInOnTimeout
    ensures LockInLife(s.features[feature], s, Height(dag, b), StateOf(dag, s, feature, b))
    decreases dag[b].timestamp
  {
    hide WellFormed, Chain, BitCount, Transition, ValidCriteria, LockInLife;
    OnChainStep(dag, b, b);
    var c, h := s.features[feature], Height(dag, b);
    if IsGenesis(dag, b) {
      LockInStart(c, s);
    } else {
      BlockParentIsBlock(dag, b);
      LockInHolds(dag, s, feature, BlockParent(dag, b));
      var previous := StateOf(dag, s, feature, BlockParent(dag, b));
      var count := BitCount(dag, s.evaluationInterval, BlockParent(dag, b), c.bit);
      LockInStep(c, s, h, count >= Threshold(c, s), previous);
    }
  }

  lemma {:induction false} LateHolds(dag: Store, s: Settings, feature: Feature, b: VertexId)
    requires WellFormed(dag) && ValidSettings(s) && IsBlock(dag, b) && feature in s.features
    requires ValidCriteria(s.features[feature], s) && !EnoughTime(s.features[feature], s)
             && s.features[feature].lockInOnTimeout
    ensures LateLife(s.features[feature], s, Height(dag, b), StateOf(dag, s, feature, b))
    decreases dag[b].timestamp
  {
    hide WellFormed, Chain, BitCount, Transition, ValidCriteria, LateLife;
    OnChainStep(dag, b, b);
    var c, h := s.features[feature], Height(dag, b);
    if IsGenesis(dag, b) {
      LateStart(c, s);
    } else {
      BlockParentIsBlock(dag, b);
      LateHolds(dag, s, feature, BlockParent(dag, b));
      var previous := StateOf(dag, s, feature, BlockParent(dag, b));
      var count := BitCount(dag, s.evaluationInterval, BlockParent(dag, b), c.bit);
      LateStep(c, s, h, count >= Threshold(c, s), previous);
    }
  }

  lemma {:induction false} PlainHolds(dag: Store, s: Settings, feature: Feature, b: VertexId)
    requires WellFormed(dag) && ValidSettings(s) && IsBlock(dag, b) && feature in s.features
    requires ValidCriteria(s.features[feature], s) && !s.features[feature].lockInOnTimeout
    ensures PlainLife(s.features[feature], s, Height(dag, b), StateOf(dag, s, feature, b))
    decreases dag[b].timestamp
  {
    hide WellFormed, Chain, BitCount, Transition, ValidCriteria, PlainLife;
    OnChainStep(dag, b, b);
    var c, h := s.features[feature], Height(dag, b);
    if IsGenesis(dag, b) {
      PlainStart(c, s);
    } else {
      BlockParentIsBlock(dag, b);
      PlainHolds(dag, s, feature, BlockParent(dag, b));
      var previous := StateOf(dag, s, feature, BlockParent(dag, b));
      var count := BitCount(dag, s.evaluationInterval, BlockParent(dag, b), c.bit);
      PlainStep(c, s, h, count >= Threshold(c, s), previous);
    }
  }

  /**
   A feature that locks in on timeout never fails, and in the interval that follows the one
   after the timeout it is active, once its minimum height is reached, exactly when the criteria
   leave two whole intervals between the first height and the timeout.
   */
  lemma {:induction false} LockInActive(dag: Store, s: Settings, feature: Feature, b: VertexId)
    requires WellFormed(dag) && ValidSettings(s) && IsBlock(dag, b) && feature in s.features
    requires ValidCriteria(s.features[feature], s) && s.features[feature].lockInOnTimeout
    ensures var c, i, h, state := s.features[feature], s.evaluationInterval, Height(dag, b), StateOf(dag, s, feature, b);
            && state != Failed
            && (EnoughTime(c, s) && h >= c.timeoutHeight + i && h >= c.minimumActivationHeight ==> state == Active)
            && (c.timeoutHeight + i <= h < c.timeoutHeight + 2 * i && h >= c.minimumActivationHeight ==>
                  (state == Active <==> EnoughTime(c, s)))
  {
    if EnoughTime(s.features[feature], s) {
      LockInHolds(dag, s, feature, b);
    } else {
      LateHolds(dag, s, feature, b);
    }
  }

  /** The mandatory phase is exactly one interval: the last before the timeout, or the one after it. */
  lemma {:induction false} MustSignalOneInterval(dag: Store, s: Settings, feature: Feature, b: VertexId)
    requires WellFormed(dag) && ValidSettings(s) && IsBlock(dag, b) && feature in s.features
    requires ValidCriteria(s.features[feature], s)
    requires StateOf(dag, s, feature, b) == MustSignal
    ensures var c, i, h := s.features[feature], s.evaluationInterval, Height(dag, b);
            && c.lockInOnTimeout
            && if EnoughTime(c, s) then c.timeoutHeight - i <= h < c.timeoutHeight
               else c.timeoutHeight <= h < c.timeoutHeight + i
  {
    if s.features[feature].lockInOnTimeout {
      if EnoughTime(s.features[feature], s) {
        LockInHolds(dag, s, feature, b);
      } else {
        LateHolds(dag, s, feature, b);
      }
    } else {
      PlainHolds(dag, s, feature, b);
    }
  }

  /** Criteria that pass validation and still leave too little time: such a feature is not yet
      active an interval after its timeout, on any chain. */
  lemma {:induction false} EarlyTimeout(dag: Store, b: VertexId)
    requires WellFormed(dag) && IsBlock(dag, b) && 12 <= Height(dag, b) < 16
    ensures var c := Criteria(0, 0, 8, None, 0, true);
            var s := Settings(4, 3, map[0 := c]);
            ValidSettings(s) && ValidCriteria(c, s) && StateOf(dag, s, 0, b) == LockedIn
  {
    var c := Criteria(0, 0, 8, None, 0, true);
    LateHolds(dag, Settings(4, 3, map[0 := c]), 0, b);
  }

  // ----- mandatory signalling -----

  function Remaining(dag: Store, interval: nat, b: VertexId): nat
    requires WellFormed(dag) && IsBlock(dag, b) && interval > 0
  {
    interval - Height(dag, b) % interval - 1
  }

  /** `b` leaves too few blocks in its interval for the threshold to be reached. */
  predicate MissesSignal(dag: Store, s: Settings, b: VertexId, c: Criteria)
    requires WellFormed(dag) && ValidSettings(s) && IsBlock(dag, b)
  {
    Threshold(c, s) - BitCount(dag, s.evaluationInterval, b, c.bit) > Remaining(dag, s.evaluationInterval, b)
  }

  /** Within an interval the count never goes down, and grows by at most one for each block. */
  lemma {:induction false} CountWithin(dag: Store, s: Settings, b: VertexId, d: VertexId, bit: nat)
    requires WellFormed(dag) && ValidSettings(s) && IsBlock(dag, b) && IsBlock(dag, d) && OnChain(dag, b, d)
    requires Height(dag, d) <= Height(dag, b) + Remaining(dag, s.evaluationInterval, b)
    ensures BitCount(dag, s.evaluationInterval, b, bit) <= BitCount(dag, s.evaluationInterval, d, bit)
                                                        <= BitCount(dag, s.evaluationInterval, b, bit) + Height(dag, d) - Height(dag, b)
    decreases dag[d].timestamp
  {
    hide WellFormed, Chain;
    if b != d {
      OnChainPrefix(dag, b, d);
      OnChainStep(dag, b, d);
      BlockParentIsBlock(dag, d);
      InsideInterval(Height(dag, b), Height(dag, d), s.evaluationInterval);
      CountWithin(dag, s, b, BlockParent(dag, d), bit);
    }
  }

  lemma {:induction false} InsideInterval(a: nat, h: nat, interval: nat)
    requires interval > 0 && a < h <= a + (interval - a % interval - 1)
    ensures h % interval != 0 && h % interval == a % interval + (h - a)
  {
    BoundaryBelow(a, interval);
    NoBoundaryBetween(a - a % interval, h, interval);
    BoundaryBelow(h, interval);
    if h - h % interval > a - a % interval {
      MultipleGap(a - a % interval, h - h % interval, interval);
    } else if h - h % interval < a - a % interval {
      MultipleGap(h - h % interval, a - a % interval, interval);
    }
  }

  // ----- what can still follow in the interval -----

  lemma {:induction false} FreshId(ids: set<VertexId>) returns (id: VertexId)
    ensures forall v :: v in ids ==> v < id
  {
    if ids == {} {
      id := 0;
    } else {
      var v :| v in ids;
      var rest := ids - {v};
      var other := FreshId(rest);
      assert forall x :: x in ids ==> x == v || x in rest;
      id := if v < other then other else v + 1;
    }
  }

  /** Any store can be extended by a block on top of `b` with given signal bits. */
  lemma {:induction false} NextBlock(dag: Store, b: VertexId, bits: set<nat>) returns (dag': Store, d: VertexId)
    requires WellFormed(dag) && IsBlock(dag, b)
    ensures Extends(dag, dag') && IsBlock(dag', d) && !IsGenesis(dag', d) && BlockParent(dag', d) == b
    ensures dag'[d].signals == bits
  {
    d := FreshId(dag.Keys);
    var v := Vertex(true, dag[b].timestamp + 1, 1, [b], [], bits);
    dag' := dag[d := v];
    forall x | x in Deps(dag', d)
      ensures x == b
    {
      assert v.parents == [b] && v.inputs == [];
    }
    assert Connected(dag', d) && Shaped(dag', d);
    forall x | x in dag
      ensures Connected(dag', x) && Shaped(dag', x)
    {
      assert Connected(dag, x) && Shaped(dag, x) && Deps(dag', x) == Deps(dag, x);
    }
    assert forall x :: IsGenesis(dag', x) ==> IsGenesis(dag, x);
  }

  /** A block on top of `b` and in its interval adds its own bits to the counts. */
  lemma {:induction false} NextCounts(dag: Store, s: Settings, b: VertexId, d: VertexId, bit: nat)
    requires WellFormed(dag) && ValidSettings(s) && IsBlock(dag, b) && IsBlock(dag, d)
    requires !IsGenesis(dag, d) && BlockParent(dag, d) == b && Remaining(dag, s.evaluationInterval, b) > 0
    ensures Height(dag, d) == Height(dag, b) + 1 && OnChain(dag, b, d)
    ensures Remaining(dag, s.evaluationInterval, d) == Remaining(dag, s.evaluationInterval, b) - 1
    ensures BitCount(dag, s.evaluationInterval, d, bit) ==
            BitCount(dag, s.evaluationInterval, b, bit) + if bit in dag[d].signals then 1 else 0
  {
    hide WellFormed, Chain;
    OnChainStep(dag, b, b);
    OnChainStep(dag, b, d);
    InsideInterval(Height(dag, b), Height(dag, b) + 1, s.evaluationInterval);
  }

  /** In a larger store the same blocks have the same counts. */
  lemma {:induction false} CountsStable(dag: Store, dag': Store, s: Settings, b: VertexId, bit: nat)
    requires Extends(dag, dag') && ValidSettings(s) && IsBlock(dag, b)
    ensures IsBlock(dag', b) && Height(dag', b) == Height(dag, b)
    ensures Remaining(dag', s.evaluationInterval, b) == Remaining(dag, s.evaluationInterval, b)
    ensures BitCount(dag', s.evaluationInterval, b, bit) == BitCount(dag, s.evaluationInterval, b, bit)
  {
    hide WellFormed, Chain;
    BlockStable(dag, dag', b);
    BitCountStable(dag, dag', s.evaluationInterval, b, bit);
  }

  /** A store with the rest of an interval on top of `b`, ending in `d`. */
  ghost predicate Completes(dag: Store, s: Settings, b: VertexId, dag': Store, d: VertexId)
    requires WellFormed(dag) && ValidSettings(s) && IsBlock(dag, b)
  {
    && Extends(dag, dag') && IsBlock(dag', b) && IsBlock(dag', d) && OnChain(dag', b, d)
    && Height(dag', d) == Height(dag, b) + Remaining(dag, s.evaluationInterval, b)
  }

  /** The interval of `b` can always be completed with blocks that all signal `bits`. */
  lemma {:induction false} CompleteSignalling(dag: Store, s: Settings, b: VertexId, bits: set<nat>) returns (dag': Store, d: VertexId)
    requires WellFormed(dag) && ValidSettings(s) && IsBlock(dag, b)
    ensures Completes(dag, s, b, dag', d)
    ensures forall bit :: bit in bits ==>
              BitCount(dag', s.evaluationInterval, d, bit) ==
              BitCount(dag, s.evaluationInterval, b, bit) + Remaining(dag, s.evaluationInterval, b)
    decreases Remaining(dag, s.evaluationInterval, b)
  {
    hide WellFormed, Chain, BitCount;
    if Remaining(dag, s.evaluationInterval, b) == 0 {
      OnChainStep(dag, b, b);
      dag', d := dag, b;
    } else {
      var dag1, e := NextBlock(dag, b, bits);
      CountsStable(dag, dag1, s, b, 0);
      NextCounts(dag1, s, b, e, 0);
      dag', d := CompleteSignalling(dag1, s, e, bits);
      ExtendsTransitive(dag, dag1, dag');
      ChainKept(dag1, dag', b, e);
      OnChainTrans(dag', b, e, d);
      forall bit | bit in bits
        ensures BitCount(dag', s.evaluationInterval, d, bit) ==
                BitCount(dag, s.evaluationInterval, b, bit) + Remaining(dag, s.evaluationInterval, b)
      {
        CountsStable(dag, dag1, s, b, bit);
        NextCounts(dag1, s, b, e, bit);
      }
    }
  }

  lemma {:induction false} ExtendsTransitive(a: Store, b: Store, c: Store)
    requires Extends(a, b) && Extends(b, c)
    ensures Extends(a, c)
  {
    hide WellFormed;
  }

  lemma {:induction false} ChainKept(dag: Store, dag': Store, b: VertexId, e: VertexId)
    requires Extends(dag, dag') && IsBlock(dag, b) && IsBlock(dag, e) && OnChain(dag, b, e)
    ensures IsBlock(dag', b) && IsBlock(dag', e) && OnChain(dag', b, e)
  {
    hide WellFormed, Chain;
    BlockStable(dag, dag', e);
  }

  /** A block misses a signal exactly when no way to complete its interval reaches the threshold. */
  lemma {:induction false} MissesIffHopeless(dag: Store, s: Settings, b: VertexId, c: Criteria)
    requires WellFormed(dag) && ValidSettings(s) && IsBlock(dag, b)
    ensures MissesSignal(dag, s, b, c) <==>
              forall dag', d :: Completes(dag, s, b, dag', d) ==> BitCount(dag', s.evaluationInterval, d, c.bit) < Threshold(c, s)
  {
    hide WellFormed, Chain, BitCount;
    forall dag', d | Completes(dag, s, b, dag', d)
      ensures BitCount(dag', s.evaluationInterval, d, c.bit) <=
              BitCount(dag, s.evaluationInterval, b, c.bit) + Remaining(dag, s.evaluationInterval, b)
    {
      CountsStable(dag, dag', s, b, c.bit);
      CountWithin(dag', s, b, d, c.bit);
    }
    var dag', d := CompleteSignalling(dag, s, b, {c.bit});
  }

  /** Every block from `b` to `d` was accepted for all of `criteria`. */
  ghost predicate AllAccepted(dag: Store, s: Settings, b: VertexId, d: VertexId, criteria: set<Criteria>)
    requires WellFormed(dag) && ValidSettings(s) && IsBlock(dag, d)
  {
    forall e, c :: IsBlock(dag, e) && OnChain(dag, b, e) && OnChain(dag, e, d) && c in criteria ==> !MissesSignal(dag, s, e, c)
  }

  /**
   An accepted block can be followed by accepted blocks up to the end of its interval, for any
   number of mandatory features at once; every threshold is then reached.
   */
  lemma {:induction false} AcceptedExtends(dag: Store, s: Settings, b: VertexId, criteria: set<Criteria>)
    returns (dag': Store, d: VertexId)
    requires WellFormed(dag) && ValidSettings(s) && IsBlock(dag, b)
    requires forall c :: c in criteria ==> !MissesSignal(dag, s, b, c)
    ensures Completes(dag, s, b, dag', d) && AllAccepted(dag', s, b, d, criteria)
    ensures forall c :: c in criteria ==> BitCount(dag', s.evaluationInterval, d, c.bit) >= Threshold(c, s)
  {
    hide WellFormed, Chain, BitCount;
    var bits := set c | c in criteria :: c.bit;
    dag', d := CompleteSignalling(dag, s, b, bits);
    forall e, c | IsBlock(dag', e) && OnChain(dag', b, e) && OnChain(dag', e, d) && c in criteria
      ensures !MissesSignal(dag', s, e, c)
    {
      StillAccepted(dag', s, e, d, c) by {
        OnChainPrefix(dag', b, e);
        OnChainPrefix(dag', e, d);
        assert c.bit in bits;
        CountsStable(dag, dag', s, b, c.bit);
        InsideOrSame(Height(dag', b), Height(dag', e), Height(dag', d), s.evaluationInterval);
      }
    }
  }

  /** If the threshold is reached at the end of an interval, no block of it missed a signal. */
  lemma {:induction false} StillAccepted(dag: Store, s: Settings, e: VertexId, d: VertexId, c: Criteria)
    requires WellFormed(dag) && ValidSettings(s) && IsBlock(dag, e) && IsBlock(dag, d) && OnChain(dag, e, d)
    requires Height(dag, d) == Height(dag, e) + Remaining(dag, s.evaluationInterval, e)
    requires BitCount(dag, s.evaluationInterval, d, c.bit) >= Threshold(c, s)
    ensures !MissesSignal(dag, s, e, c)
  {
    hide WellFormed, Chain, BitCount;
    CountWithin(dag, s, e, d, c.bit);
  }

  lemma {:induction false} InsideOrSame(b: nat, e: nat, d: nat, interval: nat)
    requires interval > 0 && b <= e <= d && d == b + (interval - b % interval - 1)
    ensures d == e + (interval - e % interval - 1)
  {
    if b < e {
      InsideInterval(b, e, interval);
    }
  }

  lemma {:induction false} AcceptedAtEnd(dag: Store, s: Settings, b: VertexId, c: Criteria)
    requires WellFormed(dag) && ValidSettings(s) && IsBlock(dag, b)
    requires Height(dag, b) % s.evaluationInterval == s.evaluationInterval - 1
    ensures !MissesSignal(dag, s, b, c) <==> BitCount(dag, s.evaluationInterval, b, c.bit) >= Threshold(c, s)
  {
    hide WellFormed, Chain, BitCount;
  }

  // ----- signals and states, without the recursion -----

  /** The heights in a range at which the chain of `b` has a block that signals. */
  ghost function Signals(dag: Store, b: VertexId, bit: nat, from: int, to: int): set<int>
    requires WellFormed(dag) && IsBlock(dag, b)
  {
    set k | from <= k < to && 0 <= k < |Chain(dag, b)| && Chain(dag, b)[k] in dag && bit in dag[Chain(dag, b)[k]].signals
  }

  /** Enough blocks signal in the interval before the boundary height `l`: the feature's own threshold of
      them, or the default if it has none. */
  ghost predicate Enough(dag: Store, s: Settings, c: Criteria, b: VertexId, l: int)
    requires WellFormed(dag) && IsBlock(dag, b)
  {
    |Signals(dag, b, c.bit, l - s.evaluationInterval, l)| >= if c.threshold.Some? then c.threshold.value else s.defaultThreshold
  }

  lemma {:induction false} SignalsOfParent(dag: Store, b: VertexId, bit: nat, from: int, to: int)
    requires WellFormed(dag) && IsBlock(dag, b) && !IsGenesis(dag, b) && to <= Height(dag, b)
    ensures IsBlock(dag, BlockParent(dag, b)) && Height(dag, BlockParent(dag, b)) == Height(dag, b) - 1
    ensures Signals(dag, BlockParent(dag, b), bit, from, to) == Signals(dag, b, bit, from, to)
  {
    hide WellFormed;
    BlockParentIsBlock(dag, b);
  }

  lemma {:induction false} SignalsHere(dag: Store, b: VertexId, bit: nat, from: int)
    requires WellFormed(dag) && IsBlock(dag, b) && from <= Height(dag, b)
    ensures |Signals(dag, b, bit, from, Height(dag, b) + 1)| ==
            |Signals(dag, b, bit, from, Height(dag, b))| + if bit in dag[b].signals then 1 else 0
  {
    hide WellFormed, Chain;
    var h := Height(dag, b);
    var before := Signals(dag, b, bit, from, h);
    if bit in dag[b].signals {
      assert Signals(dag, b, bit, from, h + 1) == before + {h};
    } else {
      assert Signals(dag, b, bit, from, h + 1) == before;
    }
  }

  lemma {:induction false} NoSignals(dag: Store, b: VertexId, bit: nat, from: int)
    requires WellFormed(dag) && IsBlock(dag, b)
    ensures Signals(dag, b, bit, from, from) == {}
  {
  }

  /** The rolling count is the number of signalling blocks of the interval so far. */
  lemma {:induction false} BitCountIs(dag: Store, interval: nat, b: VertexId, bit: nat)
    requires WellFormed(dag) && IsBlock(dag, b) && interval > 0
    ensures BitCount(dag, interval, b, bit) ==
            |Signals(dag, b, bit, Height(dag, b) - Height(dag, b) % interval, Height(dag, b) + 1)|
    decreases dag[b].timestamp
  {
    hide WellFormed, Chain, Signals;
    var h := Height(dag, b);
    BoundaryBelow(h, interval);
    SignalsHere(dag, b, bit, h - h % interval);
    if h % interval == 0 {
      NoSignals(dag, b, bit, h);
    } else {
      OnChainStep(dag, b, b);
      BlockParentIsBlock(dag, b);
      SignalsOfParent(dag, b, bit, h - h % interval, h);
      BitCountIs(dag, interval, BlockParent(dag, b), bit);
      InsideInterval(h - h % interval, h, interval);
      PreviousInside(h, interval);
    }
  }

  lemma {:induction false} PreviousInside(h: nat, interval: nat)
    requires interval > 0 && h % interval != 0
    ensures h > 0 && (h - 1) % interval == h % interval - 1
  {
    BoundaryBelow(h, interval);
    var a := h - h % interval;
    if h - 1 > a {
      InsideInterval(a, h - 1, interval);
    }
  }

  /** The count that a boundary block looks at. */
  lemma {:induction false} ReachedIs(dag: Store, s: Settings, b: VertexId, c: Criteria)
    requires WellFormed(dag) && ValidSettings(s) && IsBlock(dag, b) && !IsGenesis(dag, b)
    requires Height(dag, b) % s.evaluationInterval == 0
    ensures IsBlock(dag, BlockParent(dag, b))
    ensures BitCount(dag, s.evaluationInterval, BlockParent(dag, b), c.bit) >= Threshold(c, s) <==> Enough(dag, s, c, b, Height(dag, b))
  {
    hide WellFormed, Chain, Signals;
    var h: int := Height(dag, b);
    var i: int := s.evaluationInterval;
    BlockParentIsBlock(dag, b);
    SignalsOfParent(dag, b, c.bit, h - i, h);
    BitCountIs(dag, i, BlockParent(dag, b), c.bit);
    LastInside(h, i);
  }

  lemma {:induction false} LastInside(h: nat, interval: nat)
    requires interval > 0 && h > 0 && h % interval == 0
    ensures h >= interval && (h - 1) % interval == interval - 1
  {
    MultipleGap(0, h, interval);
    Shifted(h, interval);
    if interval > 1 {
      InsideInterval(h - interval, h - 1, interval);
    }
  }

  /** What a boundary block does with the state of its parent. */
  lemma {:induction false} NextState(dag: Store, s: Settings, feature: Feature, b: VertexId)
    requires WellFormed(dag) && ValidSettings(s) && IsBlock(dag, b) && !IsGenesis(dag, b) && feature in s.features
    requires Height(dag, b) % s.evaluationInterval == 0
    ensures IsBlock(dag, BlockParent(dag, b))
    ensures var c, i, h := s.features[feature], s.evaluationInterval, Height(dag, b);
            var before, state := StateOf(dag, s, feature, BlockParent(dag, b)), StateOf(dag, s, feature, b);
            && (before == Defined ==> state in {Defined, Started} && (state == Started <==> h >= c.startHeight))
            && (before == Started && h < c.timeoutHeight ==>
                  && (state == LockedIn <==> Enough(dag, s, c, b, h))
                  && (state != LockedIn ==> state == if c.lockInOnTimeout && h + i >= c.timeoutHeight then MustSignal else Started))
            && (before == Started && h >= c.timeoutHeight ==> state == if c.lockInOnTimeout then MustSignal else Failed)
            && (before == MustSignal ==> state == LockedIn)
            && (before == LockedIn ==> state in {LockedIn, Active} && (state == Active <==> h >= c.minimumActivationHeight))
            && (before == Active ==> state == Active) && (before == Failed ==> state == Failed)
  {
    hide WellFormed, Chain, Enough;
    ReachedIs(dag, s, b, s.features[feature]);
  }

  /** The feature locks in at the boundary height `l`: by signals before the timeout, or on the timeout. */
  ghost predicate LocksAt(dag: Store, s: Settings, c: Criteria, b: VertexId, l: int)
    requires WellFormed(dag) && ValidSettings(s) && IsBlock(dag, b)
  {
    && l <= Height(dag, b) && l % s.evaluationInterval == 0
    && (|| (FirstHeight(c, s) < l < c.timeoutHeight && Enough(dag, s, c, b, l))
        || (c.lockInOnTimeout && l == if EnoughTime(c, s) then c.timeoutHeight else c.timeoutHeight + s.evaluationInterval))
  }

  ghost predicate Locks(dag: Store, s: Settings, c: Criteria, b: VertexId)
    requires WellFormed(dag) && ValidSettings(s) && IsBlock(dag, b)
  {
    exists l :: LocksAt(dag, s, c, b, l)
  }

  /** A boundary after the one at which it locks in, and high enough. */
  ghost predicate Activates(dag: Store, s: Settings, c: Criteria, b: VertexId)
    requires WellFormed(dag) && ValidSettings(s) && IsBlock(dag, b)
  {
    exists l, a :: LocksAt(dag, s, c, b, l) && ActivationHeight(s, c, l, a, Height(dag, b))
  }

  predicate ActivationHeight(s: Settings, c: Criteria, l: int, a: int, h: int)
    requires s.evaluationInterval > 0
  {
    l < a <= h && a % s.evaluationInterval == 0 && a >= c.minimumActivationHeight
  }

  lemma {:induction false} LocksAtParent(dag: Store, s: Settings, c: Criteria, b: VertexId, l: int)
    requires WellFormed(dag) && ValidSettings(s) && IsBlock(dag, b) && !IsGenesis(dag, b) && l < Height(dag, b)
    ensures IsBlock(dag, BlockParent(dag, b))
    ensures LocksAt(dag, s, c, BlockParent(dag, b), l) <==> LocksAt(dag, s, c, b, l)
  {
    hide WellFormed, Chain, Signals, FirstHeight, EnoughTime;
    SignalsOfParent(dag, b, c.bit, l - s.evaluationInterval, l);
  }

  /** Whether something has happened by `b` had happened by its parent, or happens at its boundary. */
  lemma {:induction false} LocksStep(dag: Store, s: Settings, c: Criteria, b: VertexId)
    requires WellFormed(dag) && ValidSettings(s) && IsBlock(dag, b) && !IsGenesis(dag, b)
    ensures IsBlock(dag, BlockParent(dag, b)) && Height(dag, BlockParent(dag, b)) == Height(dag, b) - 1
    ensures Locks(dag, s, c, b) <==> Locks(dag, s, c, BlockParent(dag, b)) || LocksAt(dag, s, c, b, Height(dag, b))
    ensures Activates(dag, s, c, b) <==>
            || Activates(dag, s, c, BlockParent(dag, b))
            || (Locks(dag, s, c, BlockParent(dag, b)) && Height(dag, b) % s.evaluationInterval == 0
                && Height(dag, b) >= c.minimumActivationHeight)
  {
    hide WellFormed, Chain, LocksAt;
    var p, h := BlockParent(dag, b), Height(dag, b);
    SignalsOfParent(dag, b, c.bit, 0, 0);
    var before := Height(dag, p);
    forall l
      ensures LocksAt(dag, s, c, p, l) <==> l < h && LocksAt(dag, s, c, b, l)
      ensures LocksAt(dag, s, c, b, l) ==> l <= h
    {
      LocksBelow(dag, s, c, p, l);
      LocksBelow(dag, s, c, b, l);
      if l < h {
        LocksAtParent(dag, s, c, b, l);
      }
    }
    if l, a :| LocksAt(dag, s, c, p, l) && ActivationHeight(s, c, l, a, before) {
      assert ActivationHeight(s, c, l, a, h);
    }
    if l :| LocksAt(dag, s, c, p, l) {
      assert h % s.evaluationInterval == 0 && h >= c.minimumActivationHeight ==> ActivationHeight(s, c, l, h, h);
    }
    if l, a :| LocksAt(dag, s, c, b, l) && ActivationHeight(s, c, l, a, h) {
      assert a < h ==> ActivationHeight(s, c, l, a, before);
    }
  }

  lemma {:induction false} LocksBelow(dag: Store, s: Settings, c: Criteria, b: VertexId, l: int)
    requires WellFormed(dag) && ValidSettings(s) && IsBlock(dag, b)
    ensures LocksAt(dag, s, c, b, l) ==> l <= Height(dag, b)
  {
    hide WellFormed, Chain, Enough;
  }

  /** The states of any feature at height `h`. */
  predicate Life(c: Criteria, s: Settings, h: nat, state: State) {
    if !c.lockInOnTimeout then PlainLife(c, s, h, state)
    else if EnoughTime(c, s) then LockInLife(c, s, h, state)
    else LateLife(c, s, h, state)
  }

  lemma {:induction false} LifeHolds(dag: Store, s: Settings, feature: Feature, b: VertexId)
    requires WellFormed(dag) && ValidSettings(s) && IsBlock(dag, b) && feature in s.features && ValidCriteria(s.features[feature], s)
    ensures Life(s.features[feature], s, Height(dag, b), StateOf(dag, s, feature, b))
  {
    hide WellFormed, Chain, PlainLife, LockInLife, LateLife, EnoughTime;
    if !s.features[feature].lockInOnTimeout {
      PlainHolds(dag, s, feature, b);
    } else if EnoughTime(s.features[feature], s) {
      LockInHolds(dag, s, feature, b);
    } else {
      LateHolds(dag, s, feature, b);
    }
  }

  /** Locking in at the height `h` itself, where the parent is not locked in. */
  lemma {:induction false} LocksHere(dag: Store, s: Settings, feature: Feature, b: VertexId)
    requires WellFormed(dag) && ValidSettings(s) && IsBlock(dag, b) && !IsGenesis(dag, b) && feature in s.features
    requires ValidCriteria(s.features[feature], s) && IsBlock(dag, BlockParent(dag, b))
    requires StateOf(dag, s, feature, BlockParent(dag, b)) !in {LockedIn, Active}
    ensures LocksAt(dag, s, s.features[feature], b, Height(dag, b)) <==> StateOf(dag, s, feature, b) in {LockedIn, Active}
    ensures StateOf(dag, s, feature, b) != Active
  {
    hide WellFormed, Chain, Enough;
    var c, h := s.features[feature], Height(dag, b);
    SignalsOfParent(dag, b, c.bit, 0, 0);
    LifeHolds(dag, s, feature, BlockParent(dag, b));
    Landmarks(c, s, h);
    FirstHeightMultiple(c, s);
    if h % s.evaluationInterval == 0 {
      NextState(dag, s, feature, b);
    }
  }

  /** The signals of the chain decide the state: a feature is locked in or active exactly if some boundary
      before the timeout had enough, or the timeout locked it in; and active exactly if a later boundary was
      high enough. What it is otherwise, its height says. */
  lemma {:induction false} SignalsDecide(dag: Store, s: Settings, feature: Feature, b: VertexId)
    requires WellFormed(dag) && ValidSettings(s) && IsBlock(dag, b) && feature in s.features && ValidCriteria(s.features[feature], s)
    ensures StateOf(dag, s, feature, b) in {LockedIn, Active} <==> Locks(dag, s, s.features[feature], b)
    ensures StateOf(dag, s, feature, b) == Active <==> Activates(dag, s, s.features[feature], b)
    ensures Life(s.features[feature], s, Height(dag, b), StateOf(dag, s, feature, b))
    decreases dag[b].timestamp
  {
    hide WellFormed, Chain, Enough, LocksAt, Life, ValidCriteria;
    var c := s.features[feature];
    LifeHolds(dag, s, feature, b);
    if IsGenesis(dag, b) {
      NeverAtGenesis(dag, s, c, b);
    } else {
      LocksStep(dag, s, c, b);
      BlockParentIsBlock(dag, b);
      SignalsDecide(dag, s, feature, BlockParent(dag, b));
      if StateOf(dag, s, feature, BlockParent(dag, b)) !in {LockedIn, Active} {
        LocksHere(dag, s, feature, b);
        NotBefore(dag, s, c, BlockParent(dag, b));
      } else if Height(dag, b) % s.evaluationInterval == 0 {
        NextState(dag, s, feature, b);
      }
    }
  }

  lemma {:induction false} NotBefore(dag: Store, s: Settings, c: Criteria, b: VertexId)
    requires WellFormed(dag) && ValidSettings(s) && IsBlock(dag, b) && !Locks(dag, s, c, b)
    ensures !Activates(dag, s, c, b)
  {
    hide WellFormed, Chain, LocksAt;
  }

  lemma {:induction false} NeverAtGenesis(dag: Store, s: Settings, c: Criteria, b: VertexId)
    requires WellFormed(dag) && ValidSettings(s) && IsGenesis(dag, b) && ValidCriteria(c, s)
    ensures !Locks(dag, s, c, b) && !Activates(dag, s, c, b)
  {
    hide WellFormed, Enough;
    assert Height(dag, b) == 0;
  }
}
