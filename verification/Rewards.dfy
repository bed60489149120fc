/** The block reward schedule and the closed form for the tokens mined up to a height. */
module Rewards {
  import opened Wrappers

  datatype Settings = Settings(initial: nat, minimum: nat, blocksPerHalving: Option<nat>, maximumHalvings: nat)

  function Pow2(n: nat): (r: nat)
    ensures r > 0
  {
    if n == 0 then 1 else 2 * Pow2(n - 1)
  }

  function Max(a: int, b: int): int {
    if a >= b then a else b
  }

  predicate Halving(s: Settings) {
    s.blocksPerHalving.Some? && s.blocksPerHalving.value > 0
  }

  function NumberOfHalvings(s: Settings, height: int): nat
    requires Halving(s)
  {
    Max(0, (height - 1) / s.blocksPerHalving.value)
  }

  /** The reward of the block at `height`; without halvings the two amounts must be equal. */
  function TokensIssued(s: Settings, height: int): (r: nat)
    requires s.blocksPerHalving == None ==> s.minimum == s.initial
    requires s.blocksPerHalving.Some? ==> Halving(s)
    ensures s.minimum <= r && (s.blocksPerHalving == None ==> r == s.initial)
  {
    if s.blocksPerHalving == None then s.minimum
    else if NumberOfHalvings(s, height) > s.maximumHalvings then s.minimum
    else Max(s.initial / Pow2(NumberOfHalvings(s, height)), s.minimum)
  }

  /** The reward after `n` halvings, each of them stopped at the minimum. */
  function Halved(s: Settings, n: nat): nat {
    if n == 0 then s.initial else Max(Halved(s, n - 1) / 2, s.minimum)
  }

  function Total(s: Settings, height: nat): nat
    requires Halving(s)
  {
    if height == 0 then 0 else Total(s, height - 1) + TokensIssued(s, height)
  }

  /** The same with every reward halved step by step. */
  function HalvedTotal(s: Settings, height: nat): nat
    requires Halving(s)
  {
    if height == 0 then 0 else HalvedTotal(s, height - 1) + Halved(s, NumberOfHalvings(s, height))
  }

  lemma {:induction false} DivTwice(x: nat, n: nat)
    ensures x / Pow2(n) / 2 == x / Pow2(n + 1)
  {
    var d := Pow2(n);
    var q := x / d / 2;
    var r := x - 2 * d * q;
    assert x == d * (x / d) + x % d;
    var e := x / d - 2 * q;
    assert 0 <= e <= 1;
    assert d * (x / d) == d * (2 * q + e) == 2 * d * q + d * e;
    assert r == d * e + x % d;
    assert 0 <= d * e <= d;
    DivUnique(x, 2 * d, q, r);
  }

  lemma {:induction false} DivUnique(x: nat, d: nat, q: nat, r: int)
    requires d > 0 && x == d * q + r && 0 <= r < d
    ensures x / d == q
  {
    var k := x / d - q;
    assert x == d * (x / d) + x % d;
    assert d * k == d * (x / d) - d * q;
    assert d * k == r - x % d;
    Factor(d, k, 1);
    Factor(d, -1, k);
  }

  lemma Factor(d: nat, a: int, b: int)
    ensures a >= b ==> d * a >= d * b
  {
  }

  /** Halving step by step is dividing once by the power of two. */
  lemma {:induction false} HalvedIsDivision(s: Settings, n: nat)
    requires s.initial >= s.minimum
    ensures Halved(s, n) == Max(s.initial / Pow2(n), s.minimum)
  {
    if n > 0 {
      HalvedIsDivision(s, n - 1);
      DivTwice(s.initial, n - 1);
    }
  }

  lemma {:induction false} DivShrinks(x: nat, m: nat, n: nat)
    requires m <= n
    ensures x / Pow2(n) <= x / Pow2(m)
    decreases n
  {
    hide Pow2;
    if m < n {
      DivShrinks(x, m, n - 1);
      DivTwice(x, n - 1);
    }
  }

  /** The early cut-off never changes the reward, if and only if one more halving than the limit
      reaches the minimum. */
  lemma {:induction false} CutOffAgrees(s: Settings)
    requires Halving(s) && s.initial >= s.minimum
    ensures (forall height :: TokensIssued(s, height) == Halved(s, NumberOfHalvings(s, height)))
            <==> s.initial / Pow2(s.maximumHalvings + 1) <= s.minimum
  {
    var m := s.maximumHalvings;
    if s.initial / Pow2(m + 1) <= s.minimum {
      forall height
        ensures TokensIssued(s, height) == Halved(s, NumberOfHalvings(s, height))
      {
        RewardAt(s, height);
      }
    } else {
      var b := s.blocksPerHalving.value;
      var height := b * (m + 1) + 1;
      DivUnique(height - 1, b, m + 1, 0);
      HalvedIsDivision(s, m + 1);
      assert NumberOfHalvings(s, height) == m + 1;
      assert TokensIssued(s, height) != Halved(s, NumberOfHalvings(s, height));
    }
  }

  lemma {:induction false} RewardAt(s: Settings, height: int)
    requires Halving(s) && s.initial >= s.minimum && s.initial / Pow2(s.maximumHalvings + 1) <= s.minimum
    ensures TokensIssued(s, height) == Halved(s, NumberOfHalvings(s, height))
  {
    var n := NumberOfHalvings(s, height);
    HalvedIsDivision(s, n);
    if n > s.maximumHalvings {
      DivShrinks(s.initial, s.maximumHalvings + 1, n);
    }
  }

  /** Up to the first halving the reward is the initial one; each later block has half of what the block one
      halving before it had, down to the minimum, which is also the reward beyond the limit of halvings. */
  lemma {:induction false} Schedule(s: Settings, height: int)
    requires Halving(s) && s.initial >= s.minimum
    ensures height <= s.blocksPerHalving.value ==> TokensIssued(s, height) == s.initial
    ensures height >= 1 && height <= s.maximumHalvings * s.blocksPerHalving.value ==>
              TokensIssued(s, height + s.blocksPerHalving.value) == Max(TokensIssued(s, height) / 2, s.minimum)
    ensures height > (s.maximumHalvings + 1) * s.blocksPerHalving.value ==> TokensIssued(s, height) == s.minimum
  {
    hide Pow2, NumberOfHalvings;
    var b, m := s.blocksPerHalving.value, s.maximumHalvings;
    HalvingsBetween(s, height);
    First();
    if 1 <= height <= m * b {
      HalvingsNext(s, height);
      DivTwice(s.initial, NumberOfHalvings(s, height));
    }
  }

  lemma {:induction false} HalvingsBetween(s: Settings, height: int)
    requires Halving(s)
    ensures height <= s.blocksPerHalving.value ==> NumberOfHalvings(s, height) == 0
    ensures 1 <= height <= s.maximumHalvings * s.blocksPerHalving.value ==> NumberOfHalvings(s, height) < s.maximumHalvings
    ensures height > (s.maximumHalvings + 1) * s.blocksPerHalving.value ==> NumberOfHalvings(s, height) > s.maximumHalvings
  {
    var b, m := s.blocksPerHalving.value, s.maximumHalvings;
    var q := (height - 1) / b;
    Euclid(height - 1, b);
    Factor(b, q, 1);
    Factor(b, q, m);
    Factor(b, m, q);
    assert b * m == m * b && (m + 1) * b == m * b + b;
  }

  lemma {:induction false} Euclid(x: int, d: nat)
    requires d > 0
    ensures d * (x / d) <= x < d * (x / d) + d
  {
    assert x == d * (x / d) + x % d;
  }

  lemma {:induction false} HalvingsNext(s: Settings, height: int)
    requires Halving(s) && height >= 1
    ensures NumberOfHalvings(s, height + s.blocksPerHalving.value) == NumberOfHalvings(s, height) + 1
  {
    var b := s.blocksPerHalving.value;
    var q := (height - 1) / b;
    Euclid(height - 1, b);
    Factor(b, -1, q);
    assert b * (q + 1) == b * q + b;
    DivUnique(height + b - 1, b, q + 1, height - 1 - b * q);
  }

  lemma {:induction false} First()
    ensures Pow2(0) == 1
  {
  }

  /** The limit of the settings: the floor of the logarithm of initial over minimum. */
  predicate LogLimit(s: Settings) {
    s.minimum * Pow2(s.maximumHalvings) <= s.initial < s.minimum * Pow2(s.maximumHalvings + 1)
  }

  lemma {:induction false} LogLimitSuffices(s: Settings)
    requires s.minimum >= 1 && LogLimit(s)
    ensures s.initial >= s.minimum && s.initial / Pow2(s.maximumHalvings + 1) <= s.minimum
  {
    hide Pow2;
    Factor(s.minimum, Pow2(s.maximumHalvings), 1);
    DivBelow(s.initial, Pow2(s.maximumHalvings + 1), s.minimum);
  }

  lemma {:induction false} DivBelow(x: nat, d: nat, m: nat)
    requires d > 0 && x < m * d
    ensures x / d < m
  {
    assert x == d * (x / d) + x % d;
    Factor(d, x / d, m);
  }

  lemma {:induction false} HalvingsOf(s: Settings, n: nat, k: nat)
    requires Halving(s) && 1 <= k <= s.blocksPerHalving.value
    ensures NumberOfHalvings(s, n * s.blocksPerHalving.value + k) == n
  {
    var b := s.blocksPerHalving.value;
    DivUnique(n * b + k - 1, b, n, k - 1);
  }

  /** Within one halving every block has the same reward. */
  lemma {:induction false} TotalWithin(s: Settings, n: nat, k: nat)
    requires Halving(s) && k <= s.blocksPerHalving.value
    ensures HalvedTotal(s, n * s.blocksPerHalving.value + k) == HalvedTotal(s, n * s.blocksPerHalving.value) + k * Halved(s, n)
  {
    hide Halved, Pow2, TokensIssued, NumberOfHalvings;
    if k > 0 {
      var base, reward := n * s.blocksPerHalving.value, Halved(s, n);
      TotalWithin(s, n, k - 1);
      HalvingsOf(s, n, k);
      assert HalvedTotal(s, base + k) == HalvedTotal(s, base + k - 1) + reward;
      assert k * reward == (k - 1) * reward + reward;
    }
  }

  lemma {:induction false} TotalsAgree(s: Settings, height: nat)
    requires Halving(s) && s.initial >= s.minimum && s.initial / Pow2(s.maximumHalvings + 1) <= s.minimum
    ensures HalvedTotal(s, height) == Total(s, height)
  {
    if height > 0 {
      TotalsAgree(s, height - 1);
      RewardAt(s, height);
    }
  }

  /** The two sums agree at every height if and only if the cut-off never changes a reward. */
  lemma {:induction false} MinedIffCutOff(s: Settings)
    requires Halving(s) && s.initial >= s.minimum
    ensures (forall height: nat :: HalvedTotal(s, height) == Total(s, height)) <==>
            s.initial / Pow2(s.maximumHalvings + 1) <= s.minimum
  {
    hide Pow2;
    if s.initial / Pow2(s.maximumHalvings + 1) <= s.minimum {
      forall height: nat
        ensures HalvedTotal(s, height) == Total(s, height)
      {
        TotalsAgree(s, height);
      }
    } else {
      CutOffAgrees(s);
      var height :| TokensIssued(s, height) != Halved(s, NumberOfHalvings(s, height));
      if height < 1 {
        Schedule(s, height);
        BeforeFirst(s, height);
      }
      Differ(s, height);
    }
  }

  lemma {:induction false} Differ(s: Settings, height: nat)
    requires Halving(s) && height > 0 && TokensIssued(s, height) != Halved(s, NumberOfHalvings(s, height))
    ensures exists n: nat :: HalvedTotal(s, n) != Total(s, n)
  {
    hide Pow2, TokensIssued, Halved, NumberOfHalvings;
    if HalvedTotal(s, height) == Total(s, height) {
      var n := height - 1;
      assert HalvedTotal(s, n) != Total(s, n);
    }
  }

  lemma {:induction false} BeforeFirst(s: Settings, height: int)
    requires Halving(s) && height < 1
    ensures NumberOfHalvings(s, height) == 0
  {
  }

  /** Sums whole halvings, then the blocks of the current one. */
  method GetMinedTokens(s: Settings, height: nat) returns (mined: nat)
    requires Halving(s)
    ensures mined == HalvedTotal(s, height)
    ensures s.initial >= s.minimum && s.initial / Pow2(s.maximumHalvings + 1) <= s.minimum ==> mined == Total(s, height)
  {
    hide Pow2, Total, NumberOfHalvings;
    var b := s.blocksPerHalving.value;
    var halvings := NumberOfHalvings(s, height);
    var inThisHalving := height - halvings * b;
    LastHalving(s, height);
    var perBlock := s.initial;
    mined := 0;
    var i := 0;
    while i < halvings
      invariant 0 <= i <= halvings
      invariant perBlock == Halved(s, i)
      invariant mined == HalvedTotal(s, i * b)
    {
      TotalWithin(s, i, b);
      assert i * b + b == (i + 1) * b;
      mined := mined + b * perBlock;
      perBlock := perBlock / 2;
      perBlock := Max(perBlock, s.minimum);
      i := i + 1;
    }
    TotalWithin(s, halvings, inThisHalving);
    mined := mined + inThisHalving * perBlock;
    if s.initial >= s.minimum && s.initial / Pow2(s.maximumHalvings + 1) <= s.minimum {
      TotalsAgree(s, height);
    }
  }

  lemma {:induction false} LastHalving(s: Settings, height: nat)
    requires Halving(s)
    ensures 0 <= height - NumberOfHalvings(s, height) * s.blocksPerHalving.value <= s.blocksPerHalving.value
  {
    var b := s.blocksPerHalving.value;
    if height > 0 {
      assert height - 1 == b * ((height - 1) / b) + (height - 1) % b;
      assert b * ((height - 1) / b) == ((height - 1) / b) * b;
    }
  }
}
