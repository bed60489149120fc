/** Sequences without repetitions, and their elements. */
module Sequences {
  ghost predicate Distinct<T(!new)>(s: seq<T>) {
    forall i, j :: 0 <= i < j < |s| ==> s[i] != s[j]
  }

  function ToSet<T>(s: seq<T>): set<T> {
    set x | x in s
  }

  lemma {:induction false} ToSetAppend<T>(a: seq<T>, b: seq<T>)
    ensures ToSet(a + b) == ToSet(a) + ToSet(b)
  {
    assert forall x :: x in a + b <==> x in a || x in b;
  }

  /** The members of a set, in some order. */
  method Listed<T(==, !new)>(s: set<T>) returns (q: seq<T>)
    ensures ToSet(q) == s && Distinct(q)
  {
    q := [];
    var left := s;
    while left != {}
      invariant left <= s && ToSet(q) == s - left && Distinct(q)
      decreases |left|
    {
      var x :| x in left;
      assert x !in ToSet(q);
      ToSetAppend(q, [x]);
      q, left := q + [x], left - {x};
    }
  }
}
