/**
 The height index as a value: the block of height h is at position h of a sequence that is
 never empty. `Add` is the decision the index takes for one entry.
 */
module HeightIndex {

  datatype AddResult<+T> =
    | Stored(index: seq<T>)
    | ParentRequired // the entry would leave a gap
    | ReorgRefused   // the entry would replace a block without permission

  /** True if the index holds `hash` at `height`. */
  predicate Holds<T(==)>(index: seq<T>, height: nat, hash: T) {
    height < |index| && index[height] == hash
  }

  function Add<T(==)>(index: seq<T>, height: nat, hash: T, canReorg: bool): (r: AddResult<T>)
    requires |index| > 0
    ensures r.Stored? ==> Holds(r.index, height, hash) && height <= |index| && r.index[..height] == index[..height]
    ensures r.ParentRequired? <==> height > |index|
    ensures r.ReorgRefused? <==> !canReorg && height < |index| && index[height] != hash
    ensures Holds(index, height, hash) ==> r == Stored(index)
    ensures r.Stored? && !Holds(index, height, hash) ==> |r.index| == height + 1
  {
    if height > |index| then
      ParentRequired
    else if height == |index| then
      Stored(index + [hash])
    else if index[height] != hash then
      if canReorg then Stored(index[..height] + [hash]) else ReorgRefused
    else
      Stored(index)
  }
}
