/** Order-preserving selection of sequence elements by a boolean mask. */
module Seqs {

  /** The elements of `s` whose position is marked `true` in `mask`, in their original order. */
  function Keep<T>(s: seq<T>, mask: seq<bool>): (r: seq<T>)
    requires |mask| == |s|
    ensures |r| <= |s|
    ensures forall x :: x in r ==> x in s
    ensures (forall i :: 0 <= i < |mask| ==> mask[i]) ==> r == s
    decreases |s|
  {
    if |s| == 0 then []
    else (if mask[0] then [s[0]] else []) + Keep(s[1..], mask[1..])
  }

  /** The pointwise negation of a mask. */
  function Complement(mask: seq<bool>): (r: seq<bool>)
    ensures |r| == |mask|
  {
    seq(|mask|, i requires 0 <= i < |mask| => !mask[i])
  }

  /** Dropping the first position commutes with negating a mask. */
  lemma ComplementTail(mask: seq<bool>)
    requires |mask| > 0
    ensures Complement(mask)[1..] == Complement(mask[1..])
    ensures Complement(mask)[0] == !mask[0]
  {
  }

  /** A mask and its negation split `s` into two parts whose lengths add up to `|s|`. */
  lemma {:induction false} KeepSplitLength<T>(s: seq<T>, mask: seq<bool>)
    requires |mask| == |s|
    ensures |Keep(s, mask)| + |Keep(s, Complement(mask))| == |s|
    decreases |s|
  {
    if |s| > 0 {
      ComplementTail(mask);
      KeepSplitLength(s[1..], mask[1..]);
    }
  }

  /** A mask and its negation split `s` into two parts that together hold exactly the elements of `s`. */
  lemma {:induction false} KeepSplit<T>(s: seq<T>, mask: seq<bool>)
    requires |mask| == |s|
    ensures multiset(Keep(s, mask)) + multiset(Keep(s, Complement(mask))) == multiset(s)
    decreases |s|
  {
    if |s| > 0 {
      ComplementTail(mask);
      KeepSplit(s[1..], mask[1..]);
      assert s == [s[0]] + s[1..];
    }
  }
}
