/** List comprehensions with a condition, `[x for x in xs if p(x)]`. */
module Sequences {

  /** The elements of `xs` that satisfy `p`, in their order in `xs`. */
  function Filter<T>(xs: seq<T>, p: T -> bool): (r: seq<T>)
    ensures |r| <= |xs|
    ensures forall i :: 0 <= i < |r| ==> p(r[i])
    decreases |xs|
  {
    if |xs| == 0 then []
    else
      var init := Filter(xs[..|xs| - 1], p);
      if p(xs[|xs| - 1]) then init + [xs[|xs| - 1]] else init
  }

  /** The filter keeps exactly the elements that satisfy `p`, in order:
      `idx` says where each kept element stood. */
  lemma {:induction false} FilterSpec<T>(xs: seq<T>, p: T -> bool) returns (idx: seq<nat>)
    ensures |idx| == |Filter(xs, p)|
    ensures forall i :: 0 <= i < |idx| ==> idx[i] < |xs| && Filter(xs, p)[i] == xs[idx[i]]
    ensures forall i, j :: 0 <= i < j < |idx| ==> idx[i] < idx[j]
    ensures forall k :: 0 <= k < |xs| && p(xs[k]) ==> k in idx
    decreases |xs|
  {
    if |xs| == 0 {
      idx := [];
    } else {
      var n := |xs| - 1;
      var prev := FilterSpec(xs[..n], p);
      assert forall k :: 0 <= k < n ==> xs[..n][k] == xs[k];
      if p(xs[n]) {
        idx := prev + [n];
      } else {
        idx := prev;
      }
    }
  }

  /** Nothing is kept exactly when no element satisfies `p`. */
  lemma FilterEmpty<T>(xs: seq<T>, p: T -> bool)
    ensures |Filter(xs, p)| == 0 <==> forall k :: 0 <= k < |xs| ==> !p(xs[k])
  {
    var idx := FilterSpec(xs, p);
    if |Filter(xs, p)| > 0 {
      assert p(xs[idx[0]]);
    }
  }
}
