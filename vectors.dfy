/** Vector helpers shared by the forward and backward passes. */
module Vectors {

  /** The left fold `xs.reduce((t, x, k) => t + x * ys[k], 0)`: it runs over the
      entries of `xs` and reads `ys` at the same indices. */
  function Dot(xs: seq<real>, ys: seq<real>): (d: real)
    requires |xs| <= |ys|
    ensures (forall k :: 0 <= k < |xs| ==> ys[k] == 0.0) ==> d == 0.0
  {
    if |xs| == 0 then 0.0 else Dot(xs[..|xs| - 1], ys) + xs[|xs| - 1] * ys[|xs| - 1]
  }

  /** Column `j` of a matrix stored row by row: `m.map(row => row[j])`. */
  function Column(m: seq<seq<real>>, j: nat): (c: seq<real>)
    requires forall k :: 0 <= k < |m| ==> j < |m[k]|
    ensures |c| == |m|
  {
    seq(|m|, k requires 0 <= k < |m| => m[k][j])
  }

  /** `Array.prototype.reverse` on a sequence. */
  function Reversed<T>(s: seq<T>): (r: seq<T>)
    ensures |r| == |s|
    ensures |s| > 0 ==> r[0] == s[|s| - 1] && r[|s| - 1] == s[0]
  {
    seq(|s|, k requires 0 <= k < |s| => s[|s| - 1 - k])
  }

  /** Reversing twice gives the sequence back. */
  lemma ReversedTwice<T>(s: seq<T>)
    ensures Reversed(Reversed(s)) == s
  {
    var r := Reversed(s);
    forall k | 0 <= k < |s|
      ensures Reversed(r)[k] == s[k]
    {
      assert Reversed(r)[k] == r[|s| - 1 - k] == s[k];
    }
  }
}
