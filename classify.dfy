/** Classification of digit images: the one-hot target of a label, the digit an
    output vector votes for, and the number of correctly classified samples. */
module Classify {
  import opened DataLoader
  import opened Parameters
  import opened Forward

  /** `expectedResult(val)`: ten entries, 1 at index `val` and 0 elsewhere. A label
      outside 0..9 (such as the -1 that stands for a label read past the end of
      the file) matches no index, so the target is all zeros. */
  function ExpectedResult(val: int): (r: seq<real>)
    ensures |r| == 10
    ensures forall i :: 0 <= i < |r| ==> r[i] == 0.0 || r[i] == 1.0
    ensures forall i :: 0 <= i < |r| ==> (r[i] == 1.0 <==> i == val)
  {
    seq(10, i requires 0 <= i < 10 => if i == val then 1.0 else 0.0)
  }

  /** `_.max` of a non-empty vector. */
  function MaxOf(s: seq<real>): (m: real)
    requires |s| > 0
    ensures m in s
    ensures forall k :: 0 <= k < |s| ==> s[k] <= m
  {
    if |s| == 1 then s[0]
    else
      var m := MaxOf(s[1..]);
      assert forall k :: 1 <= k < |s| ==> s[k] == s[1..][k - 1];
      if s[0] >= m then s[0] else m
  }

  /** `_.indexOf(s, v)`: the first index holding `v`, or -1 when there is none. */
  function IndexOf(s: seq<real>, v: real): (i: int)
    ensures -1 <= i < |s|
    ensures i == -1 <==> v !in s
    ensures 0 <= i ==> s[i] == v && forall k :: 0 <= k < i ==> s[k] != v
  {
    if |s| == 0 then -1
    else if s[0] == v then 0
    else
      var r := IndexOf(s[1..], v);
      assert forall k :: 1 <= k < |s| ==> s[k] == s[1..][k - 1];
      if r == -1 then -1 else r + 1
  }

  /** What `testImage` returns for the output vector `s`: the first index of the
      maximum (`_.max` of an empty array is undefined, which `_.indexOf` does not
      find, so an empty output gives -1). */
  function FavouredIndex(s: seq<real>): (k: int)
    ensures |s| == 0 <==> k == -1
    ensures |s| > 0 ==> 0 <= k < |s|
    ensures |s| > 0 ==> forall j :: 0 <= j < |s| ==> s[j] <= s[k]
    ensures |s| > 0 ==> forall j :: 0 <= j < k ==> s[j] < s[k]
  {
    if |s| == 0 then -1 else IndexOf(s, MaxOf(s))
  }

  /** Reading the one-hot target back through testImage gives the label; a
      target for a label outside 0..9 (all zeros) reads back as 0. */
  lemma FavouredIndexOfTarget(val: int)
    ensures 0 <= val < 10 ==> FavouredIndex(ExpectedResult(val)) == val
    ensures !(0 <= val < 10) ==> FavouredIndex(ExpectedResult(val)) == 0
  {
    var r := ExpectedResult(val);
    var k := FavouredIndex(r);
    if 0 <= val < 10 {
      assert r[val] == 1.0 && r[val] <= r[k];
    } else {
      assert r[0] == 0.0 && r[k] == 0.0;
    }
  }

  /** `expected === actual` in `test`: a label read past the end of the file is
      `undefined`, which equals no index (not even testImage's -1). */
  predicate Matches(digit: int, predicted: int): (m: bool)
    ensures digit < 0 || predicted < 0 ==> !m
    ensures m ==> predicted == digit
  {
    0 <= digit && digit == predicted
  }

  /** `_.sumBy` over `test`'s pairs: how many samples carry the predicted digit. */
  function Score(data: seq<Sample>, predicted: seq<int>): (c: nat)
    requires |predicted| == |data|
    ensures c <= |data|
  {
    if |data| == 0 then 0
    else
      var n := |data| - 1;
      Score(data[..n], predicted[..n]) + (if Matches(data[n].digit, predicted[n]) then 1 else 0)
  }

  /** Every sample's image fits the input layer. */
  ghost predicate InputsFit(sizes: seq<nat>, data: seq<Sample>)
  {
    |sizes| >= 1 && forall i :: 0 <= i < |data| ==> |data[i].pixels| <= sizes[0]
  }

  /** The digit testImage picks for each sample. */
  function Predictions(sizes: seq<nat>, act: real -> real, st: NetworkState, data: seq<Sample>): (p: seq<int>)
    requires Shaped(sizes, st) && InputsFit(sizes, data)
    ensures |p| == |data|
    ensures forall i :: 0 <= i < |data| ==> p[i] == FavouredIndex(Output(sizes, act, st, data[i].pixels))
  {
    seq(|data|, i requires 0 <= i < |data| => FavouredIndex(Output(sizes, act, st, data[i].pixels)))
  }

  /** The score is the full count exactly when every sample is classified correctly. */
  lemma {:induction false} ScoreAllCorrect(data: seq<Sample>, predicted: seq<int>)
    requires |predicted| == |data|
    ensures Score(data, predicted) == |data| <==> forall i :: 0 <= i < |data| ==> Matches(data[i].digit, predicted[i])
  {
    if |data| > 0 {
      var n := |data| - 1;
      ScoreAllCorrect(data[..n], predicted[..n]);
      assert forall i :: 0 <= i < n ==> data[..n][i] == data[i] && predicted[..n][i] == predicted[i];
    }
  }

  /** The score is zero exactly when no sample is classified correctly. */
  lemma {:induction false} ScoreNoneCorrect(data: seq<Sample>, predicted: seq<int>)
    requires |predicted| == |data|
    ensures Score(data, predicted) == 0 <==> forall i :: 0 <= i < |data| ==> !Matches(data[i].digit, predicted[i])
  {
    if |data| > 0 {
      var n := |data| - 1;
      ScoreNoneCorrect(data[..n], predicted[..n]);
      assert forall i :: 0 <= i < n ==> data[..n][i] == data[i] && predicted[..n][i] == predicted[i];
    }
  }

  /** Scores of consecutive parts of the test set add up. */
  lemma {:induction false} ScoreSplit(a: seq<Sample>, b: seq<Sample>, pa: seq<int>, pb: seq<int>)
    requires |pa| == |a| && |pb| == |b|
    ensures Score(a + b, pa + pb) == Score(a, pa) + Score(b, pb)
    decreases |b|
  {
    if |b| > 0 {
      var n := |b| - 1;
      assert (a + b)[..|a| + n] == a + b[..n];
      assert (pa + pb)[..|a| + n] == pa + pb[..n];
      ScoreSplit(a, b[..n], pa, pb[..n]);
    } else {
      assert a + b == a && pa + pb == pa;
    }
  }
}
