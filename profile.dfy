/** The profile of a series: `X = np.cumsum(data - np.mean(data))`. */
module Profile {
  import opened Reals

  /** `np.cumsum`: the i-th entry is the sum of the first i + 1 terms. */
  function CumSum(xs: seq<real>): (r: seq<real>)
    ensures |r| == |xs|
    ensures forall i :: 0 <= i < |xs| ==> r[i] == Sum(xs[..i + 1])
  {
    if xs == [] then []
    else
      var init := xs[..|xs| - 1];
      var r := CumSum(init) + [Sum(xs)];
      assert forall i :: 0 <= i < |init| ==> r[i] == Sum(xs[..i + 1]) by {
        forall i | 0 <= i < |init| ensures r[i] == Sum(xs[..i + 1]) {
          assert init[..i + 1] == xs[..i + 1];
        }
      }
      assert xs[..|xs|] == xs;
      r
  }

  /** The profile of the series: its mean-centred values, accumulated. For an empty series
      NumPy's mean is NaN and the cumulative sum of an empty array is empty. */
  function ProfileOf(data: seq<real>): (x: seq<real>)
    ensures |x| == |data|
  {
    if |data| == 0 then [] else CumSum(Centre(data, Average(data)))
  }

  /** The profile has one entry per observation; it starts at the first centred value and
      each later entry adds the next centred value to the one before. */
  lemma ProfileSteps(data: seq<real>)
    requires |data| > 0
    ensures |ProfileOf(data)| == |data|
    ensures ProfileOf(data)[0] == data[0] - Average(data)
    ensures forall i :: 1 <= i < |data| ==>
      ProfileOf(data)[i] - ProfileOf(data)[i - 1] == data[i] - Average(data)
  {
    var c := Centre(data, Average(data));
    var x := ProfileOf(data);
    assert c[..1] == [c[0]];
    assert x[0] == Sum(c[..1]) == Sum([]) + c[0];
    forall i | 1 <= i < |data|
      ensures x[i] - x[i - 1] == data[i] - Average(data)
    {
      assert c[..i + 1][..i] == c[..i];
    }
  }

  /** Over exact reals the profile returns to zero: its last entry is the sum of all
      centred values. */
  lemma ProfileEndsAtZero(data: seq<real>)
    requires |data| > 0
    ensures ProfileOf(data)[|data| - 1] == 0.0
  {
    var c := Centre(data, Average(data));
    assert c[..|data|] == c;
    CentredSumIsZero(data);
  }
}
