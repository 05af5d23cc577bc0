/** The per-position Sample Reducer.

    A position's file holds a sequence of 32-bit float samples. The reducer sums the
    samples that look reasonable and divides by the TOTAL number of samples. Samples
    are modelled as exact reals. The division is reached only for a non-empty file
    (an empty one cannot be mapped), and a NaN or infinite sample fails the
    plausibility test, so the reduced value is always an ordinary number. */
module Reducer {

  datatype Option<T> = None | Some(value: T)

  /** The plausibility window: bogus readings are left out of the sum. */
  function LooksReasonable(v: real): (ok: bool)
    ensures ok ==> 0.0 <= v && v <= 1000.0
    ensures !ok ==> v < 0.0 || v > 1000.0
  {
    v >= 0.0 && v <= 1000.0
  }

  /** The sum the reduction loop accumulates, sample by sample from the front. */
  function ReasonableSum(s: seq<real>): (r: real)
    ensures 0.0 <= r <= 1000.0 * |s| as real
  {
    if s == [] then 0.0
    else
      var last := s[|s| - 1];
      ReasonableSum(s[..|s| - 1]) + (if LooksReasonable(last) then last else 0.0)
  }

  /** Reference definitions: the reasonable samples, and a plain sum. */
  function Reasonable(s: seq<real>): (r: seq<real>)
    ensures |r| <= |s|
    ensures forall i :: 0 <= i < |r| ==> LooksReasonable(r[i])
  {
    if s == [] then []
    else (if LooksReasonable(s[0]) then [s[0]] else []) + Reasonable(s[1..])
  }

  function Sum(s: seq<real>): real
  {
    if s == [] then 0.0 else s[0] + Sum(s[1..])
  }

  /** The reduced value of a non-empty file: filtered sum over the total count. */
  function Mean(s: seq<real>): (r: real)
    requires |s| > 0
    ensures 0.0 <= r <= 1000.0
    ensures r * |s| as real == ReasonableSum(s)
  {
    ReasonableSum(s) / |s| as real
  }

  /** The reduction loop: accumulate the reasonable samples, then divide. */
  method Reduce(values: seq<real>) returns (avg: real)
    requires |values| > 0
    ensures avg == Mean(values)
  {
    var sum := 0.0;
    var count := |values|;
    for i := 0 to count
      invariant sum == ReasonableSum(values[..i])
    {
      assert values[..i + 1][..i] == values[..i];
      if LooksReasonable(values[i]) {
        sum := sum + values[i];
      }
    }
    assert values[..count] == values;
    avg := sum / count as real;
  }

  lemma {:induction false} SumAppend(a: seq<real>, b: seq<real>)
    ensures Sum(a + b) == Sum(a) + Sum(b)
  {
    if a == [] {
      assert a + b == b;
    } else {
      assert (a + b)[1..] == a[1..] + b;
      SumAppend(a[1..], b);
    }
  }

  lemma {:induction false} ReasonableAppend(a: seq<real>, b: seq<real>)
    ensures Reasonable(a + b) == Reasonable(a) + Reasonable(b)
  {
    if a == [] {
      assert a + b == b;
    } else {
      assert (a + b)[1..] == a[1..] + b;
      ReasonableAppend(a[1..], b);
    }
  }

  /** The loop's sum is the plain sum of the samples that pass the filter. */
  lemma {:induction false} ReasonableSumIsSumOfReasonable(s: seq<real>)
    ensures ReasonableSum(s) == Sum(Reasonable(s))
  {
    if s != [] {
      var init, last := s[..|s| - 1], s[|s| - 1];
      assert s == init + [last];
      ReasonableSumIsSumOfReasonable(init);
      ReasonableAppend(init, [last]);
      assert Reasonable([last]) == if LooksReasonable(last) then [last] else [] by {
        assert [last][1..] == [];
      }
      SumAppend(Reasonable(init), Reasonable([last]));
      assert Sum([last]) == last by {
        assert [last][1..] == [];
      }
    }
  }

  /** An implausible sample adds nothing to the sum but still counts in the
      denominator, so it never raises the mean and lowers a positive one. */
  lemma OutlierCountsButDoesNotAdd(s: seq<real>, v: real)
    requires |s| > 0 && !LooksReasonable(v)
    ensures ReasonableSum(s + [v]) == ReasonableSum(s)
    ensures Mean(s + [v]) == ReasonableSum(s) / (|s| as real + 1.0)
    ensures Mean(s + [v]) <= Mean(s)
    ensures ReasonableSum(s) > 0.0 ==> Mean(s + [v]) < Mean(s)
  {
    var t, n := ReasonableSum(s), |s| as real;
    assert (s + [v])[..|s|] == s;
    assert ReasonableSum(s + [v]) == t;
    assert |s + [v]| as real == n + 1.0;
    MoreSamplesSmallerShare(t, n);
  }

  /** Dividing the same non-negative total among more samples never gives more. */
  lemma MoreSamplesSmallerShare(total: real, n: real)
    requires total >= 0.0 && n > 0.0
    ensures total / (n + 1.0) <= total / n
    ensures total > 0.0 ==> total / (n + 1.0) < total / n
  {
    var a, b := total / (n + 1.0), total / n;
    assert a * (n + 1.0) == total;
    assert b * n == total;
    assert a >= 0.0;
    assert (b - a) * n == a;
    if total > 0.0 {
      assert a > 0.0;
    }
  }
}
