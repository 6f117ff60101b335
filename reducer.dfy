/**
 * The statistical reducers over one peer's window (src/lib.rs:28-83).
 *
 * A Rust `Duration` is a whole number of seconds (`u64`) plus nanoseconds
 * below one second, so it is modelled as a natural number of nanoseconds no
 * larger than the largest `Duration`. The floating-point path of the standard
 * deviation and of the confidence-interval error is modelled with exact
 * reals standing for `f64`; the square root and `Duration::from_secs_f64` are
 * parameters (`FloatOps`), because their rounding is not visible here.
 */
module Reducer {
  import opened Wrappers

  const NanosPerSec: nat := 1_000_000_000

  /** `Duration::MAX`: `u64::MAX` seconds and 999,999,999 nanoseconds. */
  const MaxDurationNanos: nat := 18_446_744_073_709_551_615 * NanosPerSec + (NanosPerSec - 1)

  type Duration = n: nat | n <= MaxDurationNanos

  /** One more than the largest `u32`: `as u32` keeps the count modulo this. */
  const U32Modulus: nat := 0x1_0000_0000

  /** The z-value of a two-sided 95% confidence interval (src/lib.rs:78). */
  const Z95: real := 1.96

  /** The `fold(Duration::from_secs(0), |acc, x| acc + *x)`: a left fold, last sample added last. */
  function Sum(ds: seq<Duration>): (total: nat)
    ensures forall i :: 0 <= i < |ds| ==> ds[i] <= total
  {
    if ds == [] then 0 else Sum(ds[..|ds| - 1]) + ds[|ds| - 1]
  }

  /**
   * Every running total of the fold is at most the final sum, so the fold's
   * `Duration + Duration` (which panics on overflow) never overflows exactly
   * when the final sum fits in a `Duration`.
   */
  lemma {:induction false} RunningSumsBounded(ds: seq<Duration>, k: nat)
    requires k <= |ds|
    ensures Sum(ds[..k]) <= Sum(ds)
    decreases |ds|
  {
    if k < |ds| {
      var init := ds[..|ds| - 1];
      RunningSumsBounded(init, k);
      assert init[..k] == ds[..k];
    } else {
      assert ds[..k] == ds;
    }
  }

  /**
   * `durations_mean`: `None` for an empty window, otherwise the sum divided by
   * the count and truncated to whole nanoseconds. The precondition is the
   * fold's no-overflow condition.
   */
  function DurationsMean(ds: seq<Duration>): (r: Option<Duration>)
    requires Sum(ds) <= MaxDurationNanos
    ensures r.None? <==> ds == []
    ensures r.Some? ==> r.value * |ds| <= Sum(ds) < (r.value + 1) * |ds|
  {
    if ds == [] then None else Some(Sum(ds) / |ds|)
  }

  /**
   * `durations_mean` as written: the count goes through `durations.len() as u32`,
   * which keeps it modulo 2^32, and `Duration / 0` panics.
   */
  function DurationsMeanAsWritten(ds: seq<Duration>): (r: Option<Duration>)
    requires Sum(ds) <= MaxDurationNanos
    requires ds == [] || |ds| % U32Modulus != 0
    ensures r.None? <==> ds == []
    ensures |ds| < U32Modulus ==> r == DurationsMean(ds)
  {
    if ds == [] then None
    else
      assert |ds| < U32Modulus ==> |ds| % U32Modulus == |ds|;
      Some(Sum(ds) / (|ds| % U32Modulus))
  }

  lemma {:induction false} SumOfConstant(n: nat, c: Duration)
    ensures Sum(seq(n, _ => c)) == n * c
  {
    if n > 0 {
      SumOfConstant(n - 1, c);
      assert seq(n, _ => c)[..n - 1] == seq(n - 1, _ => c);
    }
  }

  /**
   * The truncating cast changes the mean once a window holds more than 2^32
   * samples: 2^32 + 1 samples of one nanosecond are divided by 1, giving
   * 2^32 + 1 ns instead of 1 ns.
   */
  lemma TruncatedCountSkewsMean()
    ensures var ds: seq<Duration> := seq(U32Modulus + 1, _ => 1);
      Sum(ds) <= MaxDurationNanos
      && DurationsMeanAsWritten(ds) == Some(U32Modulus + 1)
      && DurationsMean(ds) == Some(1)
  {
    SumOfConstant(U32Modulus + 1, 1);
  }

  /** The smallest sample of a non-empty window. */
  function Minimum(ds: seq<Duration>): (m: Duration)
    requires ds != []
    ensures m in ds
    ensures forall i :: 0 <= i < |ds| ==> m <= ds[i]
  {
    if |ds| == 1 then ds[0]
    else
      var rest := Minimum(ds[..|ds| - 1]);
      if rest <= ds[|ds| - 1] then rest else ds[|ds| - 1]
  }

  /** The largest sample of a non-empty window. */
  function Maximum(ds: seq<Duration>): (m: Duration)
    requires ds != []
    ensures m in ds
    ensures forall i :: 0 <= i < |ds| ==> ds[i] <= m
  {
    if |ds| == 1 then ds[0]
    else
      var rest := Maximum(ds[..|ds| - 1]);
      if rest >= ds[|ds| - 1] then rest else ds[|ds| - 1]
  }

  lemma {:induction false} SumBetweenExtremes(ds: seq<Duration>, lo: nat, hi: nat)
    requires forall i :: 0 <= i < |ds| ==> lo <= ds[i] <= hi
    ensures |ds| * lo <= Sum(ds) <= |ds| * hi
  {
    if ds != [] {
      var init, last := ds[..|ds| - 1], ds[|ds| - 1];
      SumBetweenExtremes(init, lo, hi);
      assert Sum(ds) == Sum(init) + last;
      assert |ds| * lo == |init| * lo + lo;
      assert |ds| * hi == |init| * hi + hi;
    }
  }

  lemma MulMonotone(n: nat, a: nat, b: nat)
    requires a <= b
    ensures n * a <= n * b
  {
  }

  /** A quotient truncated toward zero stays between bounds that the dividend keeps. */
  lemma QuotientBetween(n: nat, sum: nat, q: nat, lo: nat, hi: nat)
    requires n > 0
    requires n * lo <= sum <= n * hi
    requires q * n <= sum < (q + 1) * n
    ensures lo <= q <= hi
  {
    assert n * q <= sum < n * (q + 1);
    if q + 1 <= lo {
      MulMonotone(n, q + 1, lo);
      assert false;
    }
    if hi < q {
      MulMonotone(n, hi + 1, q);
      assert false;
    }
  }

  /** The mean of a non-empty window lies between its smallest and largest sample. */
  lemma MeanWithinSampleRange(ds: seq<Duration>)
    requires ds != []
    requires Sum(ds) <= MaxDurationNanos
    ensures Minimum(ds) <= DurationsMean(ds).value <= Maximum(ds)
  {
    SumBetweenExtremes(ds, Minimum(ds), Maximum(ds));
    QuotientBetween(|ds|, Sum(ds), DurationsMean(ds).value, Minimum(ds), Maximum(ds));
  }

  /** The unit test `correct_durations_mean`: the mean of 1 s, 3 s and 5 s is 3 s. */
  lemma MeanOfOneThreeFiveSeconds()
    ensures Sum([1 * NanosPerSec, 3 * NanosPerSec, 5 * NanosPerSec]) == 9 * NanosPerSec
    ensures DurationsMean([1 * NanosPerSec, 3 * NanosPerSec, 5 * NanosPerSec]) == Some(3 * NanosPerSec)
  {
    var ds: seq<Duration> := [1 * NanosPerSec, 3 * NanosPerSec, 5 * NanosPerSec];
    assert ds[..2] == [ds[0], ds[1]] && [ds[0], ds[1]][..1] == [ds[0]] && [ds[0]][..0] == [];
    assert Sum([ds[0]]) == ds[0];
    assert Sum([ds[0], ds[1]]) == ds[0] + ds[1];
  }

  /** `Duration::as_secs_f64`, in exact arithmetic. */
  function ToSecs(d: Duration): real
  {
    d as real / NanosPerSec as real
  }

  /** The `fold(0f64, |acc, x| acc + (x.as_secs_f64() - mean).powi(2))` of `durations_std_dev`. */
  function SquaredDeviations(ds: seq<Duration>, mean: real): (total: real)
    ensures forall i :: 0 <= i < |ds| ==> (ToSecs(ds[i]) - mean) * (ToSecs(ds[i]) - mean) <= total
  {
    if ds == [] then 0.0
    else
      var init, dev := ds[..|ds| - 1], ToSecs(ds[|ds| - 1]) - mean;
      var prev := SquaredDeviations(init, mean);
      assert 0.0 <= dev * dev;
      assert 0.0 <= prev by {
        if init != [] {
          var first := ToSecs(init[0]) - mean;
          assert 0.0 <= first * first <= prev;
        }
      }
      assert forall i :: 0 <= i < |init| ==> ds[i] == init[i];
      prev + dev * dev
  }

  lemma {:induction false} SquaredDeviationsNonNegative(ds: seq<Duration>, mean: real)
    ensures SquaredDeviations(ds, mean) >= 0.0
  {
    if ds != [] {
      SquaredDeviationsNonNegative(ds[..|ds| - 1], mean);
      var dev := ToSecs(ds[|ds| - 1]) - mean;
      assert dev * dev >= 0.0;
    }
  }

  /** The floating-point operations the reducers call and whose rounding is not modelled. */
  datatype FloatOps = FloatOps(sqrt: real -> real, fromSecs: real -> Duration)

  /** `sqrt` is the exact square root: zero at zero, the positive root of a positive argument. */
  ghost predicate IsSquareRoot(sqrt: real -> real)
  {
    && sqrt(0.0) == 0.0
    && forall x: real :: 0.0 < x ==> 0.0 < sqrt(x) && sqrt(x) * sqrt(x) == x
  }

  /**
   * `durations_std_dev`: the population standard deviation around the
   * (truncated) mean, converted back into a `Duration`. It is absent only
   * through the `?` on `durations_mean`, that is, for an empty window.
   */
  function DurationsStdDev(ds: seq<Duration>, ops: FloatOps): (r: Option<Duration>)
    requires Sum(ds) <= MaxDurationNanos
    ensures r.Some? <==> ds != []
  {
    match DurationsMean(ds)
    case None => None
    case Some(mean) =>
      Some(ops.fromSecs(ops.sqrt(SquaredDeviations(ds, ToSecs(mean)) / |ds| as real)))
  }

  /**
   * `durations_error_with_ci`: the half-width `z * std_dev / sqrt(n)` of the 95%
   * confidence interval. It is computed for every non-empty window (nothing
   * enforces the documented `n >= 30`) and absent only through the `?` on
   * `durations_std_dev`.
   */
  function DurationsErrorWithCi(ds: seq<Duration>, ops: FloatOps): (r: Option<Duration>)
    requires Sum(ds) <= MaxDurationNanos
    requires IsSquareRoot(ops.sqrt)
    ensures r.Some? <==> ds != []
  {
    match DurationsStdDev(ds, ops)
    case None => None
    case Some(stdDev) =>
      var n := |ds| as real;
      assert 0.0 < ops.sqrt(n);
      Some(ops.fromSecs(Z95 * ToSecs(stdDev) / ops.sqrt(n)))
  }

  /**
   * A window with exactly one sample has standard deviation zero and a defined
   * error bound.
   */
  lemma SingleSampleHasZeroStdDev(x: Duration, ops: FloatOps)
    requires IsSquareRoot(ops.sqrt)
    ensures DurationsStdDev([x], ops) == Some(ops.fromSecs(0.0))
    ensures DurationsErrorWithCi([x], ops).Some?
  {
    assert Sum([x]) == x by {
      assert [x][..0] == [];
    }
    assert DurationsMean([x]) == Some(x);
    assert SquaredDeviations([x], ToSecs(x)) == 0.0 by {
      assert [x][..0] == [];
    }
    assert 0.0 / 1 as real == 0.0;
  }

  /**
   * The unit test `correct_durations_std_dev`: for 1 s, 3 s and 5 s the value
   * under the square root is 8/3 s^2, whose square root lies within 0.01 s of
   * 1.63 s.
   */
  lemma StdDevOfOneThreeFiveSeconds(ops: FloatOps)
    requires IsSquareRoot(ops.sqrt)
    ensures Sum([1 * NanosPerSec, 3 * NanosPerSec, 5 * NanosPerSec]) == 9 * NanosPerSec
    ensures DurationsStdDev([1 * NanosPerSec, 3 * NanosPerSec, 5 * NanosPerSec], ops)
         == Some(ops.fromSecs(ops.sqrt(8.0 / 3.0)))
    ensures 1.62 < ops.sqrt(8.0 / 3.0) < 1.64
  {
    var ds: seq<Duration> := [1 * NanosPerSec, 3 * NanosPerSec, 5 * NanosPerSec];
    MeanOfOneThreeFiveSeconds();
    assert ds[..2] == [ds[0], ds[1]] && ds[..2][..1] == [ds[0]] && [ds[0]][..0] == [];
    assert ToSecs(ds[0]) == 1.0 && ToSecs(ds[1]) == 3.0 && ToSecs(ds[2]) == 5.0;
    assert ToSecs(3 * NanosPerSec) == 3.0;
    assert SquaredDeviations([ds[0]], 3.0) == 4.0;
    assert SquaredDeviations(ds[..2], 3.0) == 4.0;
    assert SquaredDeviations(ds, 3.0) == 8.0;
    var s := ops.sqrt(8.0 / 3.0);
    assert 0.0 < s && s * s == 8.0 / 3.0;
    SquareRootAbove(s, 1.62);
    SquareRootAbove(1.64, s);
  }

  lemma SquareMonotone(a: real, b: real)
    requires 0.0 <= a <= b
    ensures a * a <= b * b
  {
  }

  lemma SquareRootAbove(s: real, lo: real)
    requires 0.0 <= s && 0.0 <= lo
    requires s * s > lo * lo
    ensures s > lo
  {
    if s <= lo {
      SquareMonotone(s, lo);
      assert false;
    }
  }
}
