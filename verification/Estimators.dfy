/** The sliding average over a window of samples, over real numbers. */
module Estimators {
  import Division

  function Sum(xs: seq<real>): real
  {
    if xs == [] then 0.0 else Sum(xs[..|xs| - 1]) + xs[|xs| - 1]
  }

  function Mean(xs: seq<real>): real
    requires xs != []
  {
    Sum(xs) / |xs| as real
  }

  function SquaresAround(xs: seq<real>, m: real): real
  {
    if xs == [] then 0.0
    else SquaresAround(xs[..|xs| - 1], m) + (xs[|xs| - 1] - m) * (xs[|xs| - 1] - m)
  }

  /** Population variance. */
  function Variance(xs: seq<real>): real
    requires xs != []
  {
    SquaresAround(xs, Mean(xs)) / |xs| as real
  }

  /** The last `n` values, or all of them if there are fewer. */
  function Window(xs: seq<real>, n: nat): seq<real>
  {
    if |xs| <= n then xs else xs[|xs| - n..]
  }

  lemma {:induction false} SumDropFirst(xs: seq<real>)
    requires xs != []
    ensures Sum(xs[1..]) == Sum(xs) - xs[0]
    decreases |xs|
  {
    if |xs| > 1 {
      var front := xs[..|xs| - 1];
      SumDropFirst(front);
      assert xs[1..][..|xs[1..]| - 1] == front[1..];
    } else {
      assert xs[..0] == [];
    }
  }

  /** The squares of `n` numbers around `m`, from their squares and their sum. */
  function Expanded(squares: real, sum: real, n: real, m: real): real
  {
    squares - 2.0 * m * sum + n * m * m
  }

  /** The sum of squares around any `m`, from plain sums. */
  lemma {:induction false} SquaresExpand(xs: seq<real>, m: real)
    ensures SquaresAround(xs, m) == Expanded(SquaresAround(xs, 0.0), Sum(xs), |xs| as real, m)
    decreases |xs|
  {
    if xs == [] {
    } else {
      var front, last := xs[..|xs| - 1], xs[|xs| - 1];
      SquaresExpand(front, m);
      OneMore(SquaresAround(front, m), SquaresAround(front, 0.0), Sum(front), |front| as real, last, m);
    }
  }

  lemma OneMore(around: real, squares: real, sum: real, n: real, last: real, m: real)
    requires around == Expanded(squares, sum, n, m)
    ensures around + (last - m) * (last - m)
            == Expanded(squares + (last - 0.0) * (last - 0.0), sum + last, n + 1.0, m)
  {
    Square(last, m);
    Collect(m, sum, last, n);
  }

  lemma Square(a: real, m: real)
    ensures (a - m) * (a - m) == a * a - 2.0 * m * a + m * m
  {
  }

  lemma Collect(m: real, s: real, last: real, k: real)
    ensures -2.0 * m * s + k * m * m - 2.0 * m * last + m * m == -2.0 * m * (s + last) + (k + 1.0) * m * m
  {
  }

  /** The variance is the mean of the squares less the square of the mean `m`. */
  lemma VarianceIsMeanSquareLessSquaredMean(xs: seq<real>, m: real)
    requires xs != [] && m == Mean(xs)
    ensures Variance(xs) == SquaresAround(xs, 0.0) / |xs| as real - m * m
  {
    MeanTimesCount(Sum(xs), |xs| as real, m);
    AroundMean(xs, |xs| as real, m);
  }

  lemma MeanTimesCount(sum: real, k: real, m: real)
    requires k > 0.0 && m == sum / k
    ensures k * m == sum
  {
  }

  lemma AroundMean(xs: seq<real>, k: real, m: real)
    requires k == |xs| as real > 0.0 && k * m == Sum(xs)
    ensures SquaresAround(xs, m) / k == SquaresAround(xs, 0.0) / k - m * m
  {
    SquaresExpand(xs, m);
    Cancel(SquaresAround(xs, m), SquaresAround(xs, 0.0), Sum(xs), k, m);
  }

  lemma VarianceNotNegative(xs: seq<real>)
    requires xs != []
    ensures Variance(xs) >= 0.0
  {
    SquaresNotNegative(xs, Mean(xs));
    NotNegative(SquaresAround(xs, Mean(xs)), |xs| as real);
  }

  lemma Cancel(around: real, squares: real, sum: real, k: real, m: real)
    requires k > 0.0 && sum == k * m && around == Expanded(squares, sum, k, m)
    ensures around / k == squares / k - m * m
  {
  }

  lemma NotNegative(a: real, k: real)
    requires a >= 0.0 && k > 0.0
    ensures a / k >= 0.0
  {
  }

  lemma {:induction false} SquaresNotNegative(xs: seq<real>, m: real)
    ensures SquaresAround(xs, m) >= 0.0
    decreases |xs|
  {
    if xs == [] {
    } else {
      SquaresNotNegative(xs[..|xs| - 1], m);
      SquareNotNegative(xs[|xs| - 1] - m);
    }
  }

  lemma SquareNotNegative(a: real)
    ensures a * a >= 0.0
  {
  }

  /** How many values came after the window limit was last reached. */
  function SinceLimit(k: nat, n: nat): (r: nat)
    requires n > 0
    ensures r < n && r <= k
  {
    if k == 0 then 0
    else if SinceLimit(k - 1, n) == n - 1 then 0
    else SinceLimit(k - 1, n) + 1
  }

  lemma {:induction false} EarlyCount(k: nat, n: nat)
    requires n > 0
    ensures k < n ==> SinceLimit(k, n) == k
  {
    if 0 < k < n {
      EarlyCount(k - 1, n);
    }
  }

  /** The limit is reached at every multiple of the window size. */
  lemma {:induction false} SinceLimitIsRemainder(k: nat, n: nat)
    requires n > 0
    ensures SinceLimit(k, n) == k % n
  {
    if k == 0 {
      Division.QuotientUnique(0, n, 0, 0);
    } else {
      SinceLimitIsRemainder(k - 1, n);
      var q, r := (k - 1) / n, (k - 1) % n;
      if r == n - 1 {
        Division.QuotientUnique(k, n, q + 1, 0);
      } else {
        Division.QuotientUnique(k, n, q, r + 1);
      }
    }
  }

  class SampleWindow {
    const nSamples: nat
    var remaining: nat

    constructor (nSamples: nat)
      requires nSamples > 0
      ensures this.nSamples == nSamples && remaining == nSamples
    {
      this.nSamples := nSamples;
      remaining := nSamples;
    }

    method IsLimitReached() returns (r: bool)
      requires 0 < remaining <= nSamples
      modifies this
      ensures r == (old(remaining) == 1) && remaining == if r then nSamples else old(remaining) - 1
    {
      remaining := remaining - 1;
      if remaining == 0 {
        remaining := nSamples;
      }
      r := remaining == nSamples;
    }
  }

  class Average {
    const window: SampleWindow
    var nValues: nat
    var samples: seq<real>
    var accumulatedSum: real
    var value: real
    var variance: real
    var limitReached: bool

    /** All values so far. */
    ghost var seen: seq<real>
    ghost predicate Valid()
      reads this, window
    {
      && window.nSamples > 0
      && nValues == |seen|
      && window.remaining == window.nSamples - SinceLimit(nValues, window.nSamples)
      && (limitReached <==> nValues >= window.nSamples)
      && samples == Window(seen, window.nSamples)
      && accumulatedSum == Sum(samples)
      && (samples != [] ==> value == Mean(samples))
    }

    constructor (n: nat)
      requires n > 0
      ensures Valid() && fresh(window) && window.nSamples == n && seen == []
    {
      window := new SampleWindow(n);
      nValues, samples, accumulatedSum, value, variance, limitReached := 0, [], 0.0, 0.0, 0.0, false;
      seen := [];
    }

    /**
     The value is the mean of the last values, as many as the window has; the variance is that of the window
     at the last multiple of its size.
     */
    method NewValue(v: real)
      requires Valid()
      modifies this, window
      ensures Valid() && seen == old(seen) + [v]
      ensures value == Mean(Window(seen, window.nSamples))
      ensures SinceLimit(|seen|, window.nSamples) == 0 ==> variance == Variance(Window(seen, window.nSamples))
      ensures SinceLimit(|seen|, window.nSamples) != 0 ==> variance == old(variance)
    {
      var windowLimit := Accept(v);
      if windowLimit {
        Measure();
      }
    }

    /** Everything but the variance. */
    method Accept(v: real) returns (windowLimit: bool)
      requires Valid()
      modifies `nValues, `samples, `accumulatedSum, `value, `limitReached, `seen, window
      ensures Valid() && seen == old(seen) + [v] && samples != []
      ensures windowLimit <==> SinceLimit(|seen|, window.nSamples) == 0
    {
      EarlyCount(nValues, window.nSamples);
      EarlyCount(nValues + 1, window.nSamples);
      windowLimit := window.IsLimitReached();
      nValues := nValues + 1;
      Slide(seen, v, window.nSamples);
      seen := seen + [v];
      Push(v, windowLimit);
      assert samples == Window(seen, window.nSamples);
      value := accumulatedSum / |samples| as real;
    }

    /** Adds the value to the window; once the limit has been reached the oldest one leaves. */
    method Push(v: real, windowLimit: bool)
      modifies `samples, `accumulatedSum, `limitReached
      requires accumulatedSum == Sum(samples)
      ensures samples == if old(limitReached) then (old(samples) + [v])[1..] else old(samples) + [v]
      ensures accumulatedSum == Sum(samples) && limitReached == (old(limitReached) || windowLimit)
    {
      assert (samples + [v])[..|samples|] == samples;
      samples := samples + [v];
      SumDropFirst(samples);
      if limitReached {
        accumulatedSum := accumulatedSum + (v - samples[0]);
        samples := samples[1..];
      } else {
        limitReached := windowLimit;
        accumulatedSum := accumulatedSum + v;
      }
    }

    /** The loop that recomputes the variance. */
    method Measure()
      requires samples != [] && value == Mean(samples)
      modifies `variance
      ensures variance == Variance(samples)
    {
      variance := 0.0;
      for i := 0 to |samples|
        invariant variance == SquaresAround(samples[..i], value)
      {
        assert samples[..i + 1][..i] == samples[..i];
        variance := variance + (samples[i] - value) * (samples[i] - value);
      }
      assert samples[..|samples|] == samples;
      variance := variance / |samples| as real;
    }

    function OldestValue(): real
      reads this
    {
      if samples != [] then samples[0] else 0.0
    }

    /** The oldest value still in the window. */
    lemma OldestIsFirstOfWindow()
      requires Valid() && seen != []
      ensures OldestValue() == seen[if |seen| <= window.nSamples then 0 else |seen| - window.nSamples]
    {
    }
  }

  /** The window after one more value. */
  lemma Slide(seen: seq<real>, v: real, n: nat)
    requires n > 0
    ensures Window(seen + [v], n)
            == if |seen| >= n then (Window(seen, n) + [v])[1..] else Window(seen, n) + [v]
  {
  }
}
