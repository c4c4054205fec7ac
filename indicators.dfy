/**
 * The technical indicators added to a price history: the trailing simple
 * moving average (pandas `rolling(window=n).mean()`) and the RSI built from
 * it. Prices are exact reals; `None` stands for pandas' NaN.
 */
module Indicators {
  import opened Wrappers

  /** Sum of a sequence, taken from the right end so that one new sample is one step. */
  function Sum(s: seq<real>): real {
    if s == [] then 0.0 else Sum(s[..|s| - 1]) + s[|s| - 1]
  }

  lemma {:induction false} SumDropFirst(s: seq<real>)
    requires s != []
    ensures Sum(s) == s[0] + Sum(s[1..])
  {
    if |s| == 1 {
      assert s[..|s| - 1] == [] && s[1..] == [];
    } else {
      var init := s[..|s| - 1];
      SumDropFirst(init);
      assert init[1..] == s[1..][..|s[1..]| - 1];
    }
  }

  /** A sum of `|s|` terms, each between `lo` and `hi`, lies between `|s| * lo` and `|s| * hi`. */
  lemma {:induction false} SumBounds(s: seq<real>, lo: real, hi: real)
    requires forall k :: 0 <= k < |s| ==> lo <= s[k] <= hi
    ensures (|s| as real) * lo <= Sum(s) <= (|s| as real) * hi
  {
    if s != [] {
      var init := s[..|s| - 1];
      SumBounds(init, lo, hi);
      assert (|s| as real) * lo == (|init| as real) * lo + lo;
      assert (|s| as real) * hi == (|init| as real) * hi + hi;
    }
  }

  lemma {:induction false} SumNonNegative(s: seq<real>)
    requires forall k :: 0 <= k < |s| ==> 0.0 <= s[k]
    ensures 0.0 <= Sum(s)
  {
    if s != [] {
      SumNonNegative(s[..|s| - 1]);
    }
  }

  /** A sum of non-negative terms whose last term is positive is positive. */
  lemma SumPositive(s: seq<real>)
    requires s != []
    requires forall k :: 0 <= k < |s| ==> 0.0 <= s[k]
    requires s[|s| - 1] > 0.0
    ensures Sum(s) > 0.0
  {
    SumNonNegative(s[..|s| - 1]);
  }

  lemma DivideBounds(total: real, count: real, lo: real, hi: real)
    requires count > 0.0 && count * lo <= total <= count * hi
    ensures lo <= total / count <= hi
  {
  }

  /** The mean of the `n` samples ending at index `i`. */
  function WindowMean(xs: seq<real>, n: nat, i: nat): real
    requires 1 <= n && n - 1 <= i < |xs|
  {
    Sum(xs[i + 1 - n..i + 1]) / (n as real)
  }

  /**
   * `rolling(window=n).mean()`: aligned with the input, absent until a whole
   * window is available, then the mean of the trailing window.
   */
  function RollingMean(xs: seq<real>, n: nat): (r: seq<Option<real>>)
    requires n >= 1
    ensures |r| == |xs|
    ensures forall i :: 0 <= i < |r| ==> (r[i].Some? <==> i >= n - 1)
  {
    seq(|xs|, i requires 0 <= i < |xs| => if i < n - 1 then None else Some(WindowMean(xs, n, i)))
  }

  /** Each moving-average value lies between the smallest and the largest price of its window. */
  lemma RollingMeanWithinWindow(xs: seq<real>, n: nat, i: nat, lo: real, hi: real)
    requires n >= 1 && n - 1 <= i < |xs|
    requires forall k :: i + 1 - n <= k <= i ==> lo <= xs[k] <= hi
    ensures RollingMean(xs, n)[i].Some?
    ensures lo <= RollingMean(xs, n)[i].value <= hi
  {
    var w := xs[i + 1 - n..i + 1];
    assert forall k :: 0 <= k < |w| ==> w[k] == xs[i + 1 - n + k];
    SumBounds(w, lo, hi);
    DivideBounds(Sum(w), n as real, lo, hi);
  }

  /** Every moving-average value of a non-negative series is non-negative. */
  lemma RollingMeanNonNegative(xs: seq<real>, n: nat)
    requires n >= 1
    requires forall k :: 0 <= k < |xs| ==> 0.0 <= xs[k]
    ensures forall i :: 0 <= i < |xs| && RollingMean(xs, n)[i].Some? ==> 0.0 <= RollingMean(xs, n)[i].value
  {
    forall i | 0 <= i < |xs| && RollingMean(xs, n)[i].Some?
      ensures 0.0 <= RollingMean(xs, n)[i].value
    {
      SumNonNegative(xs[i + 1 - n..i + 1]);
    }
  }

  /**
   * The moving-average column filled in one pass, keeping a running sum of
   * the current window (one sample added, one dropped per step).
   */
  method RollingMeanColumn(xs: seq<real>, n: nat) returns (column: array<Option<real>>)
    requires n >= 1
    ensures column.Length == |xs|
    ensures column[..] == RollingMean(xs, n)
  {
    column := new Option<real>[|xs|](_ => None);
    var windowSum := 0.0;
    for i := 0 to |xs|
      invariant windowSum == Sum(xs[if i < n then 0 else i - n..i])
      invariant forall k :: 0 <= k < i ==> column[k] == RollingMean(xs, n)[k]
    {
      var lo := if i < n then 0 else i - n;
      assert xs[lo..i + 1][..i - lo] == xs[lo..i];
      windowSum := windowSum + xs[i];
      if i >= n {
        SumDropFirst(xs[lo..i + 1]);
        assert xs[lo..i + 1][1..] == xs[i + 1 - n..i + 1];
        windowSum := windowSum - xs[i - n];
      }
      if i < n - 1 {
        column[i] := None;
      } else {
        column[i] := Some(windowSum / (n as real));
      }
    }
  }

  /** Per-step gain: the rise from the previous price, 0 for a fall, and 0 at index 0 (no previous price). */
  function Gains(xs: seq<real>): (g: seq<real>)
    ensures |g| == |xs|
    ensures forall i :: 0 <= i < |g| ==> 0.0 <= g[i]
    ensures |xs| > 0 ==> g[0] == 0.0
  {
    seq(|xs|, i requires 0 <= i < |xs| => if i > 0 && xs[i] - xs[i - 1] > 0.0 then xs[i] - xs[i - 1] else 0.0)
  }

  /** Per-step loss: the size of the fall from the previous price, 0 for a rise, and 0 at index 0. */
  function Losses(xs: seq<real>): (l: seq<real>)
    ensures |l| == |xs|
    ensures forall i :: 0 <= i < |l| ==> 0.0 <= l[i]
    ensures |xs| > 0 ==> l[0] == 0.0
  {
    seq(|xs|, i requires 0 <= i < |xs| => if i > 0 && xs[i] - xs[i - 1] < 0.0 then -(xs[i] - xs[i - 1]) else 0.0)
  }

  /** Gain and loss split each price change: their difference is the change and at most one is non-zero. */
  lemma GainsLossesSplitDelta(xs: seq<real>, i: nat)
    requires 1 <= i < |xs|
    ensures Gains(xs)[i] - Losses(xs)[i] == xs[i] - xs[i - 1]
    ensures Gains(xs)[i] == 0.0 || Losses(xs)[i] == 0.0
  {
  }

  /**
   * `100 - 100 / (1 + gain / loss)` evaluated in IEEE arithmetic: a zero
   * average loss gives an infinite ratio and so 100, unless the average gain
   * is zero too, when 0/0 is NaN.
   */
  function RsiOf(avgGain: real, avgLoss: real): (r: Option<real>)
    requires 0.0 <= avgGain && 0.0 <= avgLoss
    ensures avgLoss == 0.0 && avgGain > 0.0 ==> r == Some(100.0)
    ensures avgLoss == 0.0 && avgGain == 0.0 ==> r == None
    ensures avgLoss > 0.0 ==> r == Some(100.0 * avgGain / (avgGain + avgLoss))
    ensures r.Some? ==> 0.0 <= r.value <= 100.0
  {
    if avgLoss == 0.0 then
      (if avgGain == 0.0 then None else Some(100.0))
    else
      var rs := avgGain / avgLoss;
      var total := avgGain + avgLoss;
      assert rs * avgLoss == avgGain;
      assert (1.0 + rs) * avgLoss == total;
      assert 100.0 / (1.0 + rs) == 100.0 * avgLoss / total;
      assert 100.0 * avgLoss / total + 100.0 * avgGain / total == 100.0;
      Some(100.0 - 100.0 / (1.0 + rs))
  }

  const DefaultRsiPeriods := 14

  /**
   * `calculate_rsi`: the simple (not Wilder-smoothed) RSI over `periods`
   * steps. Aligned with the prices, absent before index `periods - 1`, and
   * within [0, 100] wherever it is defined.
   */
  function Rsi(xs: seq<real>, periods: nat): (r: seq<Option<real>>)
    requires periods >= 1
    ensures |r| == |xs|
    ensures forall i :: 0 <= i < |xs| && i < periods - 1 ==> r[i] == None
    ensures forall i :: 0 <= i < |r| && r[i].Some? ==> 0.0 <= r[i].value <= 100.0
  {
    var avgGain := RollingMean(Gains(xs), periods);
    var avgLoss := RollingMean(Losses(xs), periods);
    RollingMeanNonNegative(Gains(xs), periods);
    RollingMeanNonNegative(Losses(xs), periods);
    seq(|xs|, i requires 0 <= i < |xs| =>
      if avgGain[i].Some? && avgLoss[i].Some? then RsiOf(avgGain[i].value, avgLoss[i].value) else None)
  }

  predicate StrictlyIncreasing(xs: seq<real>) {
    forall k :: 0 < k < |xs| ==> xs[k - 1] < xs[k]
  }

  predicate StrictlyDecreasing(xs: seq<real>) {
    forall k :: 0 < k < |xs| ==> xs[k - 1] > xs[k]
  }

  /** On a strictly rising series the RSI is 100 wherever a full window (with at least one real step) exists. */
  lemma RsiOfRisingSeries(xs: seq<real>, periods: nat, i: nat)
    requires periods >= 1 && StrictlyIncreasing(xs)
    requires periods - 1 <= i < |xs| && i >= 1
    ensures Rsi(xs, periods)[i] == Some(100.0)
  {
    var g := Gains(xs)[i + 1 - periods..i + 1];
    var l := Losses(xs)[i + 1 - periods..i + 1];
    SumPositive(g);
    SumBounds(l, 0.0, 0.0);
  }

  /** On a strictly falling series the RSI is 0 wherever a full window (with at least one real step) exists. */
  lemma RsiOfFallingSeries(xs: seq<real>, periods: nat, i: nat)
    requires periods >= 1 && StrictlyDecreasing(xs)
    requires periods - 1 <= i < |xs| && i >= 1
    ensures Rsi(xs, periods)[i] == Some(0.0)
  {
    var g := Gains(xs)[i + 1 - periods..i + 1];
    var l := Losses(xs)[i + 1 - periods..i + 1];
    SumBounds(g, 0.0, 0.0);
    SumPositive(l);
  }
}
