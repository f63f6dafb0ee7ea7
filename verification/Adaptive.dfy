/** The arithmetic of the adaptive breaker of internal/breaker/adaptive.go, over exact reals:
    trailing failures, exponential moving averages and the threshold map. */
module Adaptives {
  import opened Reals

  // ------------------------------------------------------------------ completions

  /** Completions are recorded as true for success.  Length of the failure run at the end. */
  function Trailing(completions: seq<bool>): nat {
    if completions == [] || completions[|completions| - 1] then 0
    else 1 + Trailing(completions[..|completions| - 1])
  }

  /** `Trailing` is the longest suffix without a success. */
  lemma {:induction false} TrailingIsLongest(completions: seq<bool>)
    ensures Trailing(completions) <= |completions|
    ensures forall i :: |completions| - Trailing(completions) <= i < |completions| ==> !completions[i]
    ensures Trailing(completions) < |completions| ==> completions[|completions| - Trailing(completions) - 1]
  {
    if completions != [] && !completions[|completions| - 1] {
      var init := completions[..|completions| - 1];
      TrailingIsLongest(init);
      forall i | |completions| - Trailing(completions) <= i < |completions|
        ensures !completions[i]
      {
        if i < |init| {
          assert completions[i] == init[i];
        }
      }
    }
  }

  /** The last `n` completions exist and all failed. */
  ghost predicate LastFailed(completions: seq<bool>, n: nat) {
    n <= |completions| && forall i :: |completions| - n <= i < |completions| ==> !completions[i]
  }

  lemma TrailingAtLeast(completions: seq<bool>, n: nat)
    ensures Trailing(completions) >= n <==> LastFailed(completions, n)
  {
    TrailingIsLongest(completions);
    var before := |completions| - Trailing(completions) - 1;
    assert before >= 0 ==> completions[before];
  }

  lemma TrailingAppend(completions: seq<bool>, ok: bool)
    ensures Trailing(completions + [ok]) == if ok then 0 else Trailing(completions) + 1
  {
    assert (completions + [ok])[..|completions|] == completions;
  }

  function Losses(window: seq<bool>): nat {
    if window == [] then 0 else Losses(window[..|window| - 1]) + (if window[|window| - 1] then 0 else 1)
  }

  lemma LossesAppend(window: seq<bool>, ok: bool)
    ensures Losses(window + [ok]) == Losses(window) + (if ok then 0 else 1)
  {
    assert (window + [ok])[..|window|] == window;
  }

  lemma {:induction false} LossesBounded(window: seq<bool>)
    ensures Losses(window) <= |window|
  {
    if window != [] {
      LossesBounded(window[..|window| - 1]);
    }
  }

  /** `Losses` counts the positions of failures. */
  lemma {:induction false} LossesCount(window: seq<bool>)
    ensures Losses(window) == |set i | 0 <= i < |window| && !window[i]|
  {
    var at := set i | 0 <= i < |window| && !window[i];
    if window == [] {
      assert at == {};
    } else {
      var n := |window| - 1;
      var before := set i | 0 <= i < |window[..n]| && !window[..n][i];
      LossesCount(window[..n]);
      assert at == if window[n] then before else before + {n};
    }
  }

  function Mean(total: int, calls: nat): real
    requires calls > 0
  {
    total as real / calls as real
  }

  /** Failure percentage of a non-empty window. */
  function WindowRate(window: seq<bool>): real
    requires window != []
  {
    Losses(window) as real / |window| as real * 100.0
  }

  /** The rate is the percentage of the window's calls that failed, the mean the latency that, once
      per call, makes up the total. */
  lemma RateAndMean(window: seq<bool>, total: int)
    requires window != []
    ensures WindowRate(window) * |window| as real == 100.0 * |set i | 0 <= i < |window| && !window[i]| as real
    ensures Mean(total, |window|) * |window| as real == total as real
  {
    LossesCount(window);
    var q := Losses(window) as real / |window| as real;
    assert q * |window| as real == Losses(window) as real;
  }

  lemma WindowRateInRange(window: seq<bool>)
    requires window != []
    ensures 0.0 <= WindowRate(window) <= 100.0
  {
    LossesBounded(window);
    var q := Losses(window) as real / |window| as real;
    assert q * |window| as real == Losses(window) as real;
    assert 0.0 <= q <= 1.0;
  }

  // ------------------------------------------------------------------ moving averages

  /** The average after a sequence of windows: the first one seeds it. */
  function Average(alpha: real, rates: seq<real>): real
    requires rates != []
  {
    var last := rates[|rates| - 1];
    if |rates| == 1 then last else Times(alpha, last) + Times(1.0 - alpha, Average(alpha, rates[..|rates| - 1]))
  }

  /** Weight of the i-th of n windows. */
  function Weight(alpha: real, n: nat, i: nat): real
    requires i < n
  {
    if i == 0 then Power(1.0 - alpha, n - 1) else Times(alpha, Power(1.0 - alpha, n - 1 - i))
  }

  /** Sum of the first `m` of `n` weights. */
  function WeightSum(alpha: real, n: nat, m: nat): real
    requires m <= n
  {
    if m == 0 then 0.0 else WeightSum(alpha, n, m - 1) + Weight(alpha, n, m - 1)
  }

  /** The first `m` rates, weighted as the first of `n`. */
  function WeightedSum(alpha: real, n: nat, rates: seq<real>, m: nat): real
    requires m <= n && m <= |rates|
  {
    if m == 0 then 0.0 else WeightedSum(alpha, n, rates, m - 1) + Times(Weight(alpha, n, m - 1), rates[m - 1])
  }

  lemma WeightNonNegative(alpha: real, n: nat, i: nat)
    requires 0.0 < alpha <= 1.0 && i < n
    ensures Weight(alpha, n, i) >= 0.0
  {
    PowerNonNegative(1.0 - alpha, n - 1 - i);
    ProductNonNegative(alpha, Power(1.0 - alpha, n - 1 - i));
  }

  lemma WeightStep(alpha: real, n: nat, i: nat)
    requires i < n
    ensures Weight(alpha, n + 1, i) == Times(1.0 - alpha, Weight(alpha, n, i))
  {
    hide Times;
    var b, k := 1.0 - alpha, n - 1 - i;
    assert Power(b, k + 1) == Times(b, Power(b, k));
    Associates(alpha, b, Power(b, k));
  }

  lemma LastWeight(alpha: real, n: nat)
    requires n >= 1
    ensures Weight(alpha, n + 1, n) == alpha
    ensures Weight(alpha, 1, 0) == 1.0
  {
    Units(alpha);
  }

  /** One more window scales what the earlier ones contribute. */
  lemma {:induction false} SumsStep(alpha: real, n: nat, rates: seq<real>, m: nat)
    requires m <= n && m <= |rates|
    ensures WeightSum(alpha, n + 1, m) == Times(1.0 - alpha, WeightSum(alpha, n, m))
    ensures WeightedSum(alpha, n + 1, rates, m) == Times(1.0 - alpha, WeightedSum(alpha, n, rates, m))
  {
    hide Times, Weight;
    var b := 1.0 - alpha;
    Units(b);
    if m > 0 {
      var w, x := Weight(alpha, n, m - 1), rates[m - 1];
      SumsStep(alpha, n, rates, m - 1);
      WeightStep(alpha, n, m - 1);
      Associates(b, w, x);
      Distributes(b, WeightSum(alpha, n, m - 1), w);
      Distributes(b, WeightedSum(alpha, n, rates, m - 1), Times(w, x));
    }
  }

  lemma {:induction false} WeightedSumPrefix(alpha: real, n: nat, rates: seq<real>, more: seq<real>, m: nat)
    requires m <= n && m <= |rates|
    ensures WeightedSum(alpha, n, rates + more, m) == WeightedSum(alpha, n, rates, m)
  {
    hide Times, Weight;
    if m > 0 {
      WeightedSumPrefix(alpha, n, rates, more, m - 1);
    }
  }

  /** Closed form: the average is a weighted sum of the window rates, and the weights sum to one. */
  lemma {:induction false} AverageIsWeightedSum(alpha: real, rates: seq<real>)
    requires rates != []
    ensures Average(alpha, rates) == WeightedSum(alpha, |rates|, rates, |rates|)
    ensures WeightSum(alpha, |rates|, |rates|) == 1.0
  {
    hide Times, Weight;
    var n, last := |rates|, rates[|rates| - 1];
    LastWeight(alpha, 1);
    Units(last);
    Units(1.0 - alpha);
    if n == 1 {
      assert WeightSum(alpha, 1, 0) == 0.0 && WeightedSum(alpha, 1, rates, 0) == 0.0;
    } else {
      var init := rates[..n - 1];
      AverageIsWeightedSum(alpha, init);
      SumsStep(alpha, n - 1, init, n - 1);
      LastWeight(alpha, n - 1);
      assert rates == init + [last];
      WeightedSumPrefix(alpha, n, init, [last], n - 1);
    }
  }

  /** The average stays between the least and the greatest rate observed. */
  lemma {:induction false} AverageInRange(alpha: real, rates: seq<real>, lo: real, hi: real)
    requires rates != [] && 0.0 < alpha <= 1.0
    requires forall i :: 0 <= i < |rates| ==> lo <= rates[i] <= hi
    ensures lo <= Average(alpha, rates) <= hi
  {
    if |rates| > 1 {
      var init := rates[..|rates| - 1];
      AverageInRange(alpha, init, lo, hi);
      Mix(alpha, rates[|rates| - 1], Average(alpha, init), lo, hi);
    }
  }

  lemma Mix(alpha: real, x: real, y: real, lo: real, hi: real)
    requires 0.0 < alpha <= 1.0 && lo <= x <= hi && lo <= y <= hi
    ensures lo <= Times(alpha, x) + Times(1.0 - alpha, y) <= hi
  {
    ProductNonNegative(alpha, x - lo);
    ProductNonNegative(1.0 - alpha, y - lo);
    ProductNonNegative(alpha, hi - x);
    ProductNonNegative(1.0 - alpha, hi - y);
  }

  function Constant(x: real, k: nat): seq<real> {
    if k == 0 then [] else Constant(x, k - 1) + [x]
  }

  lemma AverageStep(alpha: real, rates: seq<real>, x: real)
    requires rates != []
    ensures Average(alpha, rates + [x]) == Times(alpha, x) + Times(1.0 - alpha, Average(alpha, rates))
  {
    assert (rates + [x])[..|rates|] == rates;
  }

  lemma SeedIsAverage(alpha: real, x: real)
    ensures Average(alpha, [x]) == x
  {
  }

  /** One update of the code's formula is one more term of the average. */
  lemma StepIsAverage(alpha: real, rates: seq<real>, x: real)
    requires rates != []
    ensures alpha * x + (1.0 - alpha) * Average(alpha, rates) == Average(alpha, rates + [x])
  {
    AverageStep(alpha, rates, x);
  }

  lemma ErrorShrinks(alpha: real, x: real, y: real)
    ensures Times(alpha, x) + Times(1.0 - alpha, y) - x == Times(1.0 - alpha, y - x)
  {
  }

  /** Under a constant window rate the error shrinks by exactly 1 - alpha per update. */
  lemma {:induction false} AverageConverges(alpha: real, rates: seq<real>, x: real, k: nat)
    requires rates != []
    ensures Average(alpha, rates + Constant(x, k)) - x == Times(Power(1.0 - alpha, k), Average(alpha, rates) - x)
  {
    hide Average, Times;
    var err := Average(alpha, rates) - x;
    Units(err);
    if k == 0 {
      assert rates + [] == rates;
    } else {
      AverageConverges(alpha, rates, x, k - 1);
      var before := rates + Constant(x, k - 1);
      assert rates + Constant(x, k) == before + [x];
      AverageStep(alpha, before, x);
      ErrorShrinks(alpha, x, Average(alpha, before));
      Associates(1.0 - alpha, Power(1.0 - alpha, k - 1), err);
    }
  }

  // ------------------------------------------------------------------ the threshold map

  /** Position of the average between the bounds. */
  function Ratio(min: real, max: real, ema: real): real
    requires min < max
  {
    (ema - min) / (max - min)
  }

  /** Three tenths of a part of the way up. */
  function Lift(span: real, part: real): real {
    span * part * 0.3
  }

  /** The three branches, before clamping. */
  function Raw(min: real, max: real, base: real, ema: real): real
    requires min < max
  {
    if ema < min then min + (base - min) * 0.3
    else if ema > max then base + (max - base) * 0.5
    else base + Lift(max - base, Ratio(min, max, ema))
  }

  function Clamp(min: real, max: real, x: real): real {
    var low := if x < min then min else x;
    if low > max then max else low
  }

  function Threshold(min: real, max: real, base: real, ema: real): real
    requires min < max
  {
    Clamp(min, max, Raw(min, max, base, ema))
  }

  /** The map in tenths: below the bounds three of the way from the lower bound to the base, above
      them five of the way from the base to the upper bound, and between them up to three of that
      way, in proportion to where between them the average lies. */
  lemma RawInTenths(min: real, max: real, base: real, ema: real)
    requires min < max
    ensures ema < min ==> 10.0 * (Raw(min, max, base, ema) - min) == 3.0 * (base - min)
    ensures ema > max ==> 10.0 * (Raw(min, max, base, ema) - base) == 5.0 * (max - base)
    ensures min <= ema <= max ==>
              10.0 * (Raw(min, max, base, ema) - base) * (max - min) == 3.0 * (max - base) * (ema - min)
  {
    if min <= ema <= max {
      var w, part := max - min, Ratio(min, max, ema);
      assert part * w == ema - min;
      assert Raw(min, max, base, ema) - base == (max - base) * part * 0.3;
      assert (max - base) * part * w == (max - base) * (ema - min);
    }
  }

  /** The clamp is the nearest value between the bounds. */
  lemma ClampIsNearest(min: real, max: real, x: real)
    requires min < max
    ensures min <= x <= max ==> Clamp(min, max, x) == x
    ensures x < min ==> Clamp(min, max, x) == min
    ensures x > max ==> Clamp(min, max, x) == max
  {
  }

  lemma ThresholdInRange(min: real, max: real, base: real, ema: real)
    requires min < max
    ensures min <= Threshold(min, max, base, ema) <= max
  {
  }

  lemma QuotientMonotone(x: real, y: real, w: real)
    requires w > 0.0 && x <= y
    ensures x / w <= y / w
  {
  }

  lemma RatioInRange(min: real, max: real, ema: real)
    requires min < max && min <= ema <= max
    ensures 0.0 <= Ratio(min, max, ema) <= 1.0
  {
    QuotientMonotone(0.0, ema - min, max - min);
    QuotientMonotone(ema - min, max - min, max - min);
  }

  lemma RatioMonotone(min: real, max: real, e: real, e': real)
    requires min < max && e <= e'
    ensures Ratio(min, max, e) <= Ratio(min, max, e')
  {
    QuotientMonotone(e - min, e' - min, max - min);
  }

  /** In the middle branch the raw threshold lies between base and three tenths of the way up. */
  lemma MiddleBranch(min: real, max: real, base: real, ema: real)
    requires min <= base <= max && min < max && min <= ema <= max
    ensures base <= Raw(min, max, base, ema) <= base + (max - base) * 0.3
  {
    RatioInRange(min, max, ema);
    Stretch(max - base, 0.0, Ratio(min, max, ema));
    Stretch(max - base, Ratio(min, max, ema), 1.0);
    hide Ratio;
  }

  /** With the base between the bounds the clamp changes nothing. */
  lemma ClampIdle(min: real, max: real, base: real, ema: real)
    requires min < max && min <= base <= max
    ensures Threshold(min, max, base, ema) == Raw(min, max, base, ema)
  {
    if min <= ema <= max {
      MiddleBranch(min, max, base, ema);
    }
  }

  /** A higher failure average never gives a lower threshold, across both jumps. */
  lemma ThresholdMonotone(min: real, max: real, base: real, e: real, e': real)
    requires min < max && min <= base <= max && e <= e'
    ensures Threshold(min, max, base, e) <= Threshold(min, max, base, e')
  {
    ClampIdle(min, max, base, e);
    ClampIdle(min, max, base, e');
    hide Ratio, Lift, Threshold;
    if min <= e <= max {
      MiddleBranch(min, max, base, e);
    }
    if min <= e' <= max {
      MiddleBranch(min, max, base, e');
    }
    if min <= e && e' <= max {
      RatioMonotone(min, max, e, e');
      Stretch(max - base, Ratio(min, max, e), Ratio(min, max, e'));
    }
  }

  lemma Stretch(w: real, p: real, q: real)
    requires w >= 0.0 && p <= q
    ensures Lift(w, p) <= Lift(w, q)
    ensures Lift(w, 0.0) == 0.0 && Lift(w, 1.0) == w * 0.3
  {
    ProductNonNegative(w, q - p);
    assert w * q - w * p == w * (q - p);
  }
}
