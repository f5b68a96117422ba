/**
 The chart indicators: the two moving averages, the relative strength index, the anchored
 VWAP and the search for the nearest bar.  Floats are reals.
 */
module Indicators {
  import opened Wrappers

  datatype Bar = Bar(time: int, high: real, low: real, close: real, volume: real)

  datatype Point = Point(time: int, value: real)

  // ---- Exponential moving averages ----

  function Smoothing(period: int): real
    requires period >= 1
  {
    2.0 / (period + 1) as real
  }

  /** The average that is `seed` at bar `from` and takes in every close after it. */
  function Ema(bars: seq<Bar>, k: real, seed: real, from: nat, i: nat): real
    requires from <= i < |bars|
    decreases i
  {
    if i == from then seed else bars[i].close * k + Ema(bars, k, seed, from, i - 1) * (1.0 - k)
  }

  function CloseSum(bars: seq<Bar>, n: nat): real
    requires n <= |bars|
  {
    if n == 0 then 0.0 else CloseSum(bars, n - 1) + bars[n - 1].close
  }

  /** The average seeded with the mean of the first `period` closes. */
  function MeanSeeded(bars: seq<Bar>, period: int, i: nat): real
    requires 1 <= period <= i + 1 <= |bars|
  {
    Ema(bars, Smoothing(period), CloseSum(bars, period) / period as real, period - 1, i)
  }

  /** The average seeded with the first close. */
  function CloseSeeded(bars: seq<Bar>, period: int, i: nat): real
    requires period >= 1 && i < |bars|
  {
    Ema(bars, Smoothing(period), bars[0].close, 0, i)
  }

  /** live-chart.tsx */
  method MeanSeededEma(bars: seq<Bar>, period: int) returns (result: seq<Point>)
    requires period >= 1
    ensures |result| == if |bars| < period then 0 else |bars| - period + 1
    ensures forall j | 0 <= j < |result| ::
      result[j] == Point(bars[period - 1 + j].time, MeanSeeded(bars, period, period - 1 + j))
  {
    if |bars| < period { return []; }
    var k := 2.0 / (period + 1) as real;
    var sum := 0.0;
    for i := 0 to period
      invariant sum == CloseSum(bars, i)
    {
      sum := sum + bars[i].close;
    }
    var ema := sum / period as real;
    result := [Point(bars[period - 1].time, ema)];
    for i := period to |bars|
      invariant |result| == i - period + 1 && ema == MeanSeeded(bars, period, i - 1)
      invariant forall j | 0 <= j < |result| ::
        result[j] == Point(bars[period - 1 + j].time, MeanSeeded(bars, period, period - 1 + j))
    {
      ema := bars[i].close * k + ema * (1.0 - k);
      result := result + [Point(bars[i].time, ema)];
    }
  }

  /** trading-signal-chart.tsx */
  method CloseSeededEma(bars: seq<Bar>, period: int) returns (out: seq<Point>)
    requires period >= 1
    ensures |out| == if |bars| < period then 0 else |bars| - period + 1
    ensures forall j | 0 <= j < |out| ::
      out[j] == Point(bars[period - 1 + j].time, CloseSeeded(bars, period, period - 1 + j))
  {
    if |bars| == 0 { return []; }
    var k := 2.0 / (period + 1) as real;
    var emaValues := [bars[0].close];
    for i := 1 to |bars|
      invariant |emaValues| == i && forall j | 0 <= j < i :: emaValues[j] == CloseSeeded(bars, period, j)
    {
      emaValues := emaValues + [bars[i].close * k + emaValues[i - 1] * (1.0 - k)];
    }
    out := [];
    for i := 0 to |bars|
      invariant |out| == if i < period then 0 else i - period + 1
      invariant forall j | 0 <= j < |out| ::
        out[j] == Point(bars[period - 1 + j].time, CloseSeeded(bars, period, period - 1 + j))
    {
      if i < period - 1 { continue; }
      out := out + [Point(bars[i].time, emaValues[i])];
    }
  }

  function Power(x: real, n: nat): real {
    if n == 0 then 1.0 else x * Power(x, n - 1)
  }

  /** What is left of a first difference after `n` more bars. */
  function Faded(k: real, n: nat, gap: real): real {
    if n == 0 then gap else Faded(k, n - 1, gap) * (1.0 - k)
  }

  lemma {:induction false} FadedIsPower(k: real, n: nat, gap: real)
    ensures Faded(k, n, gap) == Power(1.0 - k, n) * gap
  {
    if n > 0 {
      FadedIsPower(k, n - 1, gap);
      Reorder(Power(1.0 - k, n - 1), gap, 1.0 - k);
    }
  }

  lemma Reorder(p: real, g: real, r: real)
    ensures (p * g) * r == (r * p) * g
  {}

  /** Averages with one smoothing differ at a later bar by what is left of the older difference. */
  lemma {:induction false} EmaGap(bars: seq<Bar>, k: real, s: real, f: nat, s': real, f': nat, m: nat, i: nat,
                                  gap: real)
    requires f <= m && f' <= m <= i < |bars|
    requires Ema(bars, k, s, f, m) == Ema(bars, k, s', f', m) + gap
    ensures Ema(bars, k, s, f, i) == Ema(bars, k, s', f', i) + Faded(k, i - m, gap)
    decreases i
  {
    if i > m {
      EmaGap(bars, k, s, f, s', f', m, i - 1, gap);
      Spread(Ema(bars, k, s', f', i - 1), Faded(k, i - m - 1, gap), 1.0 - k);
    }
  }

  lemma Spread(a: real, b: real, r: real)
    ensures (a + b) * r == a * r + b * r
  {}

  /** From the first bar they share, the charts' averages differ by a shrinking multiple of their first difference. */
  lemma SeedsConverge(bars: seq<Bar>, period: int, i: nat, gap: real)
    requires 1 <= period <= i + 1 <= |bars|
    requires MeanSeeded(bars, period, period - 1) == CloseSeeded(bars, period, period - 1) + gap
    ensures MeanSeeded(bars, period, i) ==
      CloseSeeded(bars, period, i) + Power(1.0 - Smoothing(period), i - period + 1) * gap
    ensures 0.0 <= 1.0 - Smoothing(period) < 1.0
  {
    SmoothingBetween(period);
    EmaGap(bars, Smoothing(period), CloseSum(bars, period) / period as real, period - 1,
           bars[0].close, 0, period - 1, i, gap);
    FadedIsPower(Smoothing(period), i - period + 1, gap);
  }

  lemma SmoothingBetween(period: int)
    requires period >= 1
    ensures 0.0 < Smoothing(period) <= 1.0
  {}

  ghost predicate Bounded(bars: seq<Bar>, n: nat, lo: real, hi: real)
    requires n <= |bars|
  {
    forall j | 0 <= j < n :: lo <= bars[j].close <= hi
  }

  lemma Portion(d: real, k: real)
    requires d >= 0.0 && 0.0 <= k <= 1.0
    ensures 0.0 <= d * k <= d
  {
    Scale(k, 1.0, d);
  }

  /** A blend of `x` and `y` is `y` and a portion of the way to `x`. */
  lemma Step(x: real, y: real, k: real) returns (p: real)
    requires 0.0 <= k <= 1.0
    ensures x * k + y * (1.0 - k) == y + p
    ensures y <= x ==> 0.0 <= p <= x - y
    ensures x <= y ==> x - y <= p <= 0.0
  {
    var d := x - y;
    p := d * k;
    Expand(y, d, k);
    if d >= 0.0 {
      Portion(d, k);
    } else {
      Portion(-d, k);
      Negate(d, k);
    }
  }

  lemma Expand(y: real, d: real, k: real)
    ensures (y + d) * k + y * (1.0 - k) == y + d * k
  {}

  lemma Negate(d: real, k: real)
    ensures (-d) * k == -(d * k)
  {}

  lemma Blend(x: real, y: real, k: real, lo: real, hi: real)
    requires 0.0 <= k <= 1.0 && lo <= x <= hi && lo <= y <= hi
    ensures lo <= x * k + y * (1.0 - k) <= hi
  {
    var p := Step(x, y, k);
  }

  lemma Scale(x: real, y: real, k: real)
    requires x <= y && k >= 0.0
    ensures x * k <= y * k
  {}

  lemma {:induction false} EmaBounded(bars: seq<Bar>, k: real, seed: real, from: nat, i: nat, lo: real, hi: real)
    requires from <= i < |bars| && 0.0 <= k <= 1.0 && lo <= seed <= hi && Bounded(bars, i + 1, lo, hi)
    ensures lo <= Ema(bars, k, seed, from, i) <= hi
    decreases i
  {
    if i > from {
      EmaBounded(bars, k, seed, from, i - 1, lo, hi);
      Blend(bars[i].close, Ema(bars, k, seed, from, i - 1), k, lo, hi);
    }
  }

  lemma {:induction false} SumBounded(bars: seq<Bar>, n: nat, lo: real, hi: real)
    requires n <= |bars| && Bounded(bars, n, lo, hi)
    ensures lo * n as real <= CloseSum(bars, n) <= hi * n as real
  {
    if n > 0 {
      SumBounded(bars, n - 1, lo, hi);
      assert n as real == (n - 1) as real + 1.0;
      assert lo * n as real == lo * (n - 1) as real + lo && hi * n as real == hi * (n - 1) as real + hi;
    }
  }

  lemma Divide(x: real, n: real, lo: real, hi: real)
    requires n > 0.0 && lo * n <= x <= hi * n
    ensures lo <= x / n <= hi
  {
    assert (x / n) * n == x;
    Unscale(lo, x / n, n);
    Unscale(x / n, hi, n);
  }

  lemma Unscale(x: real, y: real, k: real)
    requires k > 0.0 && x * k <= y * k
    ensures x <= y
  {
    if y < x { Grows(y, x, k); }
  }

  lemma Grows(x: real, y: real, k: real)
    requires x < y && k > 0.0
    ensures x * k < y * k
  {}

  /** Neither average leaves the range of the closes seen so far. */
  lemma AveragesBounded(bars: seq<Bar>, period: int, i: nat, lo: real, hi: real)
    requires 1 <= period <= i + 1 <= |bars| && Bounded(bars, i + 1, lo, hi)
    ensures lo <= MeanSeeded(bars, period, i) <= hi && lo <= CloseSeeded(bars, period, i) <= hi
  {
    SmoothingBetween(period);
    SumBounded(bars, period, lo, hi);
    Divide(CloseSum(bars, period), period as real, lo, hi);
    EmaBounded(bars, Smoothing(period), CloseSum(bars, period) / period as real, period - 1, i, lo, hi);
    EmaBounded(bars, Smoothing(period), bars[0].close, 0, i, lo, hi);
  }

  /** What one step of either average is: the close counts two parts in `period + 1`, the average before it the rest. */
  lemma StepIs(x: real, average: real, period: int)
    requires period >= 1
    ensures var k := Smoothing(period);
      (x * k + average * (1.0 - k)) * (period + 1) as real == 2.0 * x + (period - 1) as real * average
  {
    var k, n := Smoothing(period), (period + 1) as real;
    assert k * n == 2.0;
    assert (x * k + average * (1.0 - k)) * n == x * (k * n) + average * (n - k * n);
  }

  /** The average that starts at the first close, without fractions. */
  lemma CloseSeededIs(bars: seq<Bar>, period: int, i: nat)
    requires period >= 1 && i < |bars|
    ensures if i == 0 then CloseSeeded(bars, period, i) == bars[0].close
            else CloseSeeded(bars, period, i) * (period + 1) as real ==
                   2.0 * bars[i].close + (period - 1) as real * CloseSeeded(bars, period, i - 1)
  {
    if i > 0 { StepIs(bars[i].close, CloseSeeded(bars, period, i - 1), period); }
  }

  /** The average that starts at the mean of the first `period` closes, without fractions. */
  lemma MeanSeededIs(bars: seq<Bar>, period: int, i: nat)
    requires 1 <= period <= i + 1 <= |bars|
    ensures if i == period - 1 then MeanSeeded(bars, period, i) * period as real == CloseSum(bars, period)
            else MeanSeeded(bars, period, i) * (period + 1) as real ==
                   2.0 * bars[i].close + (period - 1) as real * MeanSeeded(bars, period, i - 1)
  {
    if i == period - 1 {
      QuotientTimes(CloseSum(bars, period), period as real);
    } else {
      StepIs(bars[i].close, MeanSeeded(bars, period, i - 1), period);
    }
  }

  // ---- Anchored VWAP ----

  function Typical(b: Bar): real {
    (b.high + b.low + b.close) / 3.0
  }

  /** Bar `i` counts: its session flag `rth[i]` matters only when `rthOnly`. */
  predicate Counts(rth: seq<bool>, rthOnly: bool, i: nat)
    requires i < |rth|
  {
    !rthOnly || rth[i]
  }

  /** Price times volume over the counting bars from `start` to `n`. */
  function PriceVolume(bars: seq<Bar>, rth: seq<bool>, rthOnly: bool, start: nat, n: nat): real
    requires n <= |bars| == |rth|
  {
    if n <= start then 0.0
    else
      var before := PriceVolume(bars, rth, rthOnly, start, n - 1);
      if Counts(rth, rthOnly, n - 1) then before + Typical(bars[n - 1]) * bars[n - 1].volume else before
  }

  function Volume(bars: seq<Bar>, rth: seq<bool>, rthOnly: bool, start: nat, n: nat): real
    requires n <= |bars| == |rth|
  {
    if n <= start then 0.0
    else
      var before := Volume(bars, rth, rthOnly, start, n - 1);
      if Counts(rth, rthOnly, n - 1) then before + bars[n - 1].volume else before
  }

  /** A point for each counting bar once there is volume: the mean price so far, by volume. */
  function VwapPoints(bars: seq<Bar>, rth: seq<bool>, rthOnly: bool, start: nat, n: nat): seq<Point>
    requires n <= |bars| == |rth|
  {
    if n <= start then []
    else
      var before := VwapPoints(bars, rth, rthOnly, start, n - 1);
      var volume := Volume(bars, rth, rthOnly, start, n);
      if Counts(rth, rthOnly, n - 1) && volume > 0.0 then
        before + [Point(bars[n - 1].time, PriceVolume(bars, rth, rthOnly, start, n) / volume)]
      else before
  }

  method AnchoredVwap(bars: seq<Bar>, rth: seq<bool>, startIdx: nat, rthOnly: bool) returns (result: seq<Point>)
    requires |bars| == |rth|
    ensures result == VwapPoints(bars, rth, rthOnly, startIdx, |bars|)
  {
    result := [];
    if startIdx >= |bars| { return; }
    var cumTPV, cumVol := 0.0, 0.0;
    for i := startIdx to |bars|
      invariant cumTPV == PriceVolume(bars, rth, rthOnly, startIdx, i)
      invariant cumVol == Volume(bars, rth, rthOnly, startIdx, i)
      invariant result == VwapPoints(bars, rth, rthOnly, startIdx, i)
    {
      if rthOnly && !rth[i] { continue; }
      cumTPV := cumTPV + Typical(bars[i]) * bars[i].volume;
      cumVol := cumVol + bars[i].volume;
      if cumVol > 0.0 { result := result + [Point(bars[i].time, cumTPV / cumVol)]; }
    }
  }

  /** The volume of bars `start` to `n - 1`, of those in session only when `rthOnly`. */
  ghost function VolumeOf(bars: seq<Bar>, rth: seq<bool>, rthOnly: bool, start: nat, n: nat): real
    requires n <= |bars| == |rth|
  {
    if n <= start then 0.0
    else VolumeOf(bars, rth, rthOnly, start, n - 1) + if rthOnly && !rth[n - 1] then 0.0 else bars[n - 1].volume
  }

  /** The same with each volume multiplied by the sum of high, low and close. */
  ghost function TripleOf(bars: seq<Bar>, rth: seq<bool>, rthOnly: bool, start: nat, n: nat): real
    requires n <= |bars| == |rth|
  {
    if n <= start then 0.0
    else
      TripleOf(bars, rth, rthOnly, start, n - 1)
      + if rthOnly && !rth[n - 1] then 0.0
        else (bars[n - 1].high + bars[n - 1].low + bars[n - 1].close) * bars[n - 1].volume
  }

  lemma {:induction false} SumsAre(bars: seq<Bar>, rth: seq<bool>, rthOnly: bool, start: nat, n: nat)
    requires n <= |bars| == |rth|
    ensures Volume(bars, rth, rthOnly, start, n) == VolumeOf(bars, rth, rthOnly, start, n)
    ensures 3.0 * PriceVolume(bars, rth, rthOnly, start, n) == TripleOf(bars, rth, rthOnly, start, n)
  {
    if n > start {
      SumsAre(bars, rth, rthOnly, start, n - 1);
      Third(bars[n - 1].high + bars[n - 1].low + bars[n - 1].close, bars[n - 1].volume);
    }
  }

  lemma Third(x: real, v: real)
    ensures 3.0 * (x / 3.0 * v) == x * v
  {
    assert 3.0 * (x / 3.0) == x;
  }

  /** Bar `i` has a point: it counts, and the counting bars up to it have volume. */
  ghost predicate HasPoint(bars: seq<Bar>, rth: seq<bool>, rthOnly: bool, start: nat, i: nat)
    requires i < |bars| == |rth|
  {
    start <= i && (rthOnly ==> rth[i]) && VolumeOf(bars, rth, rthOnly, start, i + 1) > 0.0
  }

  /** `p` stands at bar `i`, its value being the mean of high, low and close so far, by volume. */
  ghost predicate IsPointAt(bars: seq<Bar>, rth: seq<bool>, rthOnly: bool, start: nat, i: nat, p: Point)
    requires i < |bars| == |rth|
  {
    && HasPoint(bars, rth, rthOnly, start, i) && p.time == bars[i].time
    && 3.0 * (p.value * VolumeOf(bars, rth, rthOnly, start, i + 1)) == TripleOf(bars, rth, rthOnly, start, i + 1)
  }

  /** The bars before `n` that have a point, in order. */
  ghost function PointBars(bars: seq<Bar>, rth: seq<bool>, rthOnly: bool, start: nat, n: nat): seq<nat>
    requires n <= |bars| == |rth|
  {
    if n == 0 then []
    else
      var before := PointBars(bars, rth, rthOnly, start, n - 1);
      if HasPoint(bars, rth, rthOnly, start, n - 1) then before + [n - 1] else before
  }

  lemma {:induction false} PointBarsAre(bars: seq<Bar>, rth: seq<bool>, rthOnly: bool, start: nat, n: nat)
    requires n <= |bars| == |rth|
    ensures var at := PointBars(bars, rth, rthOnly, start, n);
      && (forall i | 0 <= i < |at| :: at[i] < n)
      && (forall i, j | 0 <= i < j < |at| :: at[i] < at[j])
      && (forall i :: i in at <==> 0 <= i < n && HasPoint(bars, rth, rthOnly, start, i))
  {
    if n > 0 { PointBarsAre(bars, rth, rthOnly, start, n - 1); }
  }

  lemma QuotientTimes(x: real, y: real)
    requires y > 0.0
    ensures x / y * y == x
  {
    var q := x / y;
    assert q * y == x;
  }

  ghost predicate PointsAt(bars: seq<Bar>, rth: seq<bool>, rthOnly: bool, start: nat, at: seq<nat>, points: seq<Point>)
    requires |bars| == |rth|
  {
    |points| == |at|
    && forall k | 0 <= k < |at| :: at[k] < |bars| && IsPointAt(bars, rth, rthOnly, start, at[k], points[k])
  }

  lemma PointsNext(bars: seq<Bar>, rth: seq<bool>, rthOnly: bool, start: nat, n: nat)
    requires n < |bars| == |rth|
    requires PointsAt(bars, rth, rthOnly, start, PointBars(bars, rth, rthOnly, start, n),
                      VwapPoints(bars, rth, rthOnly, start, n))
    ensures PointsAt(bars, rth, rthOnly, start, PointBars(bars, rth, rthOnly, start, n + 1),
                     VwapPoints(bars, rth, rthOnly, start, n + 1))
  {
    SumsAre(bars, rth, rthOnly, start, n + 1);
    if HasPoint(bars, rth, rthOnly, start, n) {
      var pv, v := PriceVolume(bars, rth, rthOnly, start, n + 1), Volume(bars, rth, rthOnly, start, n + 1);
      QuotientTimes(pv, v);
      assert IsPointAt(bars, rth, rthOnly, start, n, Point(bars[n].time, pv / v));
    }
  }

  lemma {:induction false} PointsStandAt(bars: seq<Bar>, rth: seq<bool>, rthOnly: bool, start: nat, n: nat)
    requires n <= |bars| == |rth|
    ensures PointsAt(bars, rth, rthOnly, start, PointBars(bars, rth, rthOnly, start, n),
                     VwapPoints(bars, rth, rthOnly, start, n))
  {
    if n > 0 {
      var k := n - 1;
      PointsStandAt(bars, rth, rthOnly, start, k);
      PointsNext(bars, rth, rthOnly, start, k);
      assert k + 1 == n;
    }
  }

  /** The points are those of exactly the bars that have one, in order, each the volume-weighted mean so far. */
  lemma VwapPointsAre(bars: seq<Bar>, rth: seq<bool>, rthOnly: bool, start: nat, n: nat) returns (at: seq<nat>)
    requires n <= |bars| == |rth|
    ensures PointsAt(bars, rth, rthOnly, start, at, VwapPoints(bars, rth, rthOnly, start, n))
    ensures forall i, j | 0 <= i < j < |at| :: at[i] < at[j]
    ensures forall i :: i in at <==> 0 <= i < n && HasPoint(bars, rth, rthOnly, start, i)
  {
    at := PointBars(bars, rth, rthOnly, start, n);
    PointBarsAre(bars, rth, rthOnly, start, n);
    PointsStandAt(bars, rth, rthOnly, start, n);
  }

  /** Counting bars have no negative volume and typical prices from `lo` to `hi`. */
  ghost predicate Priced(bars: seq<Bar>, rth: seq<bool>, rthOnly: bool, start: nat, lo: real, hi: real)
    requires |bars| == |rth|
  {
    forall i | start <= i < |bars| && Counts(rth, rthOnly, i) :: bars[i].volume >= 0.0 && lo <= Typical(bars[i]) <= hi
  }

  ghost predicate Weighs(lo: real, hi: real, v: real, pv: real) {
    lo * v <= pv <= hi * v
  }

  lemma {:induction false} PriceVolumeBounded(bars: seq<Bar>, rth: seq<bool>, rthOnly: bool, start: nat, n: nat,
                                               lo: real, hi: real)
    requires n <= |bars| == |rth| && Priced(bars, rth, rthOnly, start, lo, hi)
    ensures Weighs(lo, hi, Volume(bars, rth, rthOnly, start, n), PriceVolume(bars, rth, rthOnly, start, n))
  {
    if n > start {
      PriceVolumeBounded(bars, rth, rthOnly, start, n - 1, lo, hi);
      if Counts(rth, rthOnly, n - 1) {
        var v, pv := Volume(bars, rth, rthOnly, start, n - 1), PriceVolume(bars, rth, rthOnly, start, n - 1);
        Weigh(lo, Typical(bars[n - 1]), hi, v, pv, bars[n - 1].volume);
      }
    } else {
      Weightless(lo, hi);
    }
  }

  lemma Weightless(lo: real, hi: real)
    ensures Weighs(lo, hi, 0.0, 0.0)
  {}

  lemma Weigh(lo: real, x: real, hi: real, v: real, pv: real, w: real)
    requires lo <= x <= hi && w >= 0.0 && Weighs(lo, hi, v, pv)
    ensures Weighs(lo, hi, v + w, pv + x * w)
  {
    Scale(lo, x, w);
    Scale(x, hi, w);
    assert lo * (v + w) == lo * v + lo * w && hi * (v + w) == hi * v + hi * w;
  }

  /** The anchored VWAP never leaves the range of the typical prices it is made of. */
  lemma VwapBounded(bars: seq<Bar>, rth: seq<bool>, rthOnly: bool, start: nat, n: nat, lo: real, hi: real)
    requires n <= |bars| == |rth| && Priced(bars, rth, rthOnly, start, lo, hi)
    ensures forall p | p in VwapPoints(bars, rth, rthOnly, start, n) :: lo <= p.value <= hi
  {
    var at, points := PointBars(bars, rth, rthOnly, start, n), VwapPoints(bars, rth, rthOnly, start, n);
    PointsStandAt(bars, rth, rthOnly, start, n);
    forall k | 0 <= k < |points|
      ensures lo <= points[k].value <= hi
    {
      assert IsPointAt(bars, rth, rthOnly, start, at[k], points[k]);
      PointBounded(bars, rth, rthOnly, start, at[k], points[k], lo, hi);
    }
  }

  lemma PointBounded(bars: seq<Bar>, rth: seq<bool>, rthOnly: bool, start: nat, i: nat, p: Point, lo: real, hi: real)
    requires i < |bars| == |rth| && Priced(bars, rth, rthOnly, start, lo, hi)
    requires IsPointAt(bars, rth, rthOnly, start, i, p)
    ensures lo <= p.value <= hi
  {
    var v, pv := Volume(bars, rth, rthOnly, start, i + 1), PriceVolume(bars, rth, rthOnly, start, i + 1);
    SumsAre(bars, rth, rthOnly, start, i + 1);
    PriceVolumeBounded(bars, rth, rthOnly, start, i + 1, lo, hi);
    MeanWithin(p.value, v, pv, lo, hi);
  }

  lemma MeanWithin(x: real, v: real, pv: real, lo: real, hi: real)
    requires v > 0.0 && 3.0 * (x * v) == 3.0 * pv && Weighs(lo, hi, v, pv)
    ensures lo <= x <= hi
  {
    Unscale(lo, x, v);
    Unscale(x, hi, v);
  }

  // ---- Relative strength index ----

  function Gain(bars: seq<Bar>, i: nat): real
    requires 1 <= i < |bars|
  {
    var change := bars[i].close - bars[i - 1].close;
    if change > 0.0 then change else 0.0
  }

  function Loss(bars: seq<Bar>, i: nat): real
    requires 1 <= i < |bars|
  {
    var change := bars[i].close - bars[i - 1].close;
    if change > 0.0 then 0.0 else -change
  }

  function Move(bars: seq<Bar>, up: bool, i: nat): (m: real)
    requires 1 <= i < |bars|
    ensures m >= 0.0
  {
    if up then Gain(bars, i) else Loss(bars, i)
  }

  /** The sum of the gains, or losses, of bars 1 to `n`. */
  function Moves(bars: seq<Bar>, up: bool, n: nat): real
    requires n < |bars|
  {
    if n == 0 then 0.0 else Moves(bars, up, n - 1) + Move(bars, up, n)
  }

  /** Wilder's smoothing: an average of `period` moves, one of them replaced by `x`. */
  function Smooth(average: real, period: int, x: real): real
    requires period >= 1
  {
    (average * (period - 1) as real + x) / period as real
  }

  /** The smoothed average gain, or loss, at bar `i`. */
  function Average(bars: seq<Bar>, up: bool, period: int, i: nat): real
    requires 1 <= period <= i < |bars|
    decreases i
  {
    if i == period then Moves(bars, up, period) / period as real
    else Smooth(Average(bars, up, period, i - 1), period, Move(bars, up, i))
  }

  function Rsi(gain: real, loss: real): real
    requires gain >= 0.0 && loss >= 0.0
  {
    if loss > 0.0 then
      var rs := gain / loss;
      assert rs * loss >= 0.0;
      100.0 - 100.0 / (1.0 + rs)
    else 100.0
  }

  lemma {:induction false} MovesSign(bars: seq<Bar>, up: bool, n: nat)
    requires n < |bars|
    ensures Moves(bars, up, n) >= 0.0
    ensures Moves(bars, up, n) == 0.0 <==> forall j | 1 <= j <= n :: Move(bars, up, j) == 0.0
  {
    if n > 0 { MovesSign(bars, up, n - 1); }
  }

  lemma Mean(a: real, w: real, x: real, n: real)
    requires a >= 0.0 && w >= 0.0 && x >= 0.0 && n > 0.0
    ensures (a * w + x) / n >= 0.0
    ensures w > 0.0 ==> ((a * w + x) / n == 0.0 <==> a == 0.0 && x == 0.0)
  {
    var m := (a * w + x) / n;
    assert m * n == a * w + x;
    assert a * w >= 0.0;
    if m < 0.0 { Grows(m, 0.0, n); }
    if w > 0.0 && a > 0.0 { Grows(0.0, a, w); }
  }

  lemma {:induction false} AverageNonNegative(bars: seq<Bar>, up: bool, period: int, i: nat)
    requires 1 <= period <= i < |bars|
    ensures Average(bars, up, period, i) >= 0.0
    decreases i
  {
    if i == period {
      MovesSign(bars, up, period);
      Mean(0.0, 0.0, Moves(bars, up, period), period as real);
    } else {
      AverageNonNegative(bars, up, period, i - 1);
      Mean(Average(bars, up, period, i - 1), (period - 1) as real, Move(bars, up, i), period as real);
    }
  }

  function RsiAt(bars: seq<Bar>, period: int, i: nat): real
    requires 1 <= period <= i < |bars|
  {
    AverageNonNegative(bars, true, period, i);
    AverageNonNegative(bars, false, period, i);
    Rsi(Average(bars, true, period, i), Average(bars, false, period, i))
  }

  /** The first point, as the code computes it: its else-branch and its two uses of 100. */
  lemma InitialRsi(gain: real, loss: real)
    requires gain >= 0.0 && loss > 0.0
    ensures gain / loss >= 0.0 && Rsi(gain, loss) == 100.0 - 100.0 / (1.0 + gain / loss)
  {
    Mean(0.0, 0.0, gain, loss);
  }

  method ComputeRsi(bars: seq<Bar>, period: int) returns (out: seq<Point>)
    requires period >= 1
    ensures |out| == if |bars| <= period then 0 else |bars| - period
    ensures forall j | 0 <= j < |out| :: out[j] == Point(bars[period + j].time, RsiAt(bars, period, period + j))
  {
    if |bars| <= period { return []; }
    var gains, losses := 0.0, 0.0;
    for i := 1 to period + 1
      invariant gains == Moves(bars, true, i - 1) && losses == Moves(bars, false, i - 1)
    {
      var change := bars[i].close - bars[i - 1].close;
      if change > 0.0 { gains := gains + change; } else { losses := losses - change; }
    }
    var avgGain := gains / period as real;
    var avgLoss := losses / period as real;
    AverageNonNegative(bars, true, period, period);
    AverageNonNegative(bars, false, period, period);
    var initialRSI := 100.0;
    if avgLoss != 0.0 {
      InitialRsi(avgGain, avgLoss);
      initialRSI := 100.0 - 100.0 / (1.0 + avgGain / avgLoss);
    }
    out := [Point(bars[period].time, initialRSI)];
    for i := period + 1 to |bars|
      invariant avgGain == Average(bars, true, period, i - 1) && avgLoss == Average(bars, false, period, i - 1)
      invariant |out| == i - period
      invariant forall j | 0 <= j < |out| :: out[j] == Point(bars[period + j].time, RsiAt(bars, period, period + j))
    {
      avgGain := Smooth(avgGain, period, Gain(bars, i));
      avgLoss := Smooth(avgLoss, period, Loss(bars, i));
      AverageNonNegative(bars, true, period, i);
      AverageNonNegative(bars, false, period, i);
      var rsi := 100.0;
      if avgLoss > 0.0 {
        InitialRsi(avgGain, avgLoss);
        rsi := 100.0 - 100.0 / (1.0 + avgGain / avgLoss);
      }
      out := out + [Point(bars[i].time, rsi)];
    }
  }

  lemma RsiRange(gain: real, loss: real)
    requires gain >= 0.0 && loss >= 0.0
    ensures 0.0 <= Rsi(gain, loss) <= 100.0
    ensures Rsi(gain, loss) == 100.0 <==> loss == 0.0
    ensures Rsi(gain, loss) == 0.0 <==> loss > 0.0 && gain == 0.0
  {
    if loss > 0.0 {
      var rs := gain / loss;
      assert rs * loss == gain;
      InitialRsi(gain, loss);
      if rs == 0.0 { assert gain == 0.0; }
      var q := 100.0 / (1.0 + rs);
      assert q * (1.0 + rs) == 100.0;
      Inverse(q, rs);
    }
  }

  /** How far bar `i` closes above, or for a fall below, the bar before it; nothing if it does not. */
  ghost function MoveIs(bars: seq<Bar>, up: bool, i: nat): real
    requires 1 <= i < |bars|
  {
    var change := bars[i].close - bars[i - 1].close;
    if up && change > 0.0 then change else if !up && change < 0.0 then -change else 0.0
  }

  /** The moves of bars 1 to `n`, together. */
  ghost function MoveSum(bars: seq<Bar>, up: bool, n: nat): real
    requires n < |bars|
  {
    if n == 0 then 0.0 else MoveSum(bars, up, n - 1) + MoveIs(bars, up, n)
  }

  lemma {:induction false} MovesAre(bars: seq<Bar>, up: bool, n: nat)
    requires n < |bars|
    ensures Moves(bars, up, n) == MoveSum(bars, up, n)
  {
    if n > 0 { MovesAre(bars, up, n - 1); }
  }

  /** One of `period` parts of the average before is replaced by `move`. */
  ghost predicate Replaced(average: real, period: int, before: real, move: real) {
    average * period as real == (period - 1) as real * before + move
  }

  lemma SmoothIs(average: real, period: int, x: real)
    requires period >= 1
    ensures Replaced(Smooth(average, period, x), period, average, x)
  {
    QuotientTimes(average * (period - 1) as real + x, period as real);
  }

  /** The average behind the index starts as the mean of the first `period` moves. */
  lemma AverageStarts(bars: seq<Bar>, up: bool, period: int)
    requires 1 <= period < |bars|
    ensures Average(bars, up, period, period) * period as real == MoveSum(bars, up, period)
  {
    MovesAre(bars, up, period);
    QuotientTimes(Moves(bars, up, period), period as real);
  }

  lemma MoveAgrees(bars: seq<Bar>, up: bool, i: nat)
    requires 1 <= i < |bars|
    ensures Move(bars, up, i) == MoveIs(bars, up, i)
  {}

  /** Then each move replaces one of its `period` parts. */
  lemma AverageGoesOn(bars: seq<Bar>, up: bool, period: int, i: nat)
    requires 1 <= period < i < |bars|
    ensures Replaced(Average(bars, up, period, i), period, Average(bars, up, period, i - 1), MoveIs(bars, up, i))
  {
    MoveAgrees(bars, up, i);
    SmoothIs(Average(bars, up, period, i - 1), period, Move(bars, up, i));
  }

  /** The index is the share of gains in gains and losses, in hundredths, and 100 without losses. */
  lemma RsiIs(bars: seq<Bar>, period: int, i: nat)
    requires 1 <= period <= i < |bars|
    ensures var (gain, loss) := (Average(bars, true, period, i), Average(bars, false, period, i));
      && gain >= 0.0 && loss >= 0.0
      && if loss == 0.0 then RsiAt(bars, period, i) == 100.0
         else RsiAt(bars, period, i) * (gain + loss) == 100.0 * gain
  {
    AverageNonNegative(bars, true, period, i);
    AverageNonNegative(bars, false, period, i);
    var gain, loss := Average(bars, true, period, i), Average(bars, false, period, i);
    if loss > 0.0 { ShareOf(gain, loss); }
  }

  lemma ShareOf(gain: real, loss: real)
    requires gain >= 0.0 && loss > 0.0
    ensures Rsi(gain, loss) * (gain + loss) == 100.0 * gain
  {
    InitialRsi(gain, loss);
    var rs := gain / loss;
    var q := 100.0 / (1.0 + rs);
    QuotientTimes(gain, loss);
    QuotientTimes(100.0, 1.0 + rs);
    assert q * (gain + loss) == q * (1.0 + rs) * loss;
  }

  lemma Inverse(q: real, rs: real)
    requires rs >= 0.0 && q * (1.0 + rs) == 100.0
    ensures 0.0 < q <= 100.0 && (q == 100.0 <==> rs == 0.0)
  {
    if q <= 0.0 { Scale(q, 0.0, 1.0 + rs); }
    Scale(0.0, rs, q);
    assert q + q * rs == 100.0;
    if rs > 0.0 { Grows(0.0, rs, q); }
  }

  lemma SmoothZeroIff(average: real, period: int, x: real)
    requires period >= 2 && average >= 0.0 && x >= 0.0
    ensures Smooth(average, period, x) == 0.0 <==> average == 0.0 && x == 0.0
  {
    Mean(average, (period - 1) as real, x, period as real);
  }

  lemma RatioZeroIff(x: real, n: real)
    requires n > 0.0
    ensures x / n == 0.0 <==> x == 0.0
  {
    assert x / n * n == x;
  }

  /** The bar after which moves still count at bar `i`: a period of one forgets all but the last. */
  ghost function Since(period: int, i: nat): nat
    requires 1 <= period <= i
  {
    if period == 1 then i - 1 else 0
  }

  /** An average is zero exactly when nothing it still remembers has moved that way. */
  lemma {:induction false} AverageZeroIff(bars: seq<Bar>, up: bool, period: int, i: nat)
    requires 1 <= period <= i < |bars|
    ensures Average(bars, up, period, i) == 0.0 <==> forall j | Since(period, i) < j <= i :: Move(bars, up, j) == 0.0
    decreases i
  {
    if i == period {
      MovesSign(bars, up, period);
      RatioZeroIff(Moves(bars, up, period), period as real);
    } else if period == 1 {
      assert Average(bars, up, period, i) == Move(bars, up, i);
    } else {
      AverageZeroIff(bars, up, period, i - 1);
      AverageNonNegative(bars, up, period, i - 1);
      SmoothZeroIff(Average(bars, up, period, i - 1), period, Move(bars, up, i));
    }
  }

  /** No close after bar `from` up to bar `i` is below, or for `up` above, the one before it. */
  ghost predicate NeverMoves(bars: seq<Bar>, up: bool, from: nat, i: nat)
    requires i < |bars|
  {
    forall j | from <= j < i :: if up then bars[j + 1].close <= bars[j].close else bars[j].close <= bars[j + 1].close
  }

  lemma NeverMovesIff(bars: seq<Bar>, up: bool, from: nat, i: nat)
    requires i < |bars|
    ensures NeverMoves(bars, up, from, i) <==> forall j | from < j <= i :: Move(bars, up, j) == 0.0
  {
    if NeverMoves(bars, up, from, i) {
      forall j | from < j <= i
        ensures Move(bars, up, j) == 0.0
      {
        var k := j - 1;
        assert from <= k < i && bars[k + 1] == bars[j];
      }
    }
    if forall j | from < j <= i :: Move(bars, up, j) == 0.0 {
      forall j | from <= j < i
        ensures if up then bars[j + 1].close <= bars[j].close else bars[j].close <= bars[j + 1].close
      {
        assert Move(bars, up, j + 1) == 0.0;
      }
    }
  }

  /**
   The index is 100 exactly when no close has fallen, and 0 exactly when none has risen and some
   has fallen: of all closes so far, or with a period of one, of the last two.
   */
  lemma RsiExtremes(bars: seq<Bar>, period: int, i: nat)
    requires 1 <= period <= i < |bars|
    ensures 0.0 <= RsiAt(bars, period, i) <= 100.0
    ensures RsiAt(bars, period, i) == 100.0 <==> NeverMoves(bars, false, Since(period, i), i)
    ensures RsiAt(bars, period, i) == 0.0 <==>
      NeverMoves(bars, true, Since(period, i), i) && !NeverMoves(bars, false, Since(period, i), i)
  {
    AverageNonNegative(bars, true, period, i);
    AverageNonNegative(bars, false, period, i);
    AverageZeroIff(bars, true, period, i);
    AverageZeroIff(bars, false, period, i);
    NeverMovesIff(bars, true, Since(period, i), i);
    NeverMovesIff(bars, false, Since(period, i), i);
    RsiRange(Average(bars, true, period, i), Average(bars, false, period, i));
  }

  // ---- The nearest bar ----

  function Distance(a: int, b: int): (d: nat)
    ensures d == a - b || d == b - a
  {
    if a < b then b - a else a - b
  }

  ghost predicate InOrder(bars: seq<Bar>) {
    forall i, j | 0 <= i < j < |bars| :: bars[i].time <= bars[j].time
  }

  /** Over bars in time order: no bar is nearer, and of bars equally near it is an earliest. */
  method FindNearestBar(bars: seq<Bar>, time: int) returns (r: Option<Bar>)
    requires InOrder(bars)
    ensures r.None? <==> |bars| == 0
    ensures r.Some? ==> r.value in bars && forall b | b in bars ::
      Distance(r.value.time, time) <= Distance(b.time, time)
      && (Distance(r.value.time, time) == Distance(b.time, time) ==> r.value.time <= b.time)
  {
    if |bars| == 0 { return None; }
    var lo, hi := 0, |bars| - 1;
    while lo < hi
      invariant 0 <= lo <= hi < |bars|
      invariant forall j | 0 <= j < lo :: bars[j].time < time
      invariant hi < |bars| - 1 ==> bars[hi].time >= time
    {
      var mid := (lo + hi) / 2;
      if bars[mid].time < time { lo := mid + 1; } else { hi := mid; }
    }
    if lo == 0 { return Some(bars[0]); }
    var prevDist := Distance(bars[lo - 1].time, time);
    var currDist := Distance(bars[lo].time, time);
    return Some(if prevDist <= currDist then bars[lo - 1] else bars[lo]);
  }
}
