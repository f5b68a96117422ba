/**
 The live chart cache: bars per symbol in time order, updated by polled rows, live one-minute
 bars folded into timeframe buckets, and indicator overlays.
 */
module ChartCache {
  import opened Wrappers

  datatype Indicators = Indicators(ema9: Option<real>, ema21: Option<real>, ema50: Option<real>,
                                   ema200: Option<real>, avwaps: Option<map<string, real>>)

  datatype Bar = Bar(time: int, open: real, high: real, low: real, close: real, volume: real, ind: Indicators)

  /** Minutes per timeframe; an unknown one counts as a minute. */
  function Minutes(tf: string): int {
    match tf
    case "5m" => 5
    case "15m" => 15
    case "1h" => 60
    case "1d" => 1440
    case _ => 1
  }

  function BucketStart(ts: int, tf: string): int {
    var secs := Minutes(tf) * 60;
    ts / secs * secs
  }

  /** The length of a timeframe in seconds. */
  ghost function Seconds(tf: string): int {
    if tf == "5m" then 300
    else if tf == "15m" then 900
    else if tf == "1h" then 3600
    else if tf == "1d" then 86400
    else 60
  }

  /** Time `ts` lies in the bucket that begins at `t`. */
  ghost predicate Covers(t: int, ts: int, tf: string) {
    t % Seconds(tf) == 0 && t <= ts < t + Seconds(tf)
  }

  lemma BucketIff(t: int, ts: int, tf: string)
    ensures t == BucketStart(ts, tf) <==> Covers(t, ts, tf)
  {
    var secs := Seconds(tf);
    assert Minutes(tf) * 60 == secs;
    if Covers(t, ts, tf) { SameMultiple(t, ts, secs); }
  }

  lemma SameMultiple(t: int, ts: int, secs: int)
    requires secs > 0 && t % secs == 0 && t <= ts < t + secs
    ensures ts / secs * secs == t
  {
    var q, r := t / secs, ts / secs;
    assert t == q * secs && r * secs <= ts < r * secs + secs;
    if r < q { Gap(r, q, secs); }
    if q < r { Gap(q, r, secs); }
  }

  lemma Gap(a: int, b: int, k: int)
    requires a < b && k > 0
    ensures a * k + k <= b * k
  {
    var m := b - a - 1;
    assert b * k == a * k + k + m * k;
    NotNegative(m, k);
  }

  lemma NotNegative(m: int, k: int)
    requires m >= 0 && k > 0
    ensures m * k >= 0
  {}

  ghost predicate Sorted(bars: seq<Bar>) {
    forall i, j | 0 <= i < j < |bars| :: bars[i].time < bars[j].time
  }

  // ---- Upsert ----

  function FindLastIndex(bars: seq<Bar>, t: int): (r: Option<nat>)
    ensures r.Some? ==> r.value < |bars| && bars[r.value].time == t
    ensures r.None? ==> forall b | b in bars :: b.time != t
  {
    if bars == [] then None
    else if bars[|bars| - 1].time == t then Some(|bars| - 1)
    else FindLastIndex(bars[..|bars| - 1], t)
  }

  function FindFirstAfter(bars: seq<Bar>, t: int): (r: Option<nat>)
    ensures r.Some? ==> r.value < |bars| && t < bars[r.value].time && forall i | 0 <= i < r.value :: bars[i].time <= t
    ensures r.None? ==> forall b | b in bars :: b.time <= t
  {
    if bars == [] then None
    else
      var r := FindFirstAfter(bars[..|bars| - 1], t);
      if r.Some? then r else if t < bars[|bars| - 1].time then Some(|bars| - 1) else None
  }

  function UpsertBar(bars: seq<Bar>, bar: Bar): seq<Bar> {
    var idx := FindLastIndex(bars, bar.time);
    if idx.Some? then bars[idx.value := bar]
    else
      var at := FindFirstAfter(bars, bar.time);
      if at.None? then bars + [bar] else bars[..at.value] + [bar] + bars[at.value..]
  }

  function Lookup(bars: seq<Bar>, t: int): (r: Option<Bar>)
    ensures r.Some? ==> r.value in bars && r.value.time == t
    ensures r.None? ==> forall b | b in bars :: b.time != t
  {
    var idx := FindLastIndex(bars, t);
    if idx.Some? then Some(bars[idx.value]) else None
  }

  /** In a sorted cache a bar is what is looked up at its time. */
  lemma LookupIs(bars: seq<Bar>, b: Bar)
    requires Sorted(bars) && b in bars
    ensures Lookup(bars, b.time) == Some(b)
  {
    var i :| 0 <= i < |bars| && bars[i] == b;
    var j :| 0 <= j < |bars| && Lookup(bars, b.time) == Some(bars[j]);
  }

  /** Upsert keeps the cache strictly sorted and is the map update at the bar's time. */
  lemma UpsertRefinesUpdate(bars: seq<Bar>, bar: Bar)
    requires Sorted(bars)
    ensures Sorted(UpsertBar(bars, bar))
    ensures forall t :: Lookup(UpsertBar(bars, bar), t) == if t == bar.time then Some(bar) else Lookup(bars, t)
    ensures |UpsertBar(bars, bar)| == |bars| + if Lookup(bars, bar.time).Some? then 0 else 1
  {
    UpsertSorted(bars, bar);
    var r := UpsertBar(bars, bar);
    UpsertMembers(bars, bar);
    LookupIs(r, bar);
    forall t | t != bar.time
      ensures Lookup(r, t) == Lookup(bars, t)
    {
      if Lookup(bars, t).Some? {
        LookupIs(r, Lookup(bars, t).value);
      } else if Lookup(r, t).Some? {
        LookupIs(bars, Lookup(r, t).value);
      }
    }
  }

  lemma UpsertSorted(bars: seq<Bar>, bar: Bar)
    requires Sorted(bars)
    ensures Sorted(UpsertBar(bars, bar))
  {
    var at := FindFirstAfter(bars, bar.time);
    if FindLastIndex(bars, bar.time).None? {
      assert forall i | 0 <= i < |bars| :: bars[i] in bars && bars[i].time != bar.time;
    }
  }

  lemma UpsertMembers(bars: seq<Bar>, bar: Bar)
    requires Sorted(bars)
    ensures forall b :: b in UpsertBar(bars, bar) <==> b == bar || (b in bars && b.time != bar.time)
  {
    var idx, r := FindLastIndex(bars, bar.time), UpsertBar(bars, bar);
    if idx.Some? {
      assert r[idx.value] == bar;
      forall b | b in bars && b.time != bar.time
        ensures b in r
      {
        var i :| 0 <= i < |bars| && bars[i] == b;
        assert r[i] == b;
      }
    } else {
      var at := FindFirstAfter(bars, bar.time);
      if at.Some? { assert bars == bars[..at.value] + bars[at.value..]; }
    }
  }

  // ---- Folding live bars into buckets ----

  function Or<T>(a: Option<T>, b: Option<T>): Option<T> {
    if a.Some? then a else b
  }

  function Fresher(live: Indicators, kept: Indicators): Indicators {
    Indicators(Or(live.ema9, kept.ema9), Or(live.ema21, kept.ema21), Or(live.ema50, kept.ema50),
               Or(live.ema200, kept.ema200), Or(live.avwaps, kept.avwaps))
  }

  function Max(a: real, b: real): real {
    if a < b then b else a
  }

  function Min(a: real, b: real): real {
    if b < a then b else a
  }

  function MergeInto(existing: Bar, live: Bar): Bar {
    Bar(existing.time, existing.open, Max(existing.high, live.high), Min(existing.low, live.low), live.close,
        existing.volume + live.volume, Fresher(live.ind, existing.ind))
  }

  function Merged(existing: Option<Bar>, live: Bar, bucket: int): Bar {
    if existing.Some? then MergeInto(existing.value, live) else live.(time := bucket)
  }

  function MergeLiveBar(bars: seq<Bar>, live: Bar, tf: string): seq<Bar> {
    var bucket := BucketStart(live.time, tf);
    var existing := Lookup(bars, bucket);
    UpsertBar(bars, Merged(existing, live, bucket))
  }

  ghost function FoldOnto(bars: seq<Bar>, live: seq<Bar>, tf: string): seq<Bar> {
    if live == [] then bars else MergeLiveBar(FoldOnto(bars, live[..|live| - 1], tf), live[|live| - 1], tf)
  }

  ghost function Fold(live: seq<Bar>, tf: string): seq<Bar> {
    FoldOnto([], live, tf)
  }

  /** The live bars of one bucket, in arrival order. */
  ghost function Group(live: seq<Bar>, tf: string, bucket: int): seq<Bar> {
    if live == [] then []
    else
      var b := live[|live| - 1];
      var g := Group(live[..|live| - 1], tf, bucket);
      if BucketStart(b.time, tf) == bucket then g + [b] else g
  }

  ghost function Volume(g: seq<Bar>): real {
    if g == [] then 0.0 else Volume(g[..|g| - 1]) + g[|g| - 1].volume
  }

  /** The latest indicator values, each from the last bar that carries it. */
  ghost function LatestIndicators(g: seq<Bar>): Indicators {
    if g == [] then Indicators(None, None, None, None, None)
    else Fresher(g[|g| - 1].ind, LatestIndicators(g[..|g| - 1]))
  }

  /** `c` is the candle of the bars `g`: first open, last close, extremes and total volume. */
  ghost predicate IsCandle(c: Bar, g: seq<Bar>) {
    && g != []
    && c.open == g[0].open && c.close == g[|g| - 1].close
    && c.volume == Volume(g) && c.ind == LatestIndicators(g)
    && (forall b | b in g :: b.high <= c.high) && (exists b | b in g :: b.high == c.high)
    && (forall b | b in g :: c.low <= b.low) && (exists b | b in g :: b.low == c.low)
  }

  /** `r` is the value of the last bar of `g` that has one. */
  ghost predicate IsLatest<T>(g: seq<Bar>, value: Bar -> Option<T>, r: Option<T>) {
    match r
    case None => forall i | 0 <= i < |g| :: value(g[i]).None?
    case Some(_) => exists i :: 0 <= i < |g| && value(g[i]) == r && forall j | i < j < |g| :: value(g[j]).None?
  }

  lemma LatestNext<T>(g: seq<Bar>, b: Bar, value: Bar -> Option<T>, r: Option<T>)
    requires IsLatest(g, value, r)
    ensures IsLatest(g + [b], value, if value(b).Some? then value(b) else r)
  {
    var h := g + [b];
    if value(b).Some? {
      assert h[|g|] == b;
    } else if r.Some? {
      var i :| 0 <= i < |g| && value(g[i]) == r && forall j | i < j < |g| :: value(g[j]).None?;
      assert value(h[i]) == r;
    }
  }

  ghost predicate AllLatest(g: seq<Bar>, l: Indicators) {
    && IsLatest(g, (b: Bar) => b.ind.ema9, l.ema9) && IsLatest(g, (b: Bar) => b.ind.ema21, l.ema21)
    && IsLatest(g, (b: Bar) => b.ind.ema50, l.ema50) && IsLatest(g, (b: Bar) => b.ind.ema200, l.ema200)
    && IsLatest(g, (b: Bar) => b.ind.avwaps, l.avwaps)
  }

  /** A candle's indicators are, one by one, those of the last of its bars that carries them. */
  lemma {:induction false} LatestAre(g: seq<Bar>)
    ensures AllLatest(g, LatestIndicators(g))
  {
    if g != [] {
      var init, b := g[..|g| - 1], g[|g| - 1];
      LatestAre(init);
      assert g == init + [b];
      var l := LatestIndicators(init);
      LatestNext(init, b, (x: Bar) => x.ind.ema9, l.ema9);
      LatestNext(init, b, (x: Bar) => x.ind.ema21, l.ema21);
      LatestNext(init, b, (x: Bar) => x.ind.ema50, l.ema50);
      LatestNext(init, b, (x: Bar) => x.ind.ema200, l.ema200);
      LatestNext(init, b, (x: Bar) => x.ind.avwaps, l.avwaps);
    }
  }

  lemma CandleUnique(c: Bar, d: Bar, g: seq<Bar>)
    requires IsCandle(c, g) && IsCandle(d, g) && c.time == d.time
    ensures c == d
  {}

  lemma FirstCandle(live: Bar, t: int)
    ensures IsCandle(live.(time := t), [live])
  {
    assert [live][..0] == [];
    assert live in [live];
    assert Volume([live]) == live.volume;
    assert LatestIndicators([live]) == live.ind;
  }

  lemma NextCandle(c: Bar, g: seq<Bar>, live: Bar)
    requires IsCandle(c, g)
    ensures IsCandle(MergeInto(c, live), g + [live])
  {
    var h := g + [live];
    assert h[..|g|] == g && live in h;
    var hi :| hi in g && hi.high == c.high;
    var lo :| lo in g && lo.low == c.low;
    assert hi in h && lo in h;
  }

  ghost predicate HoldsCandle(c: Option<Bar>, g: seq<Bar>) {
    if c.None? then g == [] else IsCandle(c.value, g)
  }

  /** The cache holds, for every bucket, exactly the candle of the bucket's bars. */
  ghost predicate Grouped(bars: seq<Bar>, live: seq<Bar>, tf: string) {
    Sorted(bars) && forall t :: HoldsCandle(Lookup(bars, t), Group(live, tf, t))
  }

  /**
   Streaming equals batch: folding any list of live bars, in any order and with repeats, leaves a
   strictly sorted cache with one candle per bucket, the candle of the bars that arrived for it.
   */
  lemma {:induction false} FoldIsGrouping(live: seq<Bar>, tf: string)
    ensures Grouped(Fold(live, tf), live, tf)
  {
    if live != [] {
      var init, b := live[..|live| - 1], live[|live| - 1];
      FoldIsGrouping(init, tf);
      MergeKeepsGrouped(Fold(init, tf), init, b, tf);
      assert init + [b] == live;
    }
  }

  lemma GroupSnoc(live: seq<Bar>, b: Bar, tf: string, t: int)
    ensures Group(live + [b], tf, t) ==
      if BucketStart(b.time, tf) == t then Group(live, tf, t) + [b] else Group(live, tf, t)
  {
    assert (live + [b])[..|live|] == live;
  }

  lemma MergeRefinesUpdate(bars: seq<Bar>, live: Bar, tf: string)
    requires Sorted(bars)
    ensures var (r, bucket) := (MergeLiveBar(bars, live, tf), BucketStart(live.time, tf));
      && Sorted(r)
      && forall t :: Lookup(r, t) == if t == bucket then Some(Merged(Lookup(bars, t), live, t)) else Lookup(bars, t)
  {
    var bucket := BucketStart(live.time, tf);
    UpsertRefinesUpdate(bars, Merged(Lookup(bars, bucket), live, bucket));
  }

  lemma MergedIsCandle(c: Option<Bar>, g: seq<Bar>, live: Bar, bucket: int)
    requires HoldsCandle(c, g)
    ensures IsCandle(Merged(c, live, bucket), g + [live])
  {
    if c.Some? {
      NextCandle(c.value, g, live);
    } else {
      FirstCandle(live, bucket);
      assert g + [live] == [live];
    }
  }

  lemma MergeKeepsGrouped(bars: seq<Bar>, live: seq<Bar>, b: Bar, tf: string)
    requires Grouped(bars, live, tf)
    ensures Grouped(MergeLiveBar(bars, b, tf), live + [b], tf)
  {
    MergeRefinesUpdate(bars, b, tf);
    forall t
      ensures HoldsCandle(Lookup(MergeLiveBar(bars, b, tf), t), Group(live + [b], tf, t))
    {
      GroupSnoc(live, b, tf, t);
      assert HoldsCandle(Lookup(bars, t), Group(live, tf, t));
      MergedIsCandle(Lookup(bars, t), Group(live, tf, t), b, t);
    }
  }

  /** The bars of a bucket are, in arrival order, exactly those whose time it covers. */
  lemma {:induction false} GroupIs(live: seq<Bar>, tf: string, t: int) returns (at: seq<nat>)
    ensures |at| == |Group(live, tf, t)|
    ensures forall i, j | 0 <= i < j < |at| :: at[i] < at[j]
    ensures forall i | 0 <= i < |at| :: at[i] < |live| && Group(live, tf, t)[i] == live[at[i]]
    ensures forall k :: k in at <==> 0 <= k < |live| && Covers(t, live[k].time, tf)
  {
    at := [];
    if live != [] {
      var init, b := live[..|live| - 1], live[|live| - 1];
      at := GroupIs(init, tf, t);
      BucketIff(t, b.time, tf);
      if BucketStart(b.time, tf) == t { at := at + [|init|]; }
    }
  }

  /** A bucket of the timeframe has a candle exactly when some bar's time lies in it; nothing else is in the cache. */
  lemma CandlesAreBuckets(live: seq<Bar>, tf: string, t: int)
    ensures Lookup(Fold(live, tf), t).Some? <==> exists k :: 0 <= k < |live| && Covers(t, live[k].time, tf)
    ensures Lookup(Fold(live, tf), t).Some? ==> IsCandle(Lookup(Fold(live, tf), t).value, Group(live, tf, t))
  {
    FoldIsGrouping(live, tf);
    assert HoldsCandle(Lookup(Fold(live, tf), t), Group(live, tf, t));
    var at := GroupIs(live, tf, t);
    if Group(live, tf, t) != [] { assert at[0] in at; }
  }

  lemma {:induction false} GroupMembers(live: seq<Bar>, tf: string, bucket: int)
    ensures forall b :: b in Group(live, tf, bucket) <==> b in live && BucketStart(b.time, tf) == bucket
  {
    if live != [] {
      GroupMembers(live[..|live| - 1], tf, bucket);
      assert live == live[..|live| - 1] + [live[|live| - 1]];
    }
  }

  lemma {:induction false} GroupSorted(live: seq<Bar>, tf: string, bucket: int)
    requires Sorted(live)
    ensures Sorted(Group(live, tf, bucket))
  {
    if live != [] {
      var init, last := live[..|live| - 1], live[|live| - 1];
      GroupSorted(init, tf, bucket);
      GroupMembers(init, tf, bucket);
      var g := Group(init, tf, bucket);
      forall i | 0 <= i < |g|
        ensures g[i].time < last.time
      {
        assert g[i] in g && g[i] in init;
      }
    }
  }

  /** When bars arrive in time order, a candle's open and close are those of its earliest and latest bar. */
  lemma {:induction false} GroupInTimeOrder(live: seq<Bar>, tf: string, bucket: int)
    requires Sorted(live)
    ensures Sorted(Group(live, tf, bucket))
    ensures forall b :: b in Group(live, tf, bucket) <==> b in live && BucketStart(b.time, tf) == bucket
  {
    GroupSorted(live, tf, bucket);
    GroupMembers(live, tf, bucket);
  }

  /** Reordering or repeating the bars changes no bucket's existence, high or low. */
  lemma HighLowIgnoreOrder(a: seq<Bar>, b: seq<Bar>, tf: string, t: int)
    requires forall x :: x in a <==> x in b
    ensures var (c, d) := (Lookup(Fold(a, tf), t), Lookup(Fold(b, tf), t));
      && (c.Some? <==> d.Some?)
      && (c.Some? ==> c.value.high == d.value.high && c.value.low == d.value.low)
  {
    FoldIsGrouping(a, tf);
    FoldIsGrouping(b, tf);
    GroupMembers(a, tf, t);
    GroupMembers(b, tf, t);
    var g, h := Group(a, tf, t), Group(b, tf, t);
    assert forall x :: x in g <==> x in h;
    if g != [] { assert g[0] in h; }
    if h != [] { assert h[0] in g; }
  }

  // ---- Merges that change nothing ----

  lemma UpsertPresent(bars: seq<Bar>, bar: Bar)
    requires Lookup(bars, bar.time) == Some(bar)
    ensures UpsertBar(bars, bar) == bars
  {}

  /** The bucket's bar `e` has taken `live` in already. */
  ghost predicate Absorbed(e: Bar, live: Bar) {
    && e.close == live.close && live.high <= e.high && e.low <= live.low && live.volume == 0.0
    && Fresher(live.ind, e.ind) == e.ind
  }

  /** Merging a bar changes nothing exactly when its bucket has taken it in and it adds no volume. */
  lemma MergeChangesNothingIff(bars: seq<Bar>, live: Bar, tf: string)
    requires Sorted(bars)
    ensures var e := Lookup(bars, BucketStart(live.time, tf));
      MergeLiveBar(bars, live, tf) == bars <==> e.Some? && Absorbed(e.value, live)
  {
    var bucket := BucketStart(live.time, tf);
    var e := Lookup(bars, bucket);
    var merged := Merged(e, live, bucket);
    UpsertRefinesUpdate(bars, merged);
    if e == Some(merged) { UpsertPresent(bars, merged); }
  }

  /** The entry a bucket is left with after the bars `g`. */
  ghost function MergeAll(e: Option<Bar>, g: seq<Bar>, bucket: int): Option<Bar> {
    if g == [] then e else Some(Merged(MergeAll(e, g[..|g| - 1], bucket), g[|g| - 1], bucket))
  }

  lemma MergeAllSnoc(e: Option<Bar>, g: seq<Bar>, b: Bar, bucket: int)
    ensures MergeAll(e, g + [b], bucket) == Some(Merged(MergeAll(e, g, bucket), b, bucket))
  {
    assert (g + [b])[..|g|] == g;
  }

  /** Folding bars onto a cache is merging each bucket's bars onto its entry. */
  lemma {:induction false} FoldOntoIs(bars: seq<Bar>, live: seq<Bar>, tf: string, t: int)
    requires Sorted(bars)
    ensures Sorted(FoldOnto(bars, live, tf))
    ensures Lookup(FoldOnto(bars, live, tf), t) == MergeAll(Lookup(bars, t), Group(live, tf, t), t)
  {
    if live != [] {
      var init, b := live[..|live| - 1], live[|live| - 1];
      FoldOntoIs(bars, init, tf, t);
      MergeRefinesUpdate(FoldOnto(bars, init, tf), b, tf);
      MergeAllSnoc(Lookup(bars, t), Group(init, tf, t), b, t);
    }
  }

  /** No bar of `g` reaches beyond the high or the low of `e`. */
  ghost predicate Within(g: seq<Bar>, e: Bar) {
    forall b | b in g :: b.high <= e.high && e.low <= b.low
  }

  /** `m` is `e` after the bars `g`. */
  ghost predicate Extends(m: Bar, e: Bar, g: seq<Bar>) {
    && m.time == e.time && m.open == e.open && m.volume == e.volume + Volume(g)
    && m.close == (if g == [] then e.close else g[|g| - 1].close)
    && m.ind == Fresher(LatestIndicators(g), e.ind)
    && Within(g, m) && e.high <= m.high && m.low <= e.low
    && (Within(g, e) ==> m.high == e.high && m.low == e.low)
  }

  lemma ExtendsNext(m: Bar, e: Bar, g: seq<Bar>, b: Bar)
    requires Extends(m, e, g)
    ensures Extends(MergeInto(m, b), e, g + [b])
  {
    var h := g + [b];
    assert h[..|g|] == g && b in h && forall x | x in g :: x in h;
    assert Within(h, e) ==> Within(g, e);
  }

  lemma {:induction false} MergeAllExtends(e: Bar, g: seq<Bar>, bucket: int)
    ensures MergeAll(Some(e), g, bucket).Some? && Extends(MergeAll(Some(e), g, bucket).value, e, g)
  {
    if g != [] {
      var init, b := g[..|g| - 1], g[|g| - 1];
      MergeAllExtends(e, init, bucket);
      assert g == init + [b];
      ExtendsNext(MergeAll(Some(e), init, bucket).value, e, init, b);
    }
  }

  /** The entry `e` of a bucket has taken in the bars `g`, which add no volume. */
  ghost predicate Settled(e: Option<Bar>, g: seq<Bar>) {
    g == [] ||
    (&& e.Some? && e.value.close == g[|g| - 1].close && Volume(g) == 0.0 && Within(g, e.value)
     && Fresher(LatestIndicators(g), e.value.ind) == e.value.ind)
  }

  lemma MergeAllIs(e: Option<Bar>, g: seq<Bar>, bucket: int)
    ensures MergeAll(e, g, bucket) == e <==> Settled(e, g)
  {
    if e.Some? { MergeAllExtends(e.value, g, bucket); }
  }

  ghost predicate SameMembers(a: seq<Bar>, b: seq<Bar>) {
    forall x :: x in a <==> x in b
  }

  lemma InitMembers(bars: seq<Bar>, b: Bar)
    requires Sorted(bars) && bars != []
    ensures b in bars[..|bars| - 1] <==> b in bars && b != bars[|bars| - 1]
  {
    assert bars == bars[..|bars| - 1] + [bars[|bars| - 1]];
  }

  lemma SameLast(a: seq<Bar>, b: seq<Bar>)
    requires Sorted(a) && Sorted(b) && SameMembers(a, b) && a != [] && b != []
    ensures a[|a| - 1] == b[|b| - 1] && SameMembers(a[..|a| - 1], b[..|b| - 1])
  {
    var x, y := a[|a| - 1], b[|b| - 1];
    assert x in b && y in a;
    LookupIs(a, x);
    LookupIs(a, y);
    var a', b' := a[..|a| - 1], b[..|b| - 1];
    forall z
      ensures z in a' <==> z in b'
    {
      InitMembers(a, z);
      InitMembers(b, z);
    }
  }

  lemma MembersToo(a: seq<Bar>, b: seq<Bar>)
    requires SameMembers(a, b) && a != []
    ensures b != []
  {
    assert a[0] in b;
  }

  /** Sorted caches with the same bars are the same. */
  lemma {:induction false} SameBars(a: seq<Bar>, b: seq<Bar>)
    requires Sorted(a) && Sorted(b) && SameMembers(a, b)
    ensures a == b
  {
    if a != [] { MembersToo(a, b); }
    if b != [] { MembersToo(b, a); }
    if a != [] {
      SameLast(a, b);
      SameBars(a[..|a| - 1], b[..|b| - 1]);
      assert a == a[..|a| - 1] + [a[|a| - 1]] && b == b[..|b| - 1] + [b[|b| - 1]];
    }
  }

  lemma SameLookups(a: seq<Bar>, b: seq<Bar>)
    requires Sorted(a) && Sorted(b) && forall t :: Lookup(a, t) == Lookup(b, t)
    ensures a == b
  {
    forall x
      ensures x in a <==> x in b
    {
      assert Lookup(a, x.time) == Lookup(b, x.time);
      if x in a { LookupIs(a, x); }
      if x in b { LookupIs(b, x); }
    }
    SameBars(a, b);
  }

  /**
   Fetching rows again: however the cache came about, folding them onto it gives it back exactly
   when every bucket that has rows has an entry with its last row's close and latest indicators,
   no row widens it, and its rows add up to no volume.
   */
  lemma RefetchChangesNothingIff(bars: seq<Bar>, rows: seq<Bar>, tf: string)
    requires Sorted(bars)
    ensures FoldOnto(bars, rows, tf) == bars <==> forall t :: Settled(Lookup(bars, t), Group(rows, tf, t))
  {
    var r := FoldOnto(bars, rows, tf);
    forall t
      ensures Lookup(r, t) == Lookup(bars, t) <==> Settled(Lookup(bars, t), Group(rows, tf, t))
    {
      FoldOntoIs(bars, rows, tf, t);
      MergeAllIs(Lookup(bars, t), Group(rows, tf, t), t);
    }
    FoldOntoIs(bars, rows, tf, 0);
    if forall t :: Settled(Lookup(bars, t), Group(rows, tf, t)) { SameLookups(r, bars); }
  }

  lemma {:induction false} MergeAllFresh(g: seq<Bar>, bucket: int)
    ensures HoldsCandle(MergeAll(None, g, bucket), g)
  {
    if g != [] {
      var init, b := g[..|g| - 1], g[|g| - 1];
      MergeAllFresh(init, bucket);
      MergedIsCandle(MergeAll(None, init, bucket), init, b, bucket);
      assert g == init + [b];
    }
  }

  /** What some bars have just made of an entry they would change in volume only. */
  lemma TakenIn(e: Option<Bar>, g: seq<Bar>, bucket: int)
    ensures Settled(MergeAll(e, g, bucket), g) <==> Volume(g) == 0.0
  {
    if e.Some? {
      MergeAllExtends(e.value, g, bucket);
    } else {
      MergeAllFresh(g, bucket);
    }
  }

  /** The same fetch twice running is harmless exactly when the rows of no bucket add up to any volume. */
  lemma RefetchIsHarmlessIff(bars: seq<Bar>, rows: seq<Bar>, tf: string)
    requires Sorted(bars)
    ensures var once := FoldOnto(bars, rows, tf);
      FoldOnto(once, rows, tf) == once <==> forall t :: Volume(Group(rows, tf, t)) == 0.0
  {
    var once := FoldOnto(bars, rows, tf);
    forall t
      ensures Settled(Lookup(once, t), Group(rows, tf, t)) <==> Volume(Group(rows, tf, t)) == 0.0
    {
      FoldOntoIs(bars, rows, tf, t);
      TakenIn(Lookup(bars, t), Group(rows, tf, t), t);
    }
    FoldOntoIs(bars, rows, tf, 0);
    RefetchChangesNothingIff(once, rows, tf);
  }

  lemma AbsorbedAtOnce(e: Option<Bar>, live: Bar, bucket: int)
    ensures Absorbed(Merged(e, live, bucket), live) <==> live.volume == 0.0
  {}

  /** Merging a bar directly again is harmless exactly when it carries no volume. */
  lemma RepeatIsHarmlessIff(bars: seq<Bar>, live: Bar, tf: string)
    requires Sorted(bars)
    ensures var once := MergeLiveBar(bars, live, tf);
      MergeLiveBar(once, live, tf) == once <==> live.volume == 0.0
  {
    var once, bucket := MergeLiveBar(bars, live, tf), BucketStart(live.time, tf);
    MergeRefinesUpdate(bars, live, tf);
    assert Lookup(once, bucket) == Some(Merged(Lookup(bars, bucket), live, bucket));
    AbsorbedAtOnce(Lookup(bars, bucket), live, bucket);
    MergeChangesNothingIff(once, live, tf);
  }

  /** A repeat that comes after another bar of its bucket is harmless only if that bar closed where it did. */
  lemma LateRepeat(bars: seq<Bar>, live: Bar, later: Bar, tf: string)
    requires Sorted(bars) && BucketStart(later.time, tf) == BucketStart(live.time, tf)
    requires later.close != live.close
    ensures var seen := MergeLiveBar(MergeLiveBar(bars, live, tf), later, tf);
      MergeLiveBar(seen, live, tf) != seen
  {
    var once := MergeLiveBar(bars, live, tf);
    var seen := MergeLiveBar(once, later, tf);
    MergeRefinesUpdate(bars, live, tf);
    MergeRefinesUpdate(once, later, tf);
    MergeChangesNothingIff(seen, live, tf);
  }

  /** Off the minute the two write at different times, so both must find there what they would write. */
  lemma OffMinuteMergeIsUpsertIff(bars: seq<Bar>, live: Bar)
    requires Sorted(bars) && live.time % 60 != 0
    ensures MergeLiveBar(bars, live, "1m") == UpsertBar(bars, live) <==>
      && Lookup(bars, live.time) == Some(live)
      && Lookup(bars, live.time / 60 * 60) == Some(Merged(Lookup(bars, live.time / 60 * 60), live, live.time / 60 * 60))
  {
    var bucket := BucketStart(live.time, "1m");
    assert bucket == live.time / 60 * 60 != live.time;
    var merged := Merged(Lookup(bars, bucket), live, bucket);
    var m, u := UpsertBar(bars, merged), UpsertBar(bars, live);
    UpsertRefinesUpdate(bars, live);
    UpsertRefinesUpdate(bars, merged);
    if m == u {
      assert Lookup(m, bucket) == Some(merged) && Lookup(u, live.time) == Some(live);
    }
    if Lookup(bars, live.time) == Some(live) && Lookup(bars, bucket) == Some(merged) {
      UpsertPresent(bars, live);
      UpsertPresent(bars, merged);
    }
  }

  /**
   On the one-minute timeframe a merge is the direct upsert it is documented to be exactly when
   there is no bar to fold into, or folding into it changes nothing; and for a bar off the minute,
   exactly when it is there already and its minute has taken it in.
   */
  lemma OneMinuteMergeIsUpsertIff(bars: seq<Bar>, live: Bar)
    requires Sorted(bars)
    ensures MergeLiveBar(bars, live, "1m") == UpsertBar(bars, live) <==>
      match Lookup(bars, live.time / 60 * 60)
      case None => live.time % 60 == 0
      case Some(e) =>
        if live.time % 60 == 0
        then
          && e.open == live.open && e.high <= live.high && live.low <= e.low && e.volume == 0.0
          && Fresher(live.ind, e.ind) == live.ind
        else
          && Lookup(bars, live.time) == Some(live)
          && e.close == live.close && live.high <= e.high && e.low <= live.low && live.volume == 0.0
          && Fresher(live.ind, e.ind) == e.ind
  {
    if live.time % 60 != 0 {
      OffMinuteMergeIsUpsertIff(bars, live);
    } else {
      assert BucketStart(live.time, "1m") == live.time;
      var e := Lookup(bars, live.time);
      UpsertRefinesUpdate(bars, live);
      if e.Some? {
        UpsertRefinesUpdate(bars, MergeInto(e.value, live));
      } else {
        assert live.(time := live.time) == live;
      }
    }
  }

  // ---- The handlers ----

  function Overlaid(existing: Option<Bar>, enriched: Bar): Bar {
    if existing.Some? then existing.value.(ind := enriched.ind) else enriched
  }

  /** Indicators laid over the bucket's bar, whose prices and volume stay; a missing bar is inserted. */
  function OverlayBar(bars: seq<Bar>, enriched: Bar): seq<Bar> {
    UpsertBar(bars, Overlaid(Lookup(bars, enriched.time), enriched))
  }

  datatype CacheEvent =
    | Row(symbol: string, bar: Bar)                   // a polled row
    | Live(symbol: string, bar: Bar, forming: bool)   // MarketBarSanitized or FormingBar
    | Enriched(symbol: string, bar: Bar)

  function Handle(bars: seq<Bar>, e: CacheEvent, tf: string): seq<Bar> {
    match e
    case Row(_, bar) => if tf == "1m" then UpsertBar(bars, bar) else MergeLiveBar(bars, bar, tf)
    case Live(_, bar, forming) => if forming && tf == "1m" then UpsertBar(bars, bar) else MergeLiveBar(bars, bar, tf)
    case Enriched(_, bar) => OverlayBar(bars, bar.(time := BucketStart(bar.time, tf)))
  }

  /** A snapshot of the minute itself, which replaces what is there. */
  ghost predicate Replaces(e: CacheEvent, tf: string) {
    tf == "1m" && (e.Row? || (e.Live? && e.forming))
  }

  /**
   What an event does to the bar at time `t`: on one minute a polled row or a forming bar replaces
   it; other bars are merged into their bucket's; an enriched one changes its bucket's indicators.
   */
  lemma HandleIs(bars: seq<Bar>, e: CacheEvent, tf: string, t: int)
    requires Sorted(bars)
    ensures var (c, c') := (Lookup(bars, t), Lookup(Handle(bars, e, tf), t));
      if Replaces(e, tf) then c' == if t == e.bar.time then Some(e.bar) else c
      else if !Covers(t, e.bar.time, tf) then c' == c
      else if c.None? then c' == Some(e.bar.(time := t))
      else if e.Enriched? then c' == Some(c.value.(ind := e.bar.ind))
      else c' == Some(MergeInto(c.value, e.bar))
  {
    BucketIff(t, e.bar.time, tf);
    match e
    case Row(_, bar) => if tf == "1m" { UpsertRefinesUpdate(bars, bar); } else { MergeRefinesUpdate(bars, bar, tf); }
    case Live(_, bar, forming) =>
      if forming && tf == "1m" { UpsertRefinesUpdate(bars, bar); } else { MergeRefinesUpdate(bars, bar, tf); }
    case Enriched(_, bar) =>
      var enriched := bar.(time := BucketStart(bar.time, tf));
      UpsertRefinesUpdate(bars, Overlaid(Lookup(bars, enriched.time), enriched));
  }

  lemma HandleKeepsSorted(bars: seq<Bar>, e: CacheEvent, tf: string)
    requires Sorted(bars)
    ensures Sorted(Handle(bars, e, tf))
  {
    forall bar {
      UpsertSorted(bars, bar);
    }
  }

  class ChartData {
    var tf: string
    var barsRef: map<string, seq<Bar>>

    ghost predicate Valid()
      reads this
    {
      forall s | s in barsRef :: Sorted(barsRef[s])
    }

    constructor (tf: string)
      ensures Valid() && this.tf == tf && barsRef == map[]
    {
      this.tf, barsRef := tf, map[];
    }

    method OnEvent(e: CacheEvent)
      requires Valid()
      modifies this`barsRef
      ensures Valid()
      ensures var prev := if e.symbol in old(barsRef) then old(barsRef)[e.symbol] else [];
        barsRef == old(barsRef)[e.symbol := Handle(prev, e, tf)]
    {
      var prev := if e.symbol in barsRef then barsRef[e.symbol] else [];
      HandleKeepsSorted(prev, e, tf);
      barsRef := barsRef[e.symbol := Handle(prev, e, tf)];
    }

    /** A timeframe switch drops everything. */
    method SwitchTimeframe(tf: string)
      modifies this
      ensures Valid() && this.tf == tf && barsRef == map[]
    {
      this.tf, barsRef := tf, map[];
    }

    /** The rows of a fetch, or any burst of events, in order. */
    method OnEvents(es: seq<CacheEvent>)
      requires Valid()
      modifies this`barsRef
      ensures Valid()
      ensures forall s :: BarsOf(barsRef, s) == HandleAll(BarsOf(old(barsRef), s), es, s, tf)
    {
      for i := 0 to |es|
        invariant Valid()
        invariant forall s :: BarsOf(barsRef, s) == HandleAll(BarsOf(old(barsRef), s), es[..i], s, tf)
      {
        assert es[..i + 1][..i] == es[..i];
        OnEvent(es[i]);
      }
      assert es[..|es|] == es;
    }
  }

  ghost function BarsOf(barsRef: map<string, seq<Bar>>, s: string): seq<Bar> {
    if s in barsRef then barsRef[s] else []
  }

  /** What a burst of events leaves of the bars of symbol `s`. */
  ghost function HandleAll(bars: seq<Bar>, es: seq<CacheEvent>, s: string, tf: string): seq<Bar> {
    if es == [] then bars
    else
      var e, before := es[|es| - 1], HandleAll(bars, es[..|es| - 1], s, tf);
      if e.symbol == s then Handle(before, e, tf) else before
  }

  lemma HandleSnoc(bars: seq<Bar>, es: seq<CacheEvent>, e: CacheEvent, tf: string)
    ensures HandleAll(bars, es + [e], e.symbol, tf) == Handle(HandleAll(bars, es, e.symbol, tf), e, tf)
  {
    assert (es + [e])[..|es|] == es;
  }

  /** A bar merged into itself only gains volume. */
  lemma MergedTwice(bars: seq<Bar>, bar: Bar)
    requires Sorted(bars) && bar.time % 60 == 0 && Lookup(bars, bar.time) == Some(bar)
    ensures MergeLiveBar(bars, bar, "1m") == UpsertBar(bars, bar.(volume := bar.volume + bar.volume))
  {
    assert BucketStart(bar.time, "1m") == bar.time;
    assert MergeInto(bar, bar) == bar.(volume := bar.volume + bar.volume);
  }

  lemma {:induction false} HandleAllKeepsSorted(bars: seq<Bar>, es: seq<CacheEvent>, s: string, tf: string)
    requires Sorted(bars)
    ensures Sorted(HandleAll(bars, es, s, tf))
  {
    if es != [] {
      var init := es[..|es| - 1];
      HandleAllKeepsSorted(bars, init, s, tf);
      HandleKeepsSorted(HandleAll(bars, init, s, tf), es[|es| - 1], tf);
    }
  }

  /**
   After any events, a minute that is polled and then streamed: an upsert would keep it, the merge
   doubles its volume.
   */
  lemma PolledThenStreamed(bars: seq<Bar>, es: seq<CacheEvent>, s: string, bar: Bar)
    requires Sorted(bars) && bar.time % 60 == 0
    ensures var polled := HandleAll(bars, es + [Row(s, bar)], s, "1m");
      var streamed := HandleAll(bars, es + [Row(s, bar)] + [Live(s, bar, false)], s, "1m");
      && UpsertBar(polled, bar) == polled
      && Lookup(streamed, bar.time) == Some(bar.(volume := bar.volume + bar.volume))
      && (streamed == polled <==> bar.volume == 0.0)
  {
    HandleAllKeepsSorted(bars, es, s, "1m");
    HandleSnoc(bars, es, Row(s, bar), "1m");
    HandleSnoc(bars, es + [Row(s, bar)], Live(s, bar, false), "1m");
    UpsertThenMerge(HandleAll(bars, es, s, "1m"), bar);
  }

  lemma UpsertThenMerge(bars: seq<Bar>, bar: Bar)
    requires Sorted(bars) && bar.time % 60 == 0
    ensures var polled := UpsertBar(bars, bar);
      var streamed := MergeLiveBar(polled, bar, "1m");
      && UpsertBar(polled, bar) == polled
      && Lookup(streamed, bar.time) == Some(bar.(volume := bar.volume + bar.volume))
      && (streamed == polled <==> bar.volume == 0.0)
  {
    var polled, twice := UpsertBar(bars, bar), bar.(volume := bar.volume + bar.volume);
    UpsertRefinesUpdate(bars, bar);
    UpsertPresent(polled, bar);
    MergedTwice(polled, bar);
    UpsertRefinesUpdate(polled, twice);
    if bar.volume == 0.0 { UpsertPresent(polled, twice); }
  }

  ghost function BarsIn(es: seq<CacheEvent>, s: string): seq<Bar> {
    if es == [] then []
    else
      var bars := BarsIn(es[..|es| - 1], s);
      if es[|es| - 1].symbol == s then bars + [es[|es| - 1].bar] else bars
  }

  lemma FoldSnoc(bars: seq<Bar>, live: seq<Bar>, b: Bar, tf: string)
    ensures FoldOnto(bars, live + [b], tf) == MergeLiveBar(FoldOnto(bars, live, tf), b, tf)
  {
    assert (live + [b])[..|live|] == live;
  }

  /** Above one minute, rows and live bars are folded onto the symbol's cache. */
  lemma {:induction false} RowsAreFolded(bars: seq<Bar>, es: seq<CacheEvent>, s: string, tf: string)
    requires tf != "1m" && forall e | e in es :: !e.Enriched?
    ensures HandleAll(bars, es, s, tf) == FoldOnto(bars, BarsIn(es, s), tf)
  {
    if es != [] {
      var init, e := es[..|es| - 1], es[|es| - 1];
      RowsAreFolded(bars, init, s, tf);
      assert e in es;
      FoldSnoc(bars, BarsIn(init, s), e.bar, tf);
    }
  }

  /** A first load on a timeframe above one minute gives each symbol the candles of its own rows. */
  lemma FirstLoadIsFold(es: seq<CacheEvent>, s: string, tf: string)
    requires tf != "1m" && forall e | e in es :: !e.Enriched?
    ensures HandleAll([], es, s, tf) == Fold(BarsIn(es, s), tf)
  {
    RowsAreFolded([], es, s, tf);
  }

  /** A poll above one minute leaves a symbol's cache as it was exactly when its rows were settled in it. */
  lemma PollChangesNothingIff(bars: seq<Bar>, es: seq<CacheEvent>, s: string, tf: string)
    requires Sorted(bars) && tf != "1m" && forall e | e in es :: !e.Enriched?
    ensures HandleAll(bars, es, s, tf) == bars <==> forall t :: Settled(Lookup(bars, t), Group(BarsIn(es, s), tf, t))
  {
    RowsAreFolded(bars, es, s, tf);
    RefetchChangesNothingIff(bars, BarsIn(es, s), tf);
  }

  /** An overlay changes nothing but the indicators of a bar already there. */
  lemma OverlayKeepsPrices(bars: seq<Bar>, enriched: Bar)
    requires Sorted(bars)
    ensures var r := OverlayBar(bars, enriched);
      && Sorted(r)
      && forall t ::
           if t != enriched.time then Lookup(r, t) == Lookup(bars, t)
           else
             match Lookup(bars, t)
             case None => Lookup(r, t) == Some(enriched)
             case Some(e) => Lookup(r, t) == Some(e.(ind := enriched.ind))
  {
    UpsertRefinesUpdate(bars, Overlaid(Lookup(bars, enriched.time), enriched));
  }
}
