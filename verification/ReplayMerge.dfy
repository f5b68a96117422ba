/**
 The replay core: per-symbol bar streams are merged, tick by tick, into one flat
 slab whose capacity is fixed before the first bar is written.  `Merge` is the
 value the assembly loop computes; the theorems about it are at the end.
 */
module ReplayMerge {
  import opened Wrappers

  datatype Bar = Bar(symbol: string, time: int, close: real, volume: real)
  datatype SliceBar = SliceBar(tickTime: int, sessionOpen: int, bar: Bar)

  /** A bar together with the position, in the stream list, of the stream it came from. */
  datatype Entry = Entry(src: nat, bar: Bar)

  type Streams = seq<seq<Bar>>
  type Cursor = seq<nat>

  ghost predicate Within(ss: Streams, pos: Cursor) {
    |pos| == |ss| && forall i | 0 <= i < |ss| :: pos[i] <= |ss[i]|
  }

  ghost predicate Live(ss: Streams, pos: Cursor, i: nat) {
    i < |ss| && i < |pos| && pos[i] < |ss[i]|
  }

  ghost function Head(ss: Streams, pos: Cursor, i: nat): Bar
    requires Live(ss, pos, i)
  {
    ss[i][pos[i]]
  }

  ghost predicate Due(ss: Streams, pos: Cursor, i: nat, t: int) {
    Live(ss, pos, i) && Head(ss, pos, i).time == t
  }

  /** `m` is the earliest head time of the first `k` streams, or None when they are all exhausted. */
  ghost predicate IsMinHead(ss: Streams, pos: Cursor, k: nat, m: Option<int>) {
    match m
    case None => forall i: nat | i < k :: !Live(ss, pos, i)
    case Some(t) =>
      && (exists i: nat | i < k :: Due(ss, pos, i, t))
      && (forall i: nat | i < k && Live(ss, pos, i) :: t <= Head(ss, pos, i).time)
  }

  ghost function MinHead(ss: Streams, pos: Cursor, k: nat): (m: Option<int>)
    ensures IsMinHead(ss, pos, k, m)
  {
    if k == 0 then None
    else
      var m := MinHead(ss, pos, k - 1);
      if !Live(ss, pos, k - 1) then m
      else
        var t := Head(ss, pos, k - 1).time;
        assert Due(ss, pos, k - 1, t);
        if m == None || t < m.value then Some(t) else m
  }

  lemma MinHeadUnique(ss: Streams, pos: Cursor, m: Option<int>)
    requires Within(ss, pos) && IsMinHead(ss, pos, |ss|, m)
    ensures m == MinHead(ss, pos, |ss|)
  {
    var m' := MinHead(ss, pos, |ss|);
    if m.Some? && m'.Some? {
      var i: nat :| i < |ss| && Due(ss, pos, i, m.value);
      var j: nat :| j < |ss| && Due(ss, pos, j, m'.value);
      assert Live(ss, pos, i) && Live(ss, pos, j);
    }
  }

  // ---- One tick ----

  /** What the first `k` streams contribute to the tick at `t`, in stream order. */
  ghost function Round(ss: Streams, pos: Cursor, t: int, k: nat): seq<Entry> {
    if k == 0 then []
    else if Due(ss, pos, k - 1, t) then Round(ss, pos, t, k - 1) + [Entry(k - 1, Head(ss, pos, k - 1))]
    else Round(ss, pos, t, k - 1)
  }

  /** The cursor after the tick at `t`. */
  ghost function Step(ss: Streams, pos: Cursor, t: int): (next: Cursor)
    ensures Within(ss, pos) ==> Within(ss, next)
  {
    seq(|pos|, i requires 0 <= i < |pos| => if Due(ss, pos, i, t) then pos[i] + 1 else pos[i])
  }

  /** Bars of the first `k` streams not yet consumed. */
  ghost function Remaining(ss: Streams, pos: Cursor, k: nat): nat
    requires Within(ss, pos) && k <= |ss|
  {
    if k == 0 then 0 else Remaining(ss, pos, k - 1) + |ss[k - 1]| - pos[k - 1]
  }

  /** A tick consumes exactly the bars it writes: the source of both termination and the capacity bound. */
  lemma {:induction false} RoundAccounting(ss: Streams, pos: Cursor, t: int, k: nat)
    requires Within(ss, pos) && k <= |ss|
    ensures Remaining(ss, Step(ss, pos, t), k) + |Round(ss, pos, t, k)| == Remaining(ss, pos, k)
  {
    if k > 0 { RoundAccounting(ss, pos, t, k - 1); }
  }

  lemma {:induction false} RoundNonEmpty(ss: Streams, pos: Cursor, t: int, i: nat, k: nat)
    requires i < k && Due(ss, pos, i, t)
    ensures Round(ss, pos, t, k) != []
  {
    if i < k - 1 { RoundNonEmpty(ss, pos, t, i, k - 1); }
  }

  lemma Progress(ss: Streams, pos: Cursor, t: int)
    requires Within(ss, pos) && MinHead(ss, pos, |ss|) == Some(t)
    ensures Round(ss, pos, t, |ss|) != []
    ensures Remaining(ss, Step(ss, pos, t), |ss|) < Remaining(ss, pos, |ss|)
  {
    var i: nat :| i < |ss| && Due(ss, pos, i, t);
    RoundNonEmpty(ss, pos, t, i, |ss|);
    RoundAccounting(ss, pos, t, |ss|);
  }

  // ---- The whole merge ----

  ghost function Merge(ss: Streams, pos: Cursor): seq<Entry>
    requires Within(ss, pos)
    decreases Remaining(ss, pos, |ss|)
  {
    match MinHead(ss, pos, |ss|)
    case None => []
    case Some(t) =>
      Progress(ss, pos, t);
      Round(ss, pos, t, |ss|) + Merge(ss, Step(ss, pos, t))
  }

  /** Number of ticks the merge takes. */
  ghost function Rounds(ss: Streams, pos: Cursor): nat
    requires Within(ss, pos)
    decreases Remaining(ss, pos, |ss|)
  {
    match MinHead(ss, pos, |ss|)
    case None => 0
    case Some(t) =>
      Progress(ss, pos, t);
      1 + Rounds(ss, Step(ss, pos, t))
  }

  ghost function Start(ss: Streams): (pos: Cursor)
    ensures Within(ss, pos)
  {
    seq(|ss|, _ => 0)
  }

  lemma {:induction false} MergeLength(ss: Streams, pos: Cursor)
    requires Within(ss, pos)
    ensures |Merge(ss, pos)| == Remaining(ss, pos, |ss|)
    decreases Remaining(ss, pos, |ss|)
  {
    match MinHead(ss, pos, |ss|)
    case None =>
      NothingLeft(ss, pos, |ss|);
    case Some(t) =>
      Progress(ss, pos, t);
      RoundAccounting(ss, pos, t, |ss|);
      MergeLength(ss, Step(ss, pos, t));
  }

  lemma {:induction false} NothingLeft(ss: Streams, pos: Cursor, k: nat)
    requires Within(ss, pos) && k <= |ss| && forall i: nat | i < |ss| :: !Live(ss, pos, i)
    ensures Remaining(ss, pos, k) == 0
  {
    if k > 0 {
      assert !Live(ss, pos, k - 1);
      NothingLeft(ss, pos, k - 1);
    }
  }

  // ---- Every stream is kept, in its own order ----

  /** The bars of `es` that came from stream `i`, in order. */
  ghost function OfStream(es: seq<Entry>, i: nat): seq<Bar> {
    if es == [] then []
    else OfStream(es[..|es| - 1], i) + if es[|es| - 1].src == i then [es[|es| - 1].bar] else []
  }

  lemma OfStreamSnoc(es: seq<Entry>, e: Entry, i: nat)
    ensures OfStream(es + [e], i) == if e.src == i then OfStream(es, i) + [e.bar] else OfStream(es, i)
  {
    assert (es + [e])[..|es|] == es;
  }

  lemma {:induction false} OfStreamConcat(a: seq<Entry>, b: seq<Entry>, i: nat)
    ensures OfStream(a + b, i) == OfStream(a, i) + OfStream(b, i)
  {
    if b == [] {
      assert a + b == a;
    } else {
      assert (a + b)[..|a + b| - 1] == a + b[..|b| - 1];
      OfStreamConcat(a, b[..|b| - 1], i);
    }
  }

  lemma {:induction false} RoundOfStream(ss: Streams, pos: Cursor, t: int, k: nat, i: nat)
    ensures OfStream(Round(ss, pos, t, k), i) == if i < k && Due(ss, pos, i, t) then [Head(ss, pos, i)] else []
  {
    if k > 0 {
      RoundOfStream(ss, pos, t, k - 1, i);
      var before := Round(ss, pos, t, k - 1);
      if Due(ss, pos, k - 1, t) {
        var e := Entry(k - 1, Head(ss, pos, k - 1));
        assert Round(ss, pos, t, k) == before + [e];
        OfStreamSnoc(before, e, i);
      } else {
        assert Round(ss, pos, t, k) == before;
      }
    }
  }

  lemma MergeStreamNext(ss: Streams, pos: Cursor, t: int, i: nat)
    requires Within(ss, pos) && i < |ss| && MinHead(ss, pos, |ss|) == Some(t)
    ensures OfStream(Merge(ss, pos), i)
      == OfStream(Round(ss, pos, t, |ss|), i) + OfStream(Merge(ss, Step(ss, pos, t)), i)
  {
    OfStreamConcat(Round(ss, pos, t, |ss|), Merge(ss, Step(ss, pos, t)), i);
  }

  lemma {:induction false} MergeKeepsStream(ss: Streams, pos: Cursor, i: nat)
    requires Within(ss, pos) && i < |ss|
    ensures OfStream(Merge(ss, pos), i) == ss[i][pos[i]..]
    decreases Remaining(ss, pos, |ss|)
  {
    match MinHead(ss, pos, |ss|)
    case None =>
      assert !Live(ss, pos, i);
    case Some(t) =>
      Progress(ss, pos, t);
      MergeStreamNext(ss, pos, t, i);
      RoundOfStream(ss, pos, t, |ss|, i);
      StreamNext(ss, pos, t, i);
      MergeKeepsStream(ss, Step(ss, pos, t), i);
  }

  lemma StreamNext(ss: Streams, pos: Cursor, t: int, i: nat)
    requires Within(ss, pos) && i < |ss|
    ensures Within(ss, Step(ss, pos, t))
    ensures var rest := ss[i][Step(ss, pos, t)[i]..];
      ss[i][pos[i]..] == if Due(ss, pos, i, t) then [Head(ss, pos, i)] + rest else rest
  {}

  lemma {:induction false} RoundShape(ss: Streams, pos: Cursor, t: int, k: nat)
    ensures forall e | e in Round(ss, pos, t, k) :: e.src < k && e.bar.time == t
    ensures LexSorted(Round(ss, pos, t, k))
  {
    if k > 0 { RoundShape(ss, pos, t, k - 1); }
  }

  lemma {:induction false} MergeSources(ss: Streams, pos: Cursor)
    requires Within(ss, pos)
    ensures forall e | e in Merge(ss, pos) :: e.src < |ss|
    decreases Remaining(ss, pos, |ss|)
  {
    match MinHead(ss, pos, |ss|)
    case None =>
    case Some(t) =>
      Progress(ss, pos, t);
      RoundShape(ss, pos, t, |ss|);
      MergeSources(ss, Step(ss, pos, t));
  }

  ghost function Bars(es: seq<Entry>): multiset<Bar> {
    if es == [] then multiset{} else Bars(es[..|es| - 1]) + multiset{es[|es| - 1].bar}
  }

  ghost function AllBars(ss: Streams, k: nat): multiset<Bar>
    requires k <= |ss|
  {
    if k == 0 then multiset{} else AllBars(ss, k - 1) + multiset(ss[k - 1])
  }

  ghost function Split(es: seq<Entry>, n: nat): (ss: Streams)
    ensures |ss| == n && forall i | 0 <= i < n :: ss[i] == OfStream(es, i)
  {
    seq(n, i requires 0 <= i < n => OfStream(es, i))
  }

  lemma {:induction false} AllBarsAppend(ss: Streams, ss': Streams, src: nat, b: Bar, k: nat)
    requires |ss| == |ss'| && k <= |ss|
    requires forall i | 0 <= i < |ss| :: ss'[i] == ss[i] + if i == src then [b] else []
    ensures AllBars(ss', k) == AllBars(ss, k) + if src < k then multiset{b} else multiset{}
  {
    if k > 0 { AllBarsAppend(ss, ss', src, b, k - 1); }
  }

  lemma {:induction false} BarsBySource(es: seq<Entry>, n: nat)
    requires forall e | e in es :: e.src < n
    ensures Bars(es) == AllBars(Split(es, n), n)
  {
    if es == [] {
      NoBars(Split(es, n), n);
    } else {
      var init, last := es[..|es| - 1], es[|es| - 1];
      BarsBySource(init, n);
      AllBarsAppend(Split(init, n), Split(es, n), last.src, last.bar, n);
    }
  }

  lemma {:induction false} NoBars(ss: Streams, k: nat)
    requires k <= |ss| && forall i | 0 <= i < |ss| :: ss[i] == []
    ensures AllBars(ss, k) == multiset{}
  {
    if k > 0 { NoBars(ss, k - 1); }
  }

  // ---- Order ----

  ghost predicate NonDecreasing(s: seq<Bar>) {
    forall a, b | 0 <= a < b < |s| :: s[a].time <= s[b].time
  }

  ghost predicate Increasing(s: seq<Bar>) {
    forall a, b | 0 <= a < b < |s| :: s[a].time < s[b].time
  }

  ghost predicate TimeSorted(es: seq<Entry>) {
    forall a, b | 0 <= a < b < |es| :: es[a].bar.time <= es[b].bar.time
  }

  ghost predicate LexBelow(d: Entry, e: Entry) {
    d.bar.time < e.bar.time || (d.bar.time == e.bar.time && d.src < e.src)
  }

  ghost predicate LexSorted(es: seq<Entry>) {
    forall a, b | 0 <= a < b < |es| :: LexBelow(es[a], es[b])
  }

  ghost predicate NotBefore(ss: Streams, pos: Cursor, t: int) {
    forall i: nat | Live(ss, pos, i) :: t <= Head(ss, pos, i).time
  }

  lemma {:induction false} MergeNotBefore(ss: Streams, pos: Cursor, t: int)
    requires Within(ss, pos) && NotBefore(ss, pos, t) && forall i | 0 <= i < |ss| :: NonDecreasing(ss[i])
    ensures forall e | e in Merge(ss, pos) :: t <= e.bar.time
    decreases Remaining(ss, pos, |ss|)
  {
    match MinHead(ss, pos, |ss|)
    case None =>
    case Some(m) =>
      Progress(ss, pos, m);
      RoundShape(ss, pos, m, |ss|);
      var next := Step(ss, pos, m);
      forall i: nat | i < |ss| && Live(ss, next, i)
        ensures t <= Head(ss, next, i).time
      {
        assert Live(ss, pos, i);
      }
      MergeNotBefore(ss, next, t);
  }

  lemma {:induction false} MergeTimeSorted(ss: Streams, pos: Cursor)
    requires Within(ss, pos) && forall i | 0 <= i < |ss| :: NonDecreasing(ss[i])
    ensures TimeSorted(Merge(ss, pos))
    decreases Remaining(ss, pos, |ss|)
  {
    match MinHead(ss, pos, |ss|)
    case None =>
    case Some(t) =>
      Progress(ss, pos, t);
      RoundShape(ss, pos, t, |ss|);
      var next := Step(ss, pos, t);
      forall i: nat | i < |ss| && Live(ss, next, i)
        ensures t <= Head(ss, next, i).time
      {
        assert Live(ss, pos, i);
      }
      MergeNotBefore(ss, next, t);
      MergeTimeSorted(ss, next);
  }

  lemma StepPassesTick(ss: Streams, pos: Cursor, t: int)
    requires Within(ss, pos) && MinHead(ss, pos, |ss|) == Some(t)
    requires forall i | 0 <= i < |ss| :: Increasing(ss[i])
    ensures NotBefore(ss, Step(ss, pos, t), t + 1)
  {
    var next := Step(ss, pos, t);
    forall i: nat | i < |ss| && Live(ss, next, i)
      ensures t + 1 <= Head(ss, next, i).time
    {
      assert Live(ss, pos, i);
    }
  }

  lemma {:induction false} MergeLexSorted(ss: Streams, pos: Cursor)
    requires Within(ss, pos) && forall i | 0 <= i < |ss| :: Increasing(ss[i])
    ensures LexSorted(Merge(ss, pos))
    decreases Remaining(ss, pos, |ss|)
  {
    match MinHead(ss, pos, |ss|)
    case None =>
    case Some(t) =>
      Progress(ss, pos, t);
      RoundShape(ss, pos, t, |ss|);
      var next := Step(ss, pos, t);
      StepPassesTick(ss, pos, t);
      MergeNotBefore(ss, next, t + 1);
      MergeLexSorted(ss, next);
      var round, rest := Round(ss, pos, t, |ss|), Merge(ss, next);
      forall a, b | 0 <= a < b < |round + rest|
        ensures LexBelow((round + rest)[a], (round + rest)[b])
      {
        if a < |round| <= b {
          assert round[a] in round && rest[b - |round|] in rest;
        }
      }
  }

  /** Each bar of stream `i` in `es` is one of the entries of `es`. */
  lemma {:induction false} OfStreamFrom(es: seq<Entry>, i: nat)
    ensures forall b | b in OfStream(es, i) :: Entry(i, b) in es
  {
    if es != [] { OfStreamFrom(es[..|es| - 1], i); }
  }

  /** A stream's bars are sorted as the entries they came from. */
  lemma {:induction false} SortedGivesStreams(es: seq<Entry>, i: nat)
    ensures TimeSorted(es) ==> NonDecreasing(OfStream(es, i))
    ensures LexSorted(es) ==> Increasing(OfStream(es, i))
  {
    if es != [] {
      var init, last := es[..|es| - 1], es[|es| - 1];
      SortedGivesStreams(init, i);
      OfStreamFrom(init, i);
      forall b | b in OfStream(init, i)
        ensures TimeSorted(es) ==> b.time <= last.bar.time
        ensures LexSorted(es) ==> LexBelow(Entry(i, b), last)
      {
        var a :| 0 <= a < |init| && init[a] == Entry(i, b);
        assert es[a] == Entry(i, b);
      }
    }
  }

  // ---- Ticks and timestamps ----

  ghost function Times(ss: Streams, pos: Cursor): set<int>
    requires Within(ss, pos)
  {
    set i, j | 0 <= i < |ss| && pos[i] <= j < |ss[i]| :: ss[i][j].time
  }

  lemma {:induction false} RoundsAreTimes(ss: Streams, pos: Cursor)
    requires Within(ss, pos) && forall i | 0 <= i < |ss| :: Increasing(ss[i])
    ensures Rounds(ss, pos) == |Times(ss, pos)|
    decreases Remaining(ss, pos, |ss|)
  {
    match MinHead(ss, pos, |ss|)
    case None =>
      if Times(ss, pos) != {} { TimesAreLive(ss, pos); }
    case Some(t) =>
      Progress(ss, pos, t);
      var next := Step(ss, pos, t);
      StepPassesTick(ss, pos, t);
      RoundsAreTimes(ss, next);
      LaterTimes(ss, next, t);
      TimesStep(ss, pos, t);
  }

  lemma TimesAreLive(ss: Streams, pos: Cursor)
    requires Within(ss, pos) && Times(ss, pos) != {}
    ensures exists i: nat | i < |ss| :: Live(ss, pos, i)
  {
    var x :| x in Times(ss, pos);
    var i, j :| 0 <= i < |ss| && pos[i] <= j < |ss[i]| && ss[i][j].time == x;
    assert Live(ss, pos, i);
  }

  lemma LaterTimes(ss: Streams, pos: Cursor, t: int)
    requires Within(ss, pos) && NotBefore(ss, pos, t + 1) && forall i | 0 <= i < |ss| :: Increasing(ss[i])
    ensures t !in Times(ss, pos)
  {
    forall i, j | 0 <= i < |ss| && pos[i] <= j < |ss[i]|
      ensures ss[i][j].time != t
    {
      assert Live(ss, pos, i) && t + 1 <= Head(ss, pos, i).time;
    }
  }

  lemma TimesStep(ss: Streams, pos: Cursor, t: int)
    requires Within(ss, pos) && MinHead(ss, pos, |ss|) == Some(t)
    ensures Times(ss, pos) == Times(ss, Step(ss, pos, t)) + {t}
  {
    var next := Step(ss, pos, t);
    var d: nat :| d < |ss| && Due(ss, pos, d, t);
    assert ss[d][pos[d]].time == t;
    forall x | x in Times(ss, pos)
      ensures x in Times(ss, next) + {t}
    {
      var i, j :| 0 <= i < |ss| && pos[i] <= j < |ss[i]| && ss[i][j].time == x;
      if j < next[i] {
        assert Due(ss, pos, i, t);
      }
    }
  }

  // ---- Theorems ----

  /**
   The merge loses, invents and reorders nothing: it is a permutation of all the bars, and
   reading it back one stream at a time gives each stream as it went in.  No order of the
   input is needed for that.
   */
  lemma MergeIsInterleaving(ss: Streams)
    ensures var es := Merge(ss, Start(ss));
      && Bars(es) == AllBars(ss, |ss|)
      && |es| == Remaining(ss, Start(ss), |ss|)
      && (forall e | e in es :: e.src < |ss|)
      && (forall i: nat | i < |ss| :: OfStream(es, i) == ss[i])
  {
    var es := Merge(ss, Start(ss));
    MergeLength(ss, Start(ss));
    MergeSources(ss, Start(ss));
    forall i: nat | i < |ss|
      ensures OfStream(es, i) == ss[i]
    {
      MergeKeepsStream(ss, Start(ss), i);
    }
    BarsBySource(es, |ss|);
    assert Split(es, |ss|) == ss;
  }

  /** The slab is chronological exactly when every stream was. */
  lemma ChronologicalIff(ss: Streams)
    ensures TimeSorted(Merge(ss, Start(ss))) <==> forall i | 0 <= i < |ss| :: NonDecreasing(ss[i])
  {
    var es := Merge(ss, Start(ss));
    if forall i | 0 <= i < |ss| :: NonDecreasing(ss[i]) {
      MergeTimeSorted(ss, Start(ss));
    }
    forall i: nat | i < |ss| && TimeSorted(es)
      ensures NonDecreasing(ss[i])
    {
      MergeKeepsStream(ss, Start(ss), i);
      SortedGivesStreams(es, i);
    }
  }

  /** It is in strict (time, stream) order exactly when no stream repeats a timestamp or goes back. */
  lemma StreamOrderIff(ss: Streams)
    ensures LexSorted(Merge(ss, Start(ss))) <==> forall i | 0 <= i < |ss| :: Increasing(ss[i])
  {
    var es := Merge(ss, Start(ss));
    if forall i | 0 <= i < |ss| :: Increasing(ss[i]) {
      MergeLexSorted(ss, Start(ss));
    }
    forall i: nat | i < |ss| && LexSorted(es)
      ensures Increasing(ss[i])
    {
      MergeKeepsStream(ss, Start(ss), i);
      SortedGivesStreams(es, i);
    }
  }

  /** With strictly increasing streams there is one tick per distinct timestamp. */
  lemma OneTickPerTimestamp(ss: Streams)
    requires forall i | 0 <= i < |ss| :: Increasing(ss[i])
    ensures Rounds(ss, Start(ss)) == |set i, j | 0 <= i < |ss| && 0 <= j < |ss[i]| :: ss[i][j].time|
  {
    RoundsAreTimes(ss, Start(ss));
    assert Times(ss, Start(ss)) == set i, j | 0 <= i < |ss| && 0 <= j < |ss[i]| :: ss[i][j].time;
  }

  // ---- The code ----

  /** A context that is cancelled from poll number `cancelAt` on; None is never. */
  datatype Context = Context(cancelAt: Option<nat>) {
    predicate Err(poll: nat) {
      cancelAt.Some? && cancelAt.value <= poll
    }

    /** No poll from number `from` on and before `polls` reported an error. */
    ghost predicate StopsBy(from: nat, polls: nat) {
      cancelAt.Some? && from <= cancelAt.value ==> polls <= cancelAt.value
    }
  }

  class BarStream {
    const symbol: string
    const bars: seq<Bar>
    var idx: nat

    ghost predicate Valid()
      reads this
    {
      idx <= |bars|
    }

    constructor (symbol: string, bars: seq<Bar>)
      ensures this.symbol == symbol && this.bars == bars && idx == 0
    {
      this.symbol, this.bars, this.idx := symbol, bars, 0;
    }

    method Peek() returns (b: Option<Bar>)
      requires Valid()
      ensures b == if idx < |bars| then Some(bars[idx]) else None
    {
      if idx >= |bars| {
        return None;
      }
      return Some(bars[idx]);
    }

    method Pop() returns (ok: bool)
      requires Valid()
      modifies this
      ensures Valid() && ok == (old(idx) < |bars|)
      ensures idx == if ok then old(idx) + 1 else old(idx)
    {
      if idx >= |bars| {
        return false;
      }
      idx := idx + 1;
      return true;
    }

    /** The loop body's peek, comparison and pop: takes the head when it is stamped `t`. */
    method PopIfAt(t: int) returns (b: Option<Bar>)
      requires Valid()
      modifies this
      ensures Valid()
      ensures b == if old(idx) < |bars| && bars[old(idx)].time == t then Some(bars[old(idx)]) else None
      ensures idx == if b.Some? then old(idx) + 1 else old(idx)
    {
      b := Peek();
      if b.None? || b.value.time != t {
        return None;
      }
      var _ := Pop();
    }
  }

  ghost function Contents(streams: seq<BarStream>): (ss: Streams)
    ensures |ss| == |streams| && forall i | 0 <= i < |ss| :: ss[i] == streams[i].bars
  {
    seq(|streams|, i requires 0 <= i < |streams| => streams[i].bars)
  }

  /** The streams stand at cursor `pos`. */
  ghost predicate At(streams: seq<BarStream>, pos: Cursor)
    reads streams
  {
    |pos| == |streams| && forall i | 0 <= i < |streams| :: streams[i].idx == pos[i]
  }

  ghost predicate Apart(streams: seq<BarStream>, i: nat, j: nat)
    requires i < |streams| && j < |streams|
  {
    streams[i] != streams[j]
  }

  ghost predicate Distinct(streams: seq<BarStream>) {
    forall i, j | 0 <= i < j < |streams| :: Apart(streams, i, j)
  }

  method NextMinTime(streams: seq<BarStream>, ghost pos: Cursor) returns (min: Option<int>)
    requires Within(Contents(streams), pos) && At(streams, pos)
    ensures IsMinHead(Contents(streams), pos, |streams|, min)
  {
    ghost var ss := Contents(streams);
    min := None;
    for k := 0 to |streams|
      invariant IsMinHead(ss, pos, k, min)
    {
      assert streams[k].idx == pos[k] <= |ss[k]|;
      var b := streams[k].Peek();
      if b.None? {
        assert !Live(ss, pos, k);
        continue;
      }
      if min.None? || b.value.time < min.value {
        min := Some(b.value.time);
        assert Due(ss, pos, k, min.value);
      }
    }
  }

  ghost function Stamp(es: seq<Entry>, sessionOpen: int -> int): (out: seq<SliceBar>)
    ensures |out| == |es|
    ensures forall a | 0 <= a < |es| :: out[a] == SliceBar(es[a].bar.time, sessionOpen(es[a].bar.time), es[a].bar)
  {
    seq(|es|, a requires 0 <= a < |es| => SliceBar(es[a].bar.time, sessionOpen(es[a].bar.time), es[a].bar))
  }

  /** The first `n` elements of the slab are those of `full`. */
  ghost predicate Holds(slab: array<SliceBar>, n: nat, full: seq<SliceBar>)
    reads slab
  {
    n <= |full| == slab.Length && forall a | 0 <= a < n :: slab[a] == full[a]
  }

  /** After `n` elements, `full` goes on with the bars of `round`. */
  ghost predicate Next(full: seq<SliceBar>, n: nat, round: seq<Entry>, t: int, open: int) {
    n + |round| <= |full| && forall a | 0 <= a < |round| :: full[n + a] == SliceBar(t, open, round[a].bar)
  }

  /** The slab's next element, written in place. */
  method Put(slab: array<SliceBar>, n: nat, x: SliceBar, ghost full: seq<SliceBar>)
    requires Holds(slab, n, full) && n < |full| && full[n] == x
    modifies slab
    ensures Holds(slab, n + 1, full)
  {
    slab[n] := x;
  }

  /** How many of the first `k` streams are due at `t`. */
  ghost function DueCount(ss: Streams, pos: Cursor, t: int, k: nat): nat {
    if k == 0 then 0 else DueCount(ss, pos, t, k - 1) + if Due(ss, pos, k - 1, t) then 1 else 0
  }

  /** A due stream's head is the round's element after those of the due streams before it. */
  lemma {:induction false} RoundAt(ss: Streams, pos: Cursor, t: int, k: nat, n: nat)
    requires k <= n
    ensures |Round(ss, pos, t, n)| == DueCount(ss, pos, t, n) && DueCount(ss, pos, t, k) <= DueCount(ss, pos, t, n)
    ensures k < n && Due(ss, pos, k, t) ==>
      && DueCount(ss, pos, t, k) < DueCount(ss, pos, t, n)
      && Round(ss, pos, t, n)[DueCount(ss, pos, t, k)] == Entry(k, Head(ss, pos, k))
  {
    if n > 0 { RoundAt(ss, pos, t, if k == n then k - 1 else k, n - 1); }
  }

  lemma NextBar(full: seq<SliceBar>, n0: nat, ss: Streams, pos: Cursor, t: int, open: int, k: nat)
    requires Next(full, n0, Round(ss, pos, t, |ss|), t, open) && k < |ss| && Due(ss, pos, k, t)
    ensures var n := n0 + DueCount(ss, pos, t, k);
      n < |full| && full[n] == SliceBar(t, open, Head(ss, pos, k))
  {
    RoundAt(ss, pos, t, k, |ss|);
  }

  /** The first `k` streams have given up their head if it was due at `t`, and the others nothing. */
  ghost predicate Visited(streams: seq<BarStream>, ss: Streams, pos: Cursor, t: int, k: nat)
    requires |pos| == |streams|
    reads streams
  {
    forall i: nat | i < |streams| :: streams[i].idx == if i < k && Due(ss, pos, i, t) then pos[i] + 1 else pos[i]
  }

  /** The tick's turn for stream `k`. */
  method TakeIfDue(streams: seq<BarStream>, k: nat, t: int, ghost pos: Cursor) returns (b: Option<Bar>)
    requires Distinct(streams) && Within(Contents(streams), pos) && k < |streams|
    requires Visited(streams, Contents(streams), pos, t, k)
    modifies streams
    ensures Visited(streams, Contents(streams), pos, t, k + 1)
    ensures b == if Due(Contents(streams), pos, k, t) then Some(Head(Contents(streams), pos, k)) else None
  {
    assert streams[k].idx == pos[k];
    forall i: nat | i < |streams| && i != k
      ensures streams[i] != streams[k]
    {
      assert if i < k then Apart(streams, i, k) else Apart(streams, k, i);
    }
    b := streams[k].PopIfAt(t);
  }

  /** Stream `k`'s part of a tick: its head is popped and written if it is due. */
  method WriteOne(streams: seq<BarStream>, slab: array<SliceBar>, k: nat, n0: nat, t: int, open: int,
                  ghost pos: Cursor, ghost full: seq<SliceBar>, ghost base: nat) returns (n: nat)
    requires Distinct(streams) && Within(Contents(streams), pos) && k < |streams|
    requires Visited(streams, Contents(streams), pos, t, k) && n0 == base + DueCount(Contents(streams), pos, t, k)
    requires Holds(slab, n0, full)
    requires Next(full, base, Round(Contents(streams), pos, t, |streams|), t, open)
    modifies streams, slab
    ensures Visited(streams, Contents(streams), pos, t, k + 1)
    ensures n == base + DueCount(Contents(streams), pos, t, k + 1) && Holds(slab, n, full)
  {
    ghost var ss := Contents(streams);
    n := n0;
    var b := TakeIfDue(streams, k, t, pos);
    if b.Some? {
      NextBar(full, base, ss, pos, t, open, k);
      Put(slab, n, SliceBar(t, open, b.value), full);
      n := n + 1;
    }
  }

  /**
   One tick of the assembly loop: visits the streams in order, writing and popping the head
   of each that is due at `t`.  Cancelled part way, it has done so for the first few streams.
   */
  method WriteTick(ctx: Context, streams: seq<BarStream>, slab: array<SliceBar>, n0: nat, t: int, open: int,
                   polls0: nat, ghost pos: Cursor, ghost full: seq<SliceBar>)
    returns (n: nat, polls: nat, ghost visited: nat)
    requires Distinct(streams) && Within(Contents(streams), pos) && At(streams, pos)
    requires Holds(slab, n0, full)
    requires Next(full, n0, Round(Contents(streams), pos, t, |streams|), t, open)
    modifies streams, slab
    ensures Holds(slab, n, full) && polls == polls0 + visited && ctx.StopsBy(polls0, polls)
    ensures visited <= |streams| && Visited(streams, Contents(streams), pos, t, visited)
    ensures n == n0 + DueCount(Contents(streams), pos, t, visited)
    ensures !ctx.Err(polls) ==> visited == |streams| && At(streams, Step(Contents(streams), pos, t))
  {
    ghost var ss := Contents(streams);
    n, polls, visited := n0, polls0, 0;
    for k := 0 to |streams|
      invariant polls == polls0 + k && visited == k && n == n0 + DueCount(ss, pos, t, k)
      invariant ctx.StopsBy(polls0, polls)
      invariant Holds(slab, n, full) && Visited(streams, ss, pos, t, k)
    {
      if ctx.Err(polls) { return; }
      n := WriteOne(streams, slab, k, n, t, open, pos, full, n0);
      polls, visited := polls + 1, k + 1;
    }
  }

  /** The assembly loop's body: finds the next tick and writes it, or finds there is none. */
  method AssembleTick(ctx: Context, streams: seq<BarStream>, slab: array<SliceBar>, n0: nat, polls0: nat,
                      sessionOpen: int -> int, ghost stage: Stage, ghost full: seq<SliceBar>)
    returns (found: bool, n: nat, polls: nat, ghost next: Stage)
    requires Distinct(streams) && stage.ss == Contents(streams) && At(streams, stage.pos) && stage.n == n0
    requires full == Stamp(Merge(stage.ss, Start(stage.ss)), sessionOpen) && Holds(slab, n0, full)
    modifies streams, slab
    ensures Holds(slab, n, full) && polls0 <= polls && ctx.StopsBy(polls0, polls)
    ensures if found then stage.groups < Rounds(stage.ss, Start(stage.ss))
            else n == |full| && stage.groups == Rounds(stage.ss, Start(stage.ss)) && polls == polls0
    ensures found && !ctx.Err(polls) ==>
      && next.ss == stage.ss && next.n == n && next.groups == stage.groups + 1 && At(streams, next.pos)
      && Remaining(stage.ss, next.pos, |stage.ss|) < Remaining(stage.ss, stage.pos, |stage.ss|)
  {
    next := stage;
    var min := NextMinTime(streams, stage.pos);
    if min.None? {
      LastStage(stage);
      return false, n0, polls0, stage;
    }
    found := true;
    var t := min.value;
    next := NextStage(stage, t);
    StageWrites(stage, t, sessionOpen);
    ghost var visited;
    n, polls, visited := WriteTick(ctx, streams, slab, n0, t, sessionOpen(t), polls0, stage.pos, full);
    RoundAt(stage.ss, stage.pos, t, 0, |stage.ss|);
  }

  /**
   Assembles the slab.  Left alone, it writes the whole merge, fills the slab exactly and
   counts the ticks; cancelled, it has written a prefix of that.  Every write is inside
   the capacity reserved up front.
   */
  method Assemble(ctx: Context, streams: seq<BarStream>, sessionOpen: int -> int)
    returns (slab: array<SliceBar>, n: nat, groups: nat, polls: nat)
    requires Distinct(streams) && forall s | s in streams :: s.idx == 0
    modifies streams
    ensures Holds(slab, n, Stamp(Merge(Contents(streams), Start(Contents(streams))), sessionOpen))
    ensures groups <= Rounds(Contents(streams), Start(Contents(streams)))
    ensures ctx.StopsBy(0, polls)
    ensures ctx.cancelAt.None? || polls < ctx.cancelAt.value ==>
      n == slab.Length && groups == Rounds(Contents(streams), Start(Contents(streams)))
  {
    ghost var ss := Contents(streams);
    ghost var full := Stamp(Merge(ss, Start(ss)), sessionOpen);
    var total := TotalBars(streams);
    slab := new SliceBar[total];
    n, groups, polls := 0, 0, 0;
    ghost var stage: Stage := FirstStage(ss);
    while !ctx.Err(polls)
      invariant Holds(slab, n, full) && At(streams, stage.pos)
      invariant ctx.StopsBy(0, polls)
      invariant stage.ss == ss && stage.n == n && stage.groups == groups <= Rounds(ss, Start(ss))
      decreases Remaining(ss, stage.pos, |ss|)
    {
      var found;
      ghost var next;
      found, n, polls, next := AssembleTick(ctx, streams, slab, n, polls + 1, sessionOpen, stage, full);
      if !found { break; }
      groups := groups + 1;
      if ctx.Err(polls) { break; }  // the loop test, which would read the same poll
      stage := next;
    }
  }

  /** `groups` ticks into the merge of `ss`, `n` bars have been written and the cursor is at `pos`. */
  datatype MergeStage = MergeStage(ss: Streams, n: nat, groups: nat, pos: Cursor)

  ghost predicate Reached(s: MergeStage) {
    var all := Merge(s.ss, Start(s.ss));
    && Within(s.ss, s.pos)
    && s.n <= |all| && all[s.n..] == Merge(s.ss, s.pos)
    && s.groups + Rounds(s.ss, s.pos) == Rounds(s.ss, Start(s.ss))
  }

  type Stage = s: MergeStage | Reached(s) ghost witness MergeStage([], 0, 0, [])

  lemma FirstStage(ss: Streams) returns (s: Stage)
    ensures s == MergeStage(ss, 0, 0, Start(ss))
    ensures |Merge(ss, Start(ss))| == Remaining(ss, Start(ss), |ss|)
  {
    MergeLength(ss, Start(ss));
    s := MergeStage(ss, 0, 0, Start(ss));
  }

  lemma LastStage(s: Stage)
    requires IsMinHead(s.ss, s.pos, |s.ss|, None)
    ensures s.n == |Merge(s.ss, Start(s.ss))| && s.groups == Rounds(s.ss, Start(s.ss))
  {
    MinHeadUnique(s.ss, s.pos, None);
  }

  /** The slab goes on with the round at the earliest head time. */
  lemma StageWrites(s: Stage, t: int, sessionOpen: int -> int)
    requires IsMinHead(s.ss, s.pos, |s.ss|, Some(t))
    ensures Next(Stamp(Merge(s.ss, Start(s.ss)), sessionOpen), s.n, Round(s.ss, s.pos, t, |s.ss|), t, sessionOpen(t))
  {
    MinHeadUnique(s.ss, s.pos, Some(t));
    MergeNext(s.ss, s.pos, t);
    var round := Round(s.ss, s.pos, t, |s.ss|);
    RoundShape(s.ss, s.pos, t, |s.ss|);
    StampRound(Merge(s.ss, Start(s.ss)), s.n, round, Merge(s.ss, Step(s.ss, s.pos, t)), t, sessionOpen);
  }

  lemma NextStage(s: Stage, t: int) returns (next: Stage)
    requires IsMinHead(s.ss, s.pos, |s.ss|, Some(t))
    ensures next == MergeStage(s.ss, s.n + |Round(s.ss, s.pos, t, |s.ss|)|, s.groups + 1, Step(s.ss, s.pos, t))
    ensures Remaining(s.ss, next.pos, |s.ss|) < Remaining(s.ss, s.pos, |s.ss|)
    ensures s.groups < Rounds(s.ss, Start(s.ss))
  {
    MinHeadUnique(s.ss, s.pos, Some(t));
    MergeNext(s.ss, s.pos, t);
    var all := Merge(s.ss, Start(s.ss));
    var round, pos := Round(s.ss, s.pos, t, |s.ss|), Step(s.ss, s.pos, t);
    DropRound(all, s.n, round, Merge(s.ss, pos));
    next := NewStage(s.ss, s.n + |round|, s.groups + 1, pos, all);
  }

  lemma MergeNext(ss: Streams, pos: Cursor, t: int)
    requires Within(ss, pos) && MinHead(ss, pos, |ss|) == Some(t)
    ensures var next := Step(ss, pos, t);
      && Merge(ss, pos) == Round(ss, pos, t, |ss|) + Merge(ss, next) && Rounds(ss, pos) == Rounds(ss, next) + 1
      && Remaining(ss, next, |ss|) < Remaining(ss, pos, |ss|)
  {
    Progress(ss, pos, t);
  }

  lemma NewStage(ss: Streams, n: nat, groups: nat, pos: Cursor, all: seq<Entry>) returns (s: Stage)
    requires all == Merge(ss, Start(ss)) && Within(ss, pos)
    requires n <= |all| && all[n..] == Merge(ss, pos) && groups + Rounds(ss, pos) == Rounds(ss, Start(ss))
    ensures s == MergeStage(ss, n, groups, pos)
  {
    s := MergeStage(ss, n, groups, pos);
  }

  lemma StampRound(all: seq<Entry>, n: nat, round: seq<Entry>, rest: seq<Entry>, t: int, sessionOpen: int -> int)
    requires n <= |all| && all[n..] == round + rest && forall e | e in round :: e.bar.time == t
    ensures n + |round| <= |all| && all[n + |round|..] == rest
    ensures Next(Stamp(all, sessionOpen), n, round, t, sessionOpen(t))
  {
    DropRound(all, n, round, rest);
  }

  lemma DropRound(all: seq<Entry>, n: nat, round: seq<Entry>, rest: seq<Entry>)
    requires n <= |all| && all[n..] == round + rest
    ensures n + |round| <= |all| && all[n + |round|..] == rest
    ensures forall a | 0 <= a < |round| :: all[n + a] == round[a] && round[a] in round
  {
    assert all[n + |round|..] == all[n..][|round|..];
    forall a | 0 <= a < |round|
      ensures all[n + a] == round[a]
    {
      assert all[n + a] == all[n..][a];
    }
  }

  method TotalBars(streams: seq<BarStream>) returns (total: nat)
    ensures total == Remaining(Contents(streams), Start(Contents(streams)), |streams|)
  {
    total := 0;
    for k := 0 to |streams|
      invariant total == Remaining(Contents(streams), Start(Contents(streams)), k)
    {
      total := total + |streams[k].bars|;
    }
  }
}
