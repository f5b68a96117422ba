/**
 The systemd watchdog loop: which ticks send a heartbeat, and when systemd must restart the
 process because the equity feed has stopped.  Times are nanoseconds.
 */
module Watchdog {
  import opened Wrappers

  const SECOND: int := 1_000_000_000
  const MAX_AGE: int := 90 * SECOND
  const STALE_CUTOFF: int := 300 * SECOND
  const WINDOW: int := STALE_CUTOFF - MAX_AGE

  /** The feed looks wedged: stale, but not for so long that the session must be over. */
  predicate Wedged(age: int) {
    MAX_AGE < age < STALE_CUTOFF
  }

  /** No bar yet is None. */
  function ShouldSkip(lastBar: Option<int>, now: int): (bool, int) {
    if lastBar.None? then (false, 0) else (Wedged(now - lastBar.value), now - lastBar.value)
  }

  /** A tick of the loop, and the last bar the health reporter then knows of. */
  datatype Tick = Tick(now: int, lastBar: Option<int>)

  predicate Skips(t: Tick) {
    ShouldSkip(t.lastBar, t.now).0
  }

  /** A tick is skipped exactly when there was a bar, more than 90 and less than 300 seconds ago; its age is told. */
  lemma SkipIff(t: Tick)
    ensures Skips(t) <==> t.lastBar.Some? && 90_000_000_000 < t.now - t.lastBar.value < 300_000_000_000
    ensures ShouldSkip(t.lastBar, t.now).1 == if t.lastBar.Some? then t.now - t.lastBar.value else 0
  {}

  /** The heartbeats of the first `n` ticks. */
  function Beats(ticks: seq<Tick>, n: nat): seq<int>
    requires n <= |ticks|
  {
    if n == 0 then []
    else if Skips(ticks[n - 1]) then Beats(ticks, n - 1)
    else Beats(ticks, n - 1) + [ticks[n - 1].now]
  }

  /** The loop over the ticker, up to cancellation. */
  method Notify(ticks: seq<Tick>) returns (beats: seq<int>)
    ensures beats == Beats(ticks, |ticks|)
  {
    beats := [];
    for i := 0 to |ticks|
      invariant beats == Beats(ticks, i)
    {
      var (skip, age) := ShouldSkip(ticks[i].lastBar, ticks[i].now);
      if skip { continue; }
      beats := beats + [ticks[i].now];
    }
  }

  /** A time is a heartbeat exactly when some tick at it is not skipped. */
  lemma {:induction false} BeatIff(ticks: seq<Tick>, n: nat, time: int)
    requires n <= |ticks|
    ensures time in Beats(ticks, n) <==> exists i | 0 <= i < n :: ticks[i].now == time && !Skips(ticks[i])
  {
    if n > 0 { BeatIff(ticks, n - 1, time); }
  }

  /** Before the first bar every tick is a heartbeat. */
  lemma {:induction false} WarmupBeats(ticks: seq<Tick>, n: nat)
    requires n <= |ticks| && forall i | 0 <= i < n :: ticks[i].lastBar.None?
    ensures |Beats(ticks, n)| == n && forall i | 0 <= i < n :: Beats(ticks, n)[i] == ticks[i].now
  {
    if n > 0 { WarmupBeats(ticks, n - 1); }
  }

  ghost predicate InOrder(ticks: seq<Tick>) {
    forall i, j | 0 <= i < j < |ticks| :: ticks[i].now < ticks[j].now
  }

  /** From tick `f` on, no bar after the one at `last` arrives. */
  ghost predicate Frozen(ticks: seq<Tick>, f: nat, last: int) {
    forall i | f <= i < |ticks| :: ticks[i].lastBar == Some(last)
  }

  /** Over a frozen feed, heartbeats with a skipped tick between them are at least 210 seconds apart. */
  lemma SkipSpreadsBeats(ticks: seq<Tick>, f: nat, last: int, a: nat, b: nat, c: nat)
    requires InOrder(ticks) && Frozen(ticks, f, last) && f <= a < b < c < |ticks|
    requires !Skips(ticks[a]) && Skips(ticks[b]) && !Skips(ticks[c])
    ensures ticks[c].now - ticks[a].now >= 210 * SECOND
  {}

  /** A feed five minutes old or more never causes a skip. */
  lemma OldNeverSkips(t: Tick)
    requires t.lastBar.Some? && t.now - t.lastBar.value >= STALE_CUTOFF
    ensures !Skips(t)
  {}

  /** After the heartbeat of tick `a` there is none for the whole watchdog interval. */
  ghost predicate Expires(ticks: seq<Tick>, a: nat, interval: int) {
    && a < |ticks| && ticks[a].now in Beats(ticks, |ticks|)
    && ticks[|ticks| - 1].now > ticks[a].now + interval
    && forall time | time in Beats(ticks, |ticks|) :: !(ticks[a].now < time <= ticks[a].now + interval)
  }

  /** The last tick from `f` on at which the feed still looks healthy. */
  lemma LastHealthy(ticks: seq<Tick>, f: nat, last: int) returns (a: nat)
    requires InOrder(ticks) && Frozen(ticks, f, last)
    requires f < |ticks| && ticks[f].now - last <= MAX_AGE && ticks[|ticks| - 1].now - last > MAX_AGE
    ensures f <= a < |ticks| - 1 && ticks[a].now - last <= MAX_AGE < ticks[a + 1].now - last
  {
    a := f;
    while ticks[a + 1].now - last <= MAX_AGE
      invariant f <= a < |ticks| - 1 && ticks[a].now - last <= MAX_AGE
      decreases |ticks| - a
    {
      a := a + 1;
    }
  }

  /** Once a healthy feed freezes, any interval under 210 seconds expires, if ticks come less than 210 seconds apart. */
  lemma FrozenFeedExpires(ticks: seq<Tick>, f: nat, last: int, interval: int)
    requires InOrder(ticks) && Frozen(ticks, f, last) && 0 <= interval < WINDOW
    requires f < |ticks| && ticks[f].now - last <= MAX_AGE && ticks[|ticks| - 1].now - last >= STALE_CUTOFF
    requires forall i | 0 <= i < |ticks| - 1 :: ticks[i + 1].now - ticks[i].now < WINDOW
    ensures exists a: nat :: f <= a && Expires(ticks, a, interval)
  {
    var a := LastHealthy(ticks, f, last);
    var start := ticks[a].now;
    BeatIff(ticks, |ticks|, start);
    assert !Skips(ticks[a]) && Skips(ticks[a + 1]);
    forall time | time in Beats(ticks, |ticks|)
      ensures !(start < time <= start + interval)
    {
      BeatIff(ticks, |ticks|, time);
      var c :| 0 <= c < |ticks| && ticks[c].now == time && !Skips(ticks[c]);
      if c > a {
        SkipSpreadsBeats(ticks, f, last, a, a + 1, c);
      }
    }
    assert Expires(ticks, a, interval);
  }

  // ---- Which intervals catch every freeze ----

  function AgeAt(age: int, heartbeat: int, j: nat): int {
    age + j * heartbeat
  }

  /** A last healthy tick at age `age`, then one every half interval: none beats within the interval. */
  ghost predicate PhaseExpires(age: int, interval: int) {
    forall j: nat | j >= 1 && AgeAt(0, interval / 2, j) <= interval :: Wedged(AgeAt(age, interval / 2, j))
  }

  lemma Few(j: nat, h: int)
    requires h >= 1 && j * h <= 2 * h + 1
    ensures j <= 2 || (h == 1 && j == 3)
  {
    if j >= 3 && h >= 2 { Multiples(j - 3, h); }
  }

  lemma Multiples(n: nat, h: int)
    requires h >= 0
    ensures (n + 3) * h >= 3 * h
  {}

  lemma PhaseExpiresIff(age: int, interval: int)
    requires interval >= 2 && age <= MAX_AGE < age + interval / 2
    ensures PhaseExpires(age, interval) <==> age + 2 * (interval / 2) < STALE_CUTOFF
  {
    var h := interval / 2;
    assert AgeAt(0, h, 2) == 2 * h && AgeAt(age, h, 2) == age + 2 * h;
    if age + 2 * h < STALE_CUTOFF {
      forall j: nat | j >= 1 && AgeAt(0, h, j) <= interval
        ensures Wedged(AgeAt(age, h, j))
      {
        Few(j, h);
      }
    }
  }

  /** From tick `a` on, ticks come every half interval. */
  ghost predicate Regular(ticks: seq<Tick>, a: nat, interval: int) {
    a < |ticks| && forall j: nat | a + j < |ticks| :: ticks[a + j].now == AgeAt(ticks[a].now, interval / 2, j)
  }

  /** The loop's ticks over a feed frozen at `last`, tick `a` being the last at which it looks healthy. */
  ghost predicate FrozenTrain(ticks: seq<Tick>, a: nat, last: int, interval: int) {
    && InOrder(ticks) && Frozen(ticks, a, last) && Regular(ticks, a, interval)
    && ticks[a].now - last <= MAX_AGE < ticks[a].now - last + interval / 2
    && ticks[|ticks| - 1].now > ticks[a].now + interval
  }

  lemma TickAt(ticks: seq<Tick>, a: nat, last: int, interval: int, j: nat)
    requires FrozenTrain(ticks, a, last, interval) && a + j < |ticks|
    ensures ticks[a + j].now == ticks[a].now + AgeAt(0, interval / 2, j)
    ensures Skips(ticks[a + j]) <==> Wedged(AgeAt(ticks[a].now - last, interval / 2, j))
  {
    assert ticks[a + j].now == AgeAt(ticks[a].now, interval / 2, j);
  }

  /** The heartbeats of such a train lapse for the whole interval exactly when the ages of its ticks say so. */
  lemma TrainExpiresIff(ticks: seq<Tick>, a: nat, last: int, interval: int)
    requires interval >= 2 && FrozenTrain(ticks, a, last, interval)
    ensures Expires(ticks, a, interval) <==> PhaseExpires(ticks[a].now - last, interval)
  {
    var start, age, h := ticks[a].now, ticks[a].now - last, interval / 2;
    BeatIff(ticks, |ticks|, start);
    assert !Skips(ticks[a]);
    if Expires(ticks, a, interval) {
      forall j: nat | j >= 1 && AgeAt(0, h, j) <= interval
        ensures Wedged(AgeAt(age, h, j))
      {
        WithinTrain(ticks, a, last, interval, j);
        TickAt(ticks, a, last, interval, j);
        BeatIff(ticks, |ticks|, ticks[a + j].now);
        Positive(j, h);
      }
    }
    if PhaseExpires(age, interval) {
      forall time | time in Beats(ticks, |ticks|)
        ensures !(start < time <= start + interval)
      {
        BeatIff(ticks, |ticks|, time);
        var c :| 0 <= c < |ticks| && ticks[c].now == time && !Skips(ticks[c]);
        if c > a { TickAt(ticks, a, last, interval, c - a); }
      }
    }
  }

  lemma Positive(j: nat, h: int)
    requires j >= 1 && h >= 1
    ensures AgeAt(0, h, j) > 0
  {}

  /** A tick due within the interval is one of the train. */
  lemma WithinTrain(ticks: seq<Tick>, a: nat, last: int, interval: int, j: nat)
    requires interval >= 2 && FrozenTrain(ticks, a, last, interval) && AgeAt(0, interval / 2, j) <= interval
    ensures a + j < |ticks|
  {
    var n: nat := |ticks| - 1 - a;
    TickAt(ticks, a, last, interval, n);
    if j > n { Monotone(n, j, interval / 2); }
  }

  lemma Monotone(n: nat, j: nat, h: int)
    requires n <= j && h >= 0
    ensures AgeAt(0, h, n) <= AgeAt(0, h, j)
  {
    assert j * h == n * h + (j - n) * h;
    assert (j - n) * h >= 0;
  }

  /** Which freezes an interval catches: those whose tick two heartbeats on is still under five minutes old. */
  lemma FreezeExpiresIff(ticks: seq<Tick>, a: nat, last: int, interval: int)
    requires interval >= 2 && FrozenTrain(ticks, a, last, interval)
    ensures Expires(ticks, a, interval) <==> ticks[a].now - last + 2 * (interval / 2) < STALE_CUTOFF
  {
    TrainExpiresIff(ticks, a, last, interval);
    PhaseExpiresIff(ticks[a].now - last, interval);
  }

  /** The train whose last healthy tick is just 90 seconds old. */
  lemma LatestTrain(interval: int) returns (ticks: seq<Tick>)
    requires interval >= 2
    ensures FrozenTrain(ticks, 0, -MAX_AGE, interval) && ticks[0].now == 0
  {
    var h := interval / 2;
    ticks := [Tick(0, Some(-MAX_AGE)), Tick(h, Some(-MAX_AGE)), Tick(2 * h, Some(-MAX_AGE)),
              Tick(3 * h, Some(-MAX_AGE)), Tick(4 * h, Some(-MAX_AGE))];
    forall j: nat | 0 + j < |ticks|
      ensures ticks[0 + j].now == AgeAt(ticks[0].now, h, j)
    {
      assert j == 0 || j == 1 || j == 2 || j == 3 || j == 4;
    }
  }

  /** Every freeze is caught, however it falls between ticks: exactly for intervals under 210 seconds. */
  lemma EveryFreezeExpiresIff(interval: int)
    requires interval >= 2
    ensures interval < 210 * SECOND <==>
      forall ticks: seq<Tick>, a: nat, last | FrozenTrain(ticks, a, last, interval) :: Expires(ticks, a, interval)
  {
    var latest := LatestTrain(interval);
    FreezeExpiresIff(latest, 0, -MAX_AGE, interval);
    forall ticks: seq<Tick>, a: nat, last | FrozenTrain(ticks, a, last, interval)
      ensures interval < 210 * SECOND ==> Expires(ticks, a, interval)
    {
      FreezeExpiresIff(ticks, a, last, interval);
    }
  }
}
