/**
 The replay clock: at the first tick of a new session it resets the session aggregators.
 The code compares each tick's session only with the latest one seen, so it is right
 exactly when the ticks it is fed are chronological, which is what the merge provides.
 Sessions are named by their opening instant.
 */
module ReplayClock {
  import RM = ReplayMerge

  function Later(a: int, b: int): int {
    if b > a then b else a
  }

  /** The current session after ticks in `days`, starting from session `day`. */
  ghost function DayAfter(day: int, days: seq<int>): int
    decreases days
  {
    if days == [] then day else DayAfter(Later(day, days[0]), days[1..])
  }

  /** The sessions the aggregators are reset for. */
  ghost function Rollovers(day: int, days: seq<int>): seq<int>
    decreases days
  {
    if days == [] then []
    else (if days[0] > day then [days[0]] else []) + Rollovers(Later(day, days[0]), days[1..])
  }

  ghost function Sessions(open: int -> int, ticks: seq<int>): (days: seq<int>)
    ensures |days| == |ticks| && forall a | 0 <= a < |ticks| :: days[a] == open(ticks[a])
  {
    seq(|ticks|, a requires 0 <= a < |ticks| => open(ticks[a]))
  }

  class Clock {
    var now: int
    var currentDay: int
    var resets: seq<int>

    constructor (day: int)
      ensures currentDay == day && resets == []
    {
      now, currentDay, resets := 0, day, [];
    }

    method OnTickBegin(tick: int, open: int -> int)
      modifies this
      ensures now == tick && currentDay == Later(old(currentDay), open(tick))
      ensures resets == old(resets) + if open(tick) > old(currentDay) then [open(tick)] else []
    {
      now := tick;
      var dayOpen := open(tick);
      if dayOpen > currentDay {
        resets := resets + [dayOpen];
        currentDay := dayOpen;
      }
    }

    method Replay(ticks: seq<int>, open: int -> int)
      modifies this
      ensures currentDay == DayAfter(old(currentDay), Sessions(open, ticks))
      ensures resets == old(resets) + Rollovers(old(currentDay), Sessions(open, ticks))
    {
      ghost var days, day0 := Sessions(open, ticks), currentDay;
      for k := 0 to |ticks|
        invariant DayAfter(currentDay, days[k..]) == DayAfter(day0, days)
        invariant resets + Rollovers(currentDay, days[k..]) == old(resets) + Rollovers(day0, days)
      {
        assert days[k..][1..] == days[k + 1..];
        OnTickBegin(ticks[k], open);
      }
    }
  }

  ghost predicate NeverGoesBack(day: int, days: seq<int>) {
    && (forall a, b | 0 <= a <= b < |days| :: days[a] <= days[b])
    && (forall a | 0 <= a < |days| :: day <= days[a])
  }

  /** The clock stands at the latest session among the start and every tick, whatever their order. */
  lemma {:induction false} DayAfterIsLatest(day: int, days: seq<int>)
    ensures var d := DayAfter(day, days);
      && (d == day || d in days) && day <= d && (forall e | e in days :: e <= d)
    decreases days
  {
    if days != [] {
      DayAfterIsLatest(Later(day, days[0]), days[1..]);
      assert forall e | e in days :: e == days[0] || e in days[1..];
    }
  }

  ghost predicate Ascending(r: seq<int>) {
    forall a, b | 0 <= a < b < |r| :: r[a] < r[b]
  }

  lemma AscendingCons(d: int, rest: seq<int>)
    requires Ascending(rest) && forall e | e in rest :: d < e
    ensures Ascending([d] + rest)
  {
    forall b | 0 <= b < |rest|
      ensures d < rest[b]
    {
      assert rest[b] in rest;
    }
  }

  /** No session is reset twice and none is reset out of order, for any ticks at all. */
  lemma {:induction false} ResetsIncrease(day: int, days: seq<int>)
    ensures Ascending(Rollovers(day, days))
    ensures forall d | d in Rollovers(day, days) :: day < d && d in days
    decreases days
  {
    if days != [] {
      var next := Later(day, days[0]);
      ResetsIncrease(next, days[1..]);
      if days[0] > day { AscendingCons(days[0], Rollovers(next, days[1..])); }
    }
  }

  /** Every tick is processed under its own session exactly when sessions never go back. */
  lemma EachTickInItsSessionIff(day: int, days: seq<int>)
    ensures (forall k | 0 <= k < |days| :: DayAfter(day, days[..k + 1]) == days[k]) <==> NeverGoesBack(day, days)
  {
    forall k | 0 <= k < |days|
      ensures DayAfter(day, days[..k + 1]) == days[k] <==>
        day <= days[k] && forall a | 0 <= a <= k :: days[a] <= days[k]
    {
      var upTo := days[..k + 1];
      DayAfterIsLatest(day, upTo);
      assert forall a | 0 <= a <= k :: days[a] == upTo[a] && upTo[a] in upTo;
    }
  }

  /** Chronological ticks reset the aggregators for each later session, once. */
  lemma {:induction false} EverySessionReset(day: int, days: seq<int>)
    requires forall a, b | 0 <= a <= b < |days| :: days[a] <= days[b]
    ensures forall d | d in days && d > day :: d in Rollovers(day, days)
    decreases days
  {
    if days != [] {
      EverySessionReset(Later(day, days[0]), days[1..]);
    }
  }

  ghost predicate Interleaves(es: seq<RM.Entry>, ss: RM.Streams) {
    && (forall e | e in es :: e.src < |ss|)
    && (forall i: nat | i < |ss| :: RM.OfStream(es, i) == ss[i])
  }

  ghost function SessionsOf(open: int -> int, es: seq<RM.Entry>): (days: seq<int>)
    ensures |days| == |es| && forall a | 0 <= a < |es| :: days[a] == open(es[a].bar.time)
  {
    seq(|es|, a requires 0 <= a < |es| => open(es[a].bar.time))
  }

  lemma {:induction false} EntryFrom(es: seq<RM.Entry>, a: nat)
    requires a < |es|
    ensures es[a].bar in RM.OfStream(es, es[a].src)
  {
    if a < |es| - 1 {
      EntryFrom(es[..|es| - 1], a);
    }
  }

  lemma SessionsAreBarSessions(open: int -> int, es: seq<RM.Entry>, ss: RM.Streams)
    requires Interleaves(es, ss)
    ensures forall d :: d in SessionsOf(open, es) <==> exists i, b :: 0 <= i < |ss| && b in ss[i] && open(b.time) == d
  {
    var days := SessionsOf(open, es);
    forall d | d in days
      ensures exists i, b :: 0 <= i < |ss| && b in ss[i] && open(b.time) == d
    {
      var a :| 0 <= a < |es| && days[a] == d;
      EntryFrom(es, a);
      assert es[a] in es && es[a].bar in ss[es[a].src];
    }
    forall i: nat, b | i < |ss| && b in ss[i]
      ensures open(b.time) in days
    {
      RM.OfStreamFrom(es, i);
      var a :| 0 <= a < |es| && es[a] == RM.Entry(i, b);
      assert days[a] == open(b.time);
    }
  }

  /**
   End to end: chronological streams, merged and then replayed from session `day`, reset the
   aggregators exactly once for each later session that has a bar, in order.
   */
  lemma ReplayResets(open: int -> int, day: int, ss: RM.Streams)
    requires forall i | 0 <= i < |ss| :: RM.NonDecreasing(ss[i])
    requires forall t, t' :: t <= t' ==> open(t) <= open(t')
    ensures var r := Rollovers(day, SessionsOf(open, RM.Merge(ss, RM.Start(ss))));
      && Ascending(r)
      && (forall d :: d in r <==> d > day && exists i, b :: 0 <= i < |ss| && b in ss[i] && open(b.time) == d)
  {
    RM.ChronologicalIff(ss);
    RM.MergeIsInterleaving(ss);
    SortedResets(open, day, RM.Merge(ss, RM.Start(ss)), ss);
  }

  lemma SortedResets(open: int -> int, day: int, es: seq<RM.Entry>, ss: RM.Streams)
    requires Interleaves(es, ss) && RM.TimeSorted(es)
    requires forall t, t' :: t <= t' ==> open(t) <= open(t')
    ensures var r := Rollovers(day, SessionsOf(open, es));
      && Ascending(r)
      && (forall d :: d in r <==> d > day && exists i, b :: 0 <= i < |ss| && b in ss[i] && open(b.time) == d)
  {
    var days := SessionsOf(open, es);
    ResetsIncrease(day, days);
    EverySessionReset(day, days);
    SessionsAreBarSessions(open, es, ss);
  }
}
