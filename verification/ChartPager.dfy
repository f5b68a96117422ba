/**
 Backward pagination of the chart: each attempt fetches the window below an internal cursor,
 an empty answer widens the next window exponentially and retries, up to a limit.
 Times are in seconds.
 */
module ChartPager {
  import opened Wrappers

  const FETCH_WINDOW := 300
  const MAX_WINDOW_SCALE := 6
  const MAX_AUTO_RETRIES := 10

  /** A window fetched and the answer: a number of rows, or -1 for an error. */
  datatype Window = Window(from: int, to: int, rows: int)

  /** The two refs the hook keeps: how far back it has paged, and the run of empty answers. */
  datatype Paging = Paging(cursor: Option<int>, emptyFetchCount: nat)

  /** The answers to a call's fetches. */
  type Fetch = nat -> int

  function Pow2(n: nat): (p: nat)
    ensures p >= 1
  {
    if n == 0 then 1 else 2 * Pow2(n - 1)
  }

  function Scale(emptyFetchCount: nat): nat {
    Pow2(if emptyFetchCount < MAX_WINDOW_SCALE then emptyFetchCount else MAX_WINDOW_SCALE)
  }

  /** The window an attempt fetches. */
  ghost function NextWindow(p: Paging, beforeTs: int, base: nat, rows: int): Window {
    var to := if p.cursor.Some? && p.cursor.value < beforeTs then p.cursor.value else beforeTs;
    Window(to - base * Scale(p.emptyFetchCount), to, rows)
  }

  ghost function AfterFetch(p: Paging, w: Window): Paging {
    Paging(Some(w.from), if w.rows < 0 then p.emptyFetchCount else if w.rows == 0 then p.emptyFetchCount + 1 else 0)
  }

  /** The retry chain of one loadMore call, from attempt `i` on: the final refs and the windows fetched. */
  ghost function Chain(p: Paging, beforeTs: int, base: nat, fetch: Fetch, i: nat): (Paging, seq<Window>)
    decreases MAX_AUTO_RETRIES - p.emptyFetchCount
  {
    var w := NextWindow(p, beforeTs, base, fetch(i));
    var p' := AfterFetch(p, w);
    if fetch(i) == 0 && p'.emptyFetchCount < MAX_AUTO_RETRIES then
      var (last, ws) := Chain(p', beforeTs, base, fetch, i + 1);
      (last, [w] + ws)
    else (p', [w])
  }

  class Pager {
    const mins: nat
    var loadMoreCursorRef: Option<int>
    var emptyFetchCountRef: nat

    ghost function Abs(): Paging
      reads this
    {
      Paging(loadMoreCursorRef, emptyFetchCountRef)
    }

    constructor (mins: nat)
      ensures this.mins == mins && Abs() == Paging(None, 0)
    {
      this.mins, loadMoreCursorRef, emptyFetchCountRef := mins, None, 0;
    }

    /** One attempt, given what its fetch answers: a window, and the refs moved on. */
    method Attempt(beforeTs: int, count: int) returns (w: Window)
      modifies this
      ensures w == NextWindow(old(Abs()), beforeTs, 300 * mins * 60, count)
      ensures Abs() == AfterFetch(old(Abs()), w)
    {
      var cursor := loadMoreCursorRef;
      var effectiveTo := if cursor.Some? && cursor.value < beforeTs then cursor.value else beforeTs;
      var baseWindow := FETCH_WINDOW * mins * 60;
      var from := effectiveTo - baseWindow * Scale(emptyFetchCountRef);
      loadMoreCursorRef := Some(from);
      if count == 0 {
        emptyFetchCountRef := emptyFetchCountRef + 1;
      } else if count > 0 {
        emptyFetchCountRef := 0;
      }
      w := Window(from, effectiveTo, count);
    }

    /** One loadMore call with its whole retry chain: it goes on while answers are empty, up to the limit. */
    method LoadMore(beforeTs: int, fetch: Fetch) returns (windows: seq<Window>)
      modifies this
      ensures (Abs(), windows) == Chain(old(Abs()), beforeTs, 300 * mins * 60, fetch, 0)
    {
      ghost var base := FETCH_WINDOW * mins * 60;
      ghost var all := Chain(Abs(), beforeTs, base, fetch, 0);
      ChainNext(Abs(), beforeTs, base, fetch, 0);
      var w := Attempt(beforeTs, fetch(0));
      windows := [w];
      var i := 0;
      while fetch(i) == 0 && emptyFetchCountRef < MAX_AUTO_RETRIES
        invariant all == if Retries(fetch(i), Abs()) then After(windows, Chain(Abs(), beforeTs, base, fetch, i + 1))
                         else (Abs(), windows)
        decreases fetch(i) == 0, MAX_AUTO_RETRIES - emptyFetchCountRef
      {
        i := i + 1;
        ChainNext(Abs(), beforeTs, base, fetch, i);
        w := Attempt(beforeTs, fetch(i));
        AfterJoins(windows, w, Chain(Abs(), beforeTs, base, fetch, i + 1));
        windows := windows + [w];
      }
    }
  }

  ghost predicate Retries(count: int, p: Paging) {
    count == 0 && p.emptyFetchCount < MAX_AUTO_RETRIES
  }

  ghost function After(windows: seq<Window>, rest: (Paging, seq<Window>)): (Paging, seq<Window>) {
    (rest.0, windows + rest.1)
  }

  lemma ChainNext(p: Paging, beforeTs: int, base: nat, fetch: Fetch, i: nat)
    ensures var w := NextWindow(p, beforeTs, base, fetch(i));
      Chain(p, beforeTs, base, fetch, i) ==
        if Retries(fetch(i), AfterFetch(p, w)) then After([w], Chain(AfterFetch(p, w), beforeTs, base, fetch, i + 1))
        else (AfterFetch(p, w), [w])
  {}

  lemma AfterJoins(windows: seq<Window>, w: Window, rest: (Paging, seq<Window>))
    ensures After(windows, After([w], rest)) == After(windows + [w], rest)
  {
    assert windows + ([w] + rest.1) == (windows + [w]) + rest.1;
  }

  // ---- One chain ----

  ghost predicate Contiguous(ws: seq<Window>) {
    forall i | 0 <= i < |ws| - 1 :: ws[i + 1].to == ws[i].from
  }

  ghost predicate Descending(ws: seq<Window>) {
    && (forall i | 0 <= i < |ws| :: ws[i].from < ws[i].to)
    && (forall i, j | 0 <= i < j < |ws| :: ws[j].to <= ws[i].from)
  }

  lemma WindowHasLength(p: Paging, beforeTs: int, base: nat, rows: int)
    requires base > 0
    ensures var w := NextWindow(p, beforeTs, base, rows);
      && w.from < w.to <= beforeTs
      && (p.cursor.Some? ==> w.to <= p.cursor.value)
  {
    ProductPositive(base, Scale(p.emptyFetchCount));
  }

  lemma ProductPositive(a: nat, b: nat)
    requires a > 0 && b > 0
    ensures a * b > 0
  {}

  lemma Summed(a: int, b: int, c: int, x: int, y: int)
    requires x == a * b + a * c && y == b + c
    ensures x == a * y
  {}

  /** A chain's windows are adjacent, each below the last, and the cursor ends at the lowest edge. */
  lemma {:induction false} ChainTiles(p: Paging, beforeTs: int, base: nat, fetch: Fetch, i: nat)
    requires base > 0
    ensures var (last, ws) := Chain(p, beforeTs, base, fetch, i);
      && ws != [] && ws[0] == NextWindow(p, beforeTs, base, fetch(i))
      && Contiguous(ws) && Descending(ws)
      && last.cursor == Some(ws[|ws| - 1].from)
    decreases MAX_AUTO_RETRIES - p.emptyFetchCount
  {
    WindowHasLength(p, beforeTs, base, fetch(i));
    var w := NextWindow(p, beforeTs, base, fetch(i));
    var p' := AfterFetch(p, w);
    if fetch(i) == 0 && p'.emptyFetchCount < MAX_AUTO_RETRIES {
      ChainTiles(p', beforeTs, base, fetch, i + 1);
      var (last, ws) := Chain(p', beforeTs, base, fetch, i + 1);
      assert ws[0] == NextWindow(p', beforeTs, base, fetch(i + 1));
      PrependWindow(w, ws);
    }
  }

  lemma PrependWindow(w: Window, ws: seq<Window>)
    requires ws != [] && Contiguous(ws) && Descending(ws) && w.from < w.to && ws[0].to == w.from
    ensures Contiguous([w] + ws) && Descending([w] + ws)
  {
    var all := [w] + ws;
    forall i, j | 0 <= i < j < |all|
      ensures all[j].to <= all[i].from
    {
      if i == 0 && j > 1 { assert ws[j - 1].to <= ws[0].from < ws[0].to; }
    }
  }

  /** Started with no empty answers behind it, a call makes at most ten fetches. */
  lemma {:induction false} ChainLength(p: Paging, beforeTs: int, base: nat, fetch: Fetch, i: nat)
    ensures |Chain(p, beforeTs, base, fetch, i).1| <=
      if p.emptyFetchCount < MAX_AUTO_RETRIES then MAX_AUTO_RETRIES - p.emptyFetchCount else 1
    decreases MAX_AUTO_RETRIES - p.emptyFetchCount
  {
    var p' := AfterFetch(p, NextWindow(p, beforeTs, base, fetch(i)));
    if fetch(i) == 0 && p'.emptyFetchCount < MAX_AUTO_RETRIES {
      ChainLength(p', beforeTs, base, fetch, i + 1);
    }
  }

  /** The base windows an all-empty chain spans from `n` empty answers on. */
  ghost function Reach(n: nat): nat
    decreases MAX_AUTO_RETRIES - n
  {
    Scale(n) + if n + 1 < MAX_AUTO_RETRIES then Reach(n + 1) else 0
  }

  /** The same in seconds. */
  ghost function Span(base: nat, n: nat): int
    decreases MAX_AUTO_RETRIES - n
  {
    base * Scale(n) + if n + 1 < MAX_AUTO_RETRIES then Span(base, n + 1) else 0
  }

  lemma {:induction false} SpanIsReach(base: nat, n: nat)
    ensures Span(base, n) == base * Reach(n)
    decreases MAX_AUTO_RETRIES - n
  {
    if n + 1 < MAX_AUTO_RETRIES {
      SpanIsReach(base, n + 1);
      Summed(base, Scale(n), Reach(n + 1), Span(base, n), Reach(n));
    }
  }

  lemma WindowSpan(p: Paging, beforeTs: int, base: nat, rows: int)
    ensures var w := NextWindow(p, beforeTs, base, rows); w.to - w.from == base * Scale(p.emptyFetchCount)
  {}

  /** An all-empty chain, one attempt at a time. */
  lemma EmptyNext(p: Paging, beforeTs: int, base: nat, fetch: Fetch, i: nat)
    requires base > 0 && p.emptyFetchCount + 1 < MAX_AUTO_RETRIES && fetch(i) == 0
    ensures var w := NextWindow(p, beforeTs, base, 0);
      var p' := Paging(Some(w.from), p.emptyFetchCount + 1);
      var (ws, more) := (Chain(p, beforeTs, base, fetch, i).1, Chain(p', beforeTs, base, fetch, i + 1).1);
      && more != [] && ws == [w] + more && more[0].to == w.from
  {
    var w := NextWindow(p, beforeTs, base, 0);
    ChainNext(p, beforeTs, base, fetch, i);
    WindowHasLength(p, beforeTs, base, 0);
    ChainTiles(AfterFetch(p, w), beforeTs, base, fetch, i + 1);
  }

  lemma {:induction false} AllEmptySpan(p: Paging, beforeTs: int, base: nat, fetch: Fetch, i: nat)
    requires base > 0 && p.emptyFetchCount < MAX_AUTO_RETRIES && forall k :: fetch(k) == 0
    ensures var ws := Chain(p, beforeTs, base, fetch, i).1;
      && |ws| == MAX_AUTO_RETRIES - p.emptyFetchCount
      && ws[0].to - ws[|ws| - 1].from == Span(base, p.emptyFetchCount)
    decreases MAX_AUTO_RETRIES - p.emptyFetchCount
  {
    var w := NextWindow(p, beforeTs, base, 0);
    WindowSpan(p, beforeTs, base, 0);
    if p.emptyFetchCount + 1 < MAX_AUTO_RETRIES {
      EmptyNext(p, beforeTs, base, fetch, i);
      AllEmptySpan(Paging(Some(w.from), p.emptyFetchCount + 1), beforeTs, base, fetch, i + 1);
    } else {
      ChainNext(p, beforeTs, base, fetch, i);
    }
  }

  lemma AllEmptyReach(p: Paging, beforeTs: int, base: nat, fetch: Fetch, i: nat)
    requires base > 0 && p.emptyFetchCount < MAX_AUTO_RETRIES && forall k :: fetch(k) == 0
    ensures var ws := Chain(p, beforeTs, base, fetch, i).1;
      && |ws| == MAX_AUTO_RETRIES - p.emptyFetchCount
      && ws[0].to - ws[|ws| - 1].from == base * Reach(p.emptyFetchCount)
  {
    AllEmptySpan(p, beforeTs, base, fetch, i);
    SpanIsReach(base, p.emptyFetchCount);
  }

  /** If every fetch is empty, ten windows scaled 1, 2, 4, ..., 64, 64, 64, 64 reach 319 base windows back. */
  lemma EmptyChainReaches319(cursor: Option<int>, beforeTs: int, base: nat, fetch: Fetch)
    requires base > 0 && forall k :: fetch(k) == 0
    ensures var ws := Chain(Paging(cursor, 0), beforeTs, base, fetch, 0).1;
      |ws| == 10 && ws[0].to - ws[9].from == 319 * base
  {
    AllEmptyReach(Paging(cursor, 0), beforeTs, base, fetch, 0);
    assert Pow2(2) == 4 && Pow2(3) == 8 && Pow2(4) == 16 && Pow2(5) == 32 && Pow2(6) == 64;
    assert Reach(9) == 64 && Reach(8) == 128 && Reach(7) == 192 && Reach(6) == 256;
    assert Reach(5) == 288 && Reach(4) == 304 && Reach(3) == 312 && Reach(2) == 316;
    assert Reach(1) == 318 && Reach(0) == 319;
  }

  // ---- Any run of calls ----

  datatype Call = Call(beforeTs: int, fetch: Fetch)

  /** The refs and all windows after calls that do not overlap in time. */
  ghost function Run(calls: seq<Call>, base: nat): (Paging, seq<Window>) {
    if calls == [] then (Paging(None, 0), [])
    else
      var (p, ws) := Run(calls[..|calls| - 1], base);
      var c := calls[|calls| - 1];
      var (p', more) := Chain(p, c.beforeTs, base, c.fetch, 0);
      (p', ws + more)
  }

  /** Every call but the first asks for at least the cursor it finds. */
  ghost predicate NeverSkips(calls: seq<Call>, base: nat) {
    forall k | 1 <= k < |calls| ::
      var cursor := Run(calls[..k], base).0.cursor;
      cursor.Some? && cursor.value <= calls[k].beforeTs
  }

  /**
   Over any run, whatever the calls ask for and however fetches fail, the windows only move back
   and never overlap: no instant is requested twice, not even one whose fetch failed.
   */
  lemma {:induction false} WindowsNeverRevisit(calls: seq<Call>, base: nat)
    requires base > 0
    ensures var (p, ws) := Run(calls, base);
      && Descending(ws)
      && if calls == [] then p.cursor == None && ws == []
         else ws != [] && p.cursor == Some(ws[|ws| - 1].from)
  {
    if calls != [] {
      var init, c := calls[..|calls| - 1], calls[|calls| - 1];
      WindowsNeverRevisit(init, base);
      var (p, ws) := Run(init, base);
      ChainTiles(p, c.beforeTs, base, c.fetch, 0);
      WindowHasLength(p, c.beforeTs, base, c.fetch(0));
      AppendDescending(ws, Chain(p, c.beforeTs, base, c.fetch, 0).1);
    }
  }

  lemma AppendDescending(a: seq<Window>, b: seq<Window>)
    requires Descending(a) && Descending(b) && b != []
    requires a != [] ==> b[0].to <= a[|a| - 1].from
    ensures Descending(a + b)
  {
    var all := a + b;
    forall i, j | 0 <= i < j < |all|
      ensures all[j].to <= all[i].from
    {
      if i < |a| <= j {
        assert i < |a| - 1 ==> a[|a| - 1].to <= a[i].from && a[|a| - 1].from < a[|a| - 1].to;
        assert j > |a| ==> b[j - |a|].to <= b[0].from && b[0].from < b[0].to;
      }
    }
  }

  /** The windows tile the past without a gap exactly when no later call asks for less than the cursor. */
  lemma {:induction false} TilesIff(calls: seq<Call>, base: nat)
    requires base > 0
    ensures Contiguous(Run(calls, base).1) <==> NeverSkips(calls, base)
  {
    if calls != [] {
      var init, c := calls[..|calls| - 1], calls[|calls| - 1];
      TilesIff(init, base);
      WindowsNeverRevisit(init, base);
      var (p, ws) := Run(init, base);
      var more := Chain(p, c.beforeTs, base, c.fetch, 0).1;
      ChainTiles(p, c.beforeTs, base, c.fetch, 0);
      AppendContiguous(ws, more);
      if init == [] {
        assert ws + more == more;
      } else {
        NeverSkipsSnoc(calls, base);
      }
    }
  }

  lemma NeverSkipsSnoc(calls: seq<Call>, base: nat)
    requires |calls| > 1
    ensures var (init, c) := (calls[..|calls| - 1], calls[|calls| - 1]);
      var cursor := Run(init, base).0.cursor;
      NeverSkips(calls, base) <==> NeverSkips(init, base) && cursor.Some? && cursor.value <= c.beforeTs
  {
    var init := calls[..|calls| - 1];
    forall k | 1 <= k < |init|
      ensures init[..k] == calls[..k] && init[k] == calls[k]
    {
      assert init[..k] == calls[..k];
    }
  }

  lemma AppendContiguous(a: seq<Window>, b: seq<Window>)
    requires a != [] && b != [] ==> Contiguous(b)
    ensures a != [] && b != [] ==> (Contiguous(a + b) <==> Contiguous(a) && b[0].to == a[|a| - 1].from)
  {
    if a != [] && b != [] {
      var all := a + b;
      assert forall i | 0 <= i < |a| :: all[i] == a[i];
      assert forall i | 0 <= i < |b| :: all[|a| + i] == b[i];
      if Contiguous(all) {
        assert all[|a| - 1 + 1].to == all[|a| - 1].from;
        forall i | 0 <= i < |a| - 1
          ensures a[i + 1].to == a[i].from
        {
          assert all[i + 1].to == all[i].from;
        }
      }
      if Contiguous(a) && b[0].to == a[|a| - 1].from {
        forall i | 0 <= i < |all| - 1
          ensures all[i + 1].to == all[i].from
        {
          if i >= |a| { assert b[i - |a| + 1].to == b[i - |a|].from; }
        }
      }
    }
  }

  // ---- What of the past gets answered ----

  /** A window answered without an error covers `t`. */
  ghost predicate Covered(ws: seq<Window>, t: int) {
    exists i :: 0 <= i < |ws| && Covers(ws[i], t)
  }

  ghost predicate Covers(w: Window, t: int) {
    w.rows >= 0 && w.from <= t < w.to
  }

  ghost predicate AllAnswered(ws: seq<Window>) {
    forall i | 0 <= i < |ws| :: ws[i].rows >= 0
  }

  /** Everything between the highest and the lowest edge is covered. */
  ghost predicate NothingMissing(ws: seq<Window>)
    requires ws != []
  {
    forall t | ws[|ws| - 1].from <= t < ws[0].to :: Covered(ws, t)
  }

  lemma {:induction false} FindWindow(ws: seq<Window>, i: nat, t: int)
    requires Contiguous(ws) && AllAnswered(ws) && i < |ws| && ws[|ws| - 1].from <= t < ws[i].to
    ensures Covered(ws, t)
    decreases |ws| - i
  {
    if t < ws[i].from {
      assert ws[i + 1].to == ws[i].from;
      FindWindow(ws, i + 1, t);
    } else {
      assert Covers(ws[i], t);
    }
  }

  /** Between two windows nothing is covered. */
  lemma GapNotCovered(ws: seq<Window>, i: nat)
    requires Descending(ws) && i < |ws| - 1 && ws[i + 1].to < ws[i].from
    ensures !Covered(ws, ws[i + 1].to)
  {
    forall j | 0 <= j < |ws|
      ensures !Covers(ws[j], ws[i + 1].to)
    {
      if j < i { assert ws[i].to <= ws[j].from; }
      if j > i + 1 { assert ws[j].to <= ws[i + 1].from; }
    }
  }

  /** A window that failed is covered by no other. */
  lemma FailedNotCovered(ws: seq<Window>, i: nat, t: int)
    requires Descending(ws) && i < |ws| && ws[i].rows < 0 && ws[i].from <= t < ws[i].to
    ensures !Covered(ws, t)
  {
    forall j | 0 <= j < |ws|
      ensures !Covers(ws[j], t)
    {
      if j < i { assert ws[i].to <= ws[j].from; }
      if j > i { assert ws[j].to <= ws[i].from; }
    }
  }

  lemma CoverIff(ws: seq<Window>)
    requires ws != [] && Descending(ws)
    ensures NothingMissing(ws) <==> Contiguous(ws) && AllAnswered(ws)
  {
    if Contiguous(ws) && AllAnswered(ws) {
      forall t | ws[|ws| - 1].from <= t < ws[0].to
        ensures Covered(ws, t)
      {
        FindWindow(ws, 0, t);
      }
    }
    if NothingMissing(ws) {
      forall i | 0 <= i < |ws| - 1
        ensures ws[i + 1].to == ws[i].from
      {
        assert ws[i + 1].to <= ws[i].from;
        if ws[i + 1].to < ws[i].from {
          InRange(ws, i, ws[i + 1].to);
          GapNotCovered(ws, i);
        }
      }
      forall i | 0 <= i < |ws|
        ensures ws[i].rows >= 0
      {
        if ws[i].rows < 0 {
          InRange(ws, i, ws[i].from);
          FailedNotCovered(ws, i, ws[i].from);
        }
      }
    }
  }

  lemma InRange(ws: seq<Window>, i: nat, t: int)
    requires Descending(ws) && i < |ws| && t < ws[i].to
    requires t == ws[i].from || (i + 1 < |ws| && t == ws[i + 1].to)
    ensures ws[|ws| - 1].from <= t < ws[0].to
  {
    if i > 0 { assert ws[i].to <= ws[0].from < ws[0].to; }
    if i < |ws| - 1 { assert ws[|ws| - 1].to <= ws[i].from; }
  }

  /**
   After any calls, all of the past from the cursor up has been answered exactly when no later call
   asked for less than the cursor it found and no fetch failed.
   */
  lemma AllPastAnsweredIff(calls: seq<Call>, base: nat)
    requires base > 0 && calls != []
    ensures var (p, ws) := Run(calls, base);
      && ws != [] && p.cursor == Some(ws[|ws| - 1].from)
      && (NothingMissing(ws) <==> NeverSkips(calls, base) && AllAnswered(ws))
  {
    WindowsNeverRevisit(calls, base);
    TilesIff(calls, base);
    CoverIff(Run(calls, base).1);
  }

  /** What a failed fetch asked for is missing for good, whatever calls come before or after. */
  lemma FailureIsForGood(calls: seq<Call>, base: nat, i: nat, t: int)
    requires base > 0 && i < |Run(calls, base).1|
    requires var w := Run(calls, base).1[i]; w.rows < 0 && w.from <= t < w.to
    ensures !Covered(Run(calls, base).1, t)
  {
    WindowsNeverRevisit(calls, base);
    FailedNotCovered(Run(calls, base).1, i, t);
  }

  lemma OneAttempt(p: Paging, beforeTs: int, base: nat, fetch: Fetch)
    requires fetch(0) != 0
    ensures var w := NextWindow(p, beforeTs, base, fetch(0));
      Chain(p, beforeTs, base, fetch, 0) == (AfterFetch(p, w), [w])
  {}

  /** The least such run: one error, and the same call made again, which succeeds below it. */
  lemma OneError(beforeTs: int, base: nat)
    requires base > 0
    ensures var ws := Run([Call(beforeTs, k => -1), Call(beforeTs, k => 1)], base).1;
      ws == [Window(beforeTs - base, beforeTs, -1), Window(beforeTs - 2 * base, beforeTs - base, 1)]
  {
    var first, second := Call(beforeTs, k => -1), Call(beforeTs, k => 1);
    assert [first, second][..1] == [first] && [first][..0] == [];
    OneAttempt(Paging(None, 0), beforeTs, base, first.fetch);
    OneAttempt(Paging(Some(beforeTs - base), 0), beforeTs, base, second.fetch);
    assert Run([first], base) == (Paging(Some(beforeTs - base), 0), [] + [Window(beforeTs - base, beforeTs, -1)]);
  }

  // ---- How wide the windows are ----

  /** Empty answers in a row after one more answer: rows end the row of them, and an error leaves it. */
  ghost function Counted(n: nat, rows: int): nat {
    if rows > 0 then 0 else if rows == 0 then n + 1 else n
  }

  /** Empty answers in a row after the first `k` windows, if there were `n` before. */
  ghost function EmptyAfter(n: nat, ws: seq<Window>, k: nat): nat
    requires k <= |ws|
  {
    if k == 0 then n else Counted(EmptyAfter(n, ws, k - 1), ws[k - 1].rows)
  }

  /** Twice as wide after each empty answer in a row, up to 64 times. */
  ghost function Width(n: nat): nat {
    if n == 0 then 1 else if n == 1 then 2 else if n == 2 then 4
    else if n == 3 then 8 else if n == 4 then 16 else if n == 5 then 32 else 64
  }

  ghost predicate HasWidth(n: nat, ws: seq<Window>, base: nat, k: nat)
    requires k < |ws|
  {
    ws[k].to - ws[k].from == base * Width(EmptyAfter(n, ws, k))
  }

  lemma ScaleIs(n: nat)
    ensures Scale(n) == Width(n)
  {
    assert Pow2(0) == 1 && Pow2(1) == 2 && Pow2(2) == 4;
    assert Pow2(3) == 8 && Pow2(4) == 16;
    assert Pow2(5) == 32 && Pow2(6) == 64;
  }

  lemma {:induction false} EmptyAfterConcat(n: nat, a: seq<Window>, b: seq<Window>, k: nat)
    requires k <= |b|
    ensures EmptyAfter(n, a + b, |a| + k) == EmptyAfter(EmptyAfter(n, a, |a|), b, k)
  {
    if k > 0 {
      EmptyAfterConcat(n, a, b, k - 1);
      assert (a + b)[|a| + k - 1] == b[k - 1];
    } else {
      EmptyAfterPrefix(n, a, a + b, |a|);
    }
  }

  lemma {:induction false} EmptyAfterPrefix(n: nat, a: seq<Window>, b: seq<Window>, k: nat)
    requires k <= |a| <= |b| && forall j | 0 <= j < k :: a[j] == b[j]
    ensures EmptyAfter(n, b, k) == EmptyAfter(n, a, k)
  {
    if k > 0 { EmptyAfterPrefix(n, a, b, k - 1); }
  }

  ghost predicate Widens(n: nat, ws: seq<Window>, base: nat) {
    forall k | 0 <= k < |ws| :: HasWidth(n, ws, base, k)
  }

  lemma WidensConcat(n: nat, a: seq<Window>, b: seq<Window>, base: nat)
    requires Widens(n, a, base) && Widens(EmptyAfter(n, a, |a|), b, base)
    ensures Widens(n, a + b, base)
  {
    var ws := a + b;
    forall k | 0 <= k < |ws|
      ensures HasWidth(n, ws, base, k)
    {
      if k < |a| {
        assert HasWidth(n, a, base, k);
        EmptyAfterPrefix(n, a, ws, k);
      } else {
        assert HasWidth(EmptyAfter(n, a, |a|), b, base, k - |a|);
        EmptyAfterConcat(n, a, b, k - |a|);
      }
    }
  }

  /** A chain asks again after each empty answer, and stops at the first other one or at ten in a row. */
  ghost predicate GoesOnWhileEmpty(ws: seq<Window>, count: nat) {
    && ws != [] && (forall k | 0 <= k < |ws| - 1 :: ws[k].rows == 0)
    && (ws[|ws| - 1].rows == 0 ==> count >= 10)
  }

  lemma OneWindow(p: Paging, beforeTs: int, base: nat, rows: int)
    ensures var w := NextWindow(p, beforeTs, base, rows);
      && w.rows == rows && Widens(p.emptyFetchCount, [w], base)
      && AfterFetch(p, w).emptyFetchCount == EmptyAfter(p.emptyFetchCount, [w], 1)
  {
    var w := NextWindow(p, beforeTs, base, rows);
    ScaleIs(p.emptyFetchCount);
    WindowSpan(p, beforeTs, base, rows);
    assert EmptyAfter(p.emptyFetchCount, [w], 1) == Counted(EmptyAfter(p.emptyFetchCount, [w], 0), w.rows);
    assert HasWidth(p.emptyFetchCount, [w], base, 0);
  }

  lemma {:induction false} ChainWidens(p: Paging, beforeTs: int, base: nat, fetch: Fetch, i: nat)
    ensures var (last, ws) := Chain(p, beforeTs, base, fetch, i);
      && Widens(p.emptyFetchCount, ws, base) && last.emptyFetchCount == EmptyAfter(p.emptyFetchCount, ws, |ws|)
      && GoesOnWhileEmpty(ws, last.emptyFetchCount)
    decreases MAX_AUTO_RETRIES - p.emptyFetchCount
  {
    var w := NextWindow(p, beforeTs, base, fetch(i));
    var p' := AfterFetch(p, w);
    OneWindow(p, beforeTs, base, fetch(i));
    ChainNext(p, beforeTs, base, fetch, i);
    if Retries(fetch(i), p') {
      ChainWidens(p', beforeTs, base, fetch, i + 1);
      var (last, ws) := Chain(p', beforeTs, base, fetch, i + 1);
      WidensConcat(p.emptyFetchCount, [w], ws, base);
      EmptyAfterConcat(p.emptyFetchCount, [w], ws, |ws|);
    }
  }

  /**
   Over any run, every window is as wide as the empty answers in a row before it say: errors leave
   their number, rows found set it back.
   */
  lemma {:induction false} WidthsAre(calls: seq<Call>, base: nat)
    ensures var (p, ws) := Run(calls, base);
      Widens(0, ws, base) && p.emptyFetchCount == EmptyAfter(0, ws, |ws|)
  {
    if calls != [] {
      var init, c := calls[..|calls| - 1], calls[|calls| - 1];
      WidthsAre(init, base);
      var (p, ws) := Run(init, base);
      var more := Chain(p, c.beforeTs, base, c.fetch, 0).1;
      ChainWidens(p, c.beforeTs, base, c.fetch, 0);
      WidensConcat(0, ws, more, base);
      EmptyAfterConcat(0, ws, more, |more|);
    }
  }
}
