/**
 Live strategy evaluations: what a stream of overlapping event windows leaves behind for each
 strategy and symbol, and how that is merged into the polled snapshot.
 */
module EvaluationMerge {
  import opened Wrappers

  /** An optional timestamp text: absent, one that does not parse, or its milliseconds. */
  datatype Stamp = Missing | Garbled(text: string) | At(ms: int)

  datatype Event = Event(isEvaluation: bool, strategy: string, symbol: string, at: Stamp,
                         evalCount: int, barsToday: int, lastDecision: Option<string>)

  datatype Delta = Delta(lastEvalAt: Stamp, evalCount: int, barsToday: int, lastDecision: Option<string>)

  function KeyFor(strategy: string, symbol: string): string {
    strategy + ([':'] + symbol)
  }

  function Key(e: Event): string {
    KeyFor(e.strategy, e.symbol)
  }

  /** Events of another type, or without a strategy or a symbol, are passed over. */
  predicate Relevant(e: Event) {
    e.isEvaluation && |e.strategy| > 0 && |e.symbol| > 0
  }

  /** Two parsed times, the event's not later; comparison with an unparsed one is false. */
  predicate Stale(prev: Stamp, at: Stamp) {
    prev.At? && at.At? && at.ms <= prev.ms
  }

  type Deltas = map<string, Delta>

  predicate Skipped(deltas: Deltas, e: Event) {
    !Relevant(e) || (Key(e) in deltas && Stale(deltas[Key(e)].lastEvalAt, e.at))
  }

  function Accepted(deltas: Deltas, e: Event): Delta {
    var prev := if Key(e) in deltas then Some(deltas[Key(e)]) else None;
    Delta(if e.at.Missing? && prev.Some? then prev.value.lastEvalAt else e.at, e.evalCount, e.barsToday,
          if e.lastDecision.None? && prev.Some? then prev.value.lastDecision else e.lastDecision)
  }

  function Apply(deltas: Deltas, e: Event): Deltas {
    if Skipped(deltas, e) then deltas else deltas[Key(e) := Accepted(deltas, e)]
  }

  /** The first `n` events applied in order. */
  function Process(deltas: Deltas, events: seq<Event>, n: nat): Deltas
    requires n <= |events|
  {
    if n == 0 then deltas else Apply(Process(deltas, events, n - 1), events[n - 1])
  }

  /** Some event is not skipped. */
  predicate Dirty(deltas: Deltas, events: seq<Event>, n: nat)
    requires n <= |events|
  {
    n > 0 && (Dirty(deltas, events, n - 1) || !Skipped(Process(deltas, events, n - 1), events[n - 1]))
  }

  /** A window, oldest first. */
  function Reversed(window: seq<Event>): (r: seq<Event>)
    ensures |r| == |window| && forall i | 0 <= i < |window| :: r[i] == window[|window| - 1 - i]
  {
    if |window| == 0 then [] else [window[|window| - 1]] + Reversed(window[..|window| - 1])
  }

  class EvaluationStream {
    var deltas: Deltas
    var version: nat

    constructor ()
      ensures deltas == map[] && version == 0
    {
      deltas, version := map[], 0;
    }

    /** A window of events, newest first. */
    method OnEvents(events: seq<Event>)
      modifies this
      ensures deltas == Process(old(deltas), Reversed(events), |events|)
      ensures version == old(version) + if Dirty(old(deltas), Reversed(events), |events|) then 1 else 0
    {
      if |events| == 0 { return; }
      var dirty := false;
      ghost var order := Reversed(events);
      var i := |events| - 1;
      while i >= 0
        invariant -1 <= i < |events|
        invariant deltas == Process(old(deltas), order, |events| - 1 - i)
        invariant dirty == Dirty(old(deltas), order, |events| - 1 - i)
        invariant version == old(version)
      {
        var e := events[i];
        assert order[|events| - 1 - i] == e;
        i := i - 1;
        if !Relevant(e) { continue; }
        var k := KeyFor(e.strategy, e.symbol);
        if k in deltas && Stale(deltas[k].lastEvalAt, e.at) { continue; }
        deltas := deltas[k := Accepted(deltas, e)];
        dirty := true;
      }
      if dirty { version := version + 1; }
    }
  }

  // ---- The latest evaluation wins ----

  /** Every relevant event carries a time that parses. */
  ghost predicate Timed(events: seq<Event>) {
    forall e | e in events && Relevant(e) :: e.at.At?
  }

  /** An evaluation with a strategy and a symbol, which joined by a colon are the key `k`. */
  ghost predicate Concerns(e: Event, k: string) {
    e.isEvaluation && e.strategy != "" && e.symbol != "" && e.strategy + ([':'] + e.symbol) == k
  }

  lemma ConcernsIff(e: Event, k: string)
    ensures Concerns(e, k) <==> Relevant(e) && Key(e) == k
  {}

  /**
   An event without a time that parses is always taken: its counts replace those held, and what it
   leaves out, time or decision, stays as it was.  Other keys, and events that concern none, change nothing.
   */
  lemma UntimedIsTaken(deltas: Deltas, e: Event, k: string)
    requires !e.at.At?
    ensures var after := Apply(deltas, e);
      if !Concerns(e, k) then (k in after <==> k in deltas) && (k in after ==> after[k] == deltas[k])
      else
        && k in after && after[k].evalCount == e.evalCount && after[k].barsToday == e.barsToday
        && after[k].lastEvalAt == (if e.at == Missing && k in deltas then deltas[k].lastEvalAt else e.at)
        && after[k].lastDecision ==
             (if e.lastDecision == None && k in deltas then deltas[k].lastDecision else e.lastDecision)
  {
    ConcernsIff(e, k);
  }

  /** The first of the latest events of key `k` among the first `n`. */
  ghost function Best(events: seq<Event>, n: nat, k: string): (best: Option<nat>)
    requires n <= |events| && Timed(events)
    ensures best.Some? ==> best.value < n && Concerns(events[best.value], k)
  {
    if n == 0 then None
    else
      var before := Best(events, n - 1, k);
      var e := events[n - 1];
      if Concerns(e, k) && (before.None? || e.at.ms > events[before.value].at.ms) then Some(n - 1) else before
  }

  /** No event of the key is later, and none that is as late comes before it. */
  ghost predicate FirstOfLatest(events: seq<Event>, n: nat, k: string, i: nat)
    requires n <= |events| && Timed(events)
  {
    i < n && Concerns(events[i], k)
    && forall j | 0 <= j < n && Concerns(events[j], k) ::
         events[j].at.ms <= events[i].at.ms && (j < i ==> events[j].at.ms < events[i].at.ms)
  }

  lemma {:induction false} BestIsLatest(events: seq<Event>, n: nat, k: string)
    requires n <= |events| && Timed(events)
    ensures var best := Best(events, n, k);
      if best.Some? then FirstOfLatest(events, n, k, best.value)
      else forall j | 0 <= j < n :: !Concerns(events[j], k)
  {
    if n > 0 { BestIsLatest(events, n - 1, k); }
  }

  /** What is held for a key is the time and counts of event `e`. */
  ghost predicate Shows(d: Delta, e: Event) {
    d.lastEvalAt == e.at && d.evalCount == e.evalCount && d.barsToday == e.barsToday
  }

  ghost predicate HoldsBest(deltas: Deltas, events: seq<Event>, n: nat, k: string)
    requires n <= |events| && Timed(events)
  {
    var best := Best(events, n, k);
    (k in deltas <==> best.Some?)
    && (best.Some? ==> Shows(deltas[k], events[best.value]))
  }

  lemma BestNext(deltas: Deltas, events: seq<Event>, n: nat, k: string)
    requires n < |events| && Timed(events) && HoldsBest(deltas, events, n, k)
    ensures HoldsBest(Apply(deltas, events[n]), events, n + 1, k)
  {
    var e := events[n];
    if Concerns(e, k) {
      assert e.at.At?;
    } else if Relevant(e) {
      assert k in Apply(deltas, e) <==> k in deltas;
    }
  }

  lemma {:induction false} ProcessHoldsBest(events: seq<Event>, n: nat, k: string)
    requires n <= |events| && Timed(events)
    ensures HoldsBest(Process(map[], events, n), events, n, k)
  {
    if n > 0 {
      ProcessHoldsBest(events, n - 1, k);
      BestNext(Process(map[], events, n - 1), events, n - 1, k);
    }
  }

  /** Event `i` is of key `k` and later than every one of the key before it. */
  ghost predicate Newest(events: seq<Event>, k: string, i: nat)
    requires i < |events| && Timed(events)
  {
    Concerns(events[i], k) && forall j | 0 <= j < i && Concerns(events[j], k) :: events[j].at.ms < events[i].at.ms
  }

  /** Those are the events that are not skipped. */
  lemma NewestIff(events: seq<Event>, k: string, i: nat)
    requires i < |events| && Timed(events)
    ensures Newest(events, k, i) <==> Concerns(events[i], k) && !Skipped(Process(map[], events, i), events[i])
  {
    ProcessHoldsBest(events, i, k);
    BestIsLatest(events, i, k);
    if Concerns(events[i], k) { assert events[i] in events && events[i].at.At?; }
  }

  /** Event `i` is accepted in its turn. */
  ghost predicate TakenAt(deltas: Deltas, events: seq<Event>, i: nat)
    requires i < |events|
  {
    !Skipped(Process(deltas, events, i), events[i])
  }

  /** The version is bumped for a window exactly when one of its events is accepted in its turn. */
  lemma {:induction false} DirtyIff(deltas: Deltas, events: seq<Event>, n: nat)
    requires n <= |events|
    ensures Dirty(deltas, events, n) <==> exists i: nat | i < n :: TakenAt(deltas, events, i)
  {
    if n > 0 {
      var k := n - 1;
      DirtyIff(deltas, events, k);
      assert Dirty(deltas, events, n) <==> Dirty(deltas, events, k) || TakenAt(deltas, events, k);
    }
  }

  /** `d` is the decision of the last of them that carries one; None when none does. */
  ghost predicate LastDecided(events: seq<Event>, n: nat, k: string, d: Option<string>)
    requires n <= |events| && Timed(events)
  {
    match d
    case None => forall i | 0 <= i < n && Newest(events, k, i) :: events[i].lastDecision.None?
    case Some(_) => exists i: nat | i < n ::
      && Newest(events, k, i) && events[i].lastDecision == d
      && forall j | i < j < n && Newest(events, k, j) :: events[j].lastDecision.None?
  }

  ghost function DecisionOf(deltas: Deltas, k: string): Option<string> {
    if k in deltas then deltas[k].lastDecision else None
  }

  lemma DecidedNext(events: seq<Event>, n: nat, k: string, d: Option<string>)
    requires n < |events| && Timed(events) && LastDecided(events, n, k, d)
    ensures LastDecided(events, n + 1, k,
                        if Newest(events, k, n) && events[n].lastDecision.Some? then events[n].lastDecision else d)
  {}

  /** An accepted event without a decision keeps the one held. */
  lemma DecisionApplied(deltas: Deltas, e: Event, k: string)
    ensures DecisionOf(Apply(deltas, e), k) ==
      if Concerns(e, k) && !Skipped(deltas, e) && e.lastDecision.Some? then e.lastDecision else DecisionOf(deltas, k)
  {}

  lemma {:induction false} DecisionIsLast(events: seq<Event>, n: nat, k: string)
    requires n <= |events| && Timed(events)
    ensures LastDecided(events, n, k, DecisionOf(Process(map[], events, n), k))
  {
    if n > 0 {
      var deltas := Process(map[], events, n - 1);
      DecisionIsLast(events, n - 1, k);
      NewestIff(events, k, n - 1);
      DecisionApplied(deltas, events[n - 1], k);
      DecidedNext(events, n - 1, k, DecisionOf(deltas, k));
    }
  }

  /**
   A key is held exactly when it has had an event, with the time and counts of the first of its
   latest, and the decision of the last accepted one that carries a decision.
   */
  lemma LatestWins(events: seq<Event>, n: nat, k: string)
    requires n <= |events| && Timed(events)
    ensures var deltas := Process(map[], events, n);
      && (k in deltas <==> exists j: nat | j < n :: Concerns(events[j], k))
      && (k in deltas ==>
            && (exists i: nat | i < n :: FirstOfLatest(events, n, k, i) && Shows(deltas[k], events[i]))
            && LastDecided(events, n, k, deltas[k].lastDecision))
  {
    ProcessHoldsBest(events, n, k);
    BestIsLatest(events, n, k);
    DecisionIsLast(events, n, k);
  }

  // ---- Overlapping windows ----

  /** The events of the first `n` windows in the order they are processed. */
  ghost function Flat(windows: seq<seq<Event>>, n: nat): seq<Event>
    requires n <= |windows|
  {
    if n == 0 then [] else Flat(windows, n - 1) + Reversed(windows[n - 1])
  }

  /** What the first `n` windows leave behind. */
  ghost function Fed(windows: seq<seq<Event>>, n: nat): Deltas
    requires n <= |windows|
  {
    if n == 0 then map[] else Process(Fed(windows, n - 1), Reversed(windows[n - 1]), |windows[n - 1]|)
  }

  lemma {:induction false} ProcessPrefix(deltas: Deltas, a: seq<Event>, b: seq<Event>, n: nat)
    requires n <= |a| <= |b| && forall i | 0 <= i < n :: b[i] == a[i]
    ensures Process(deltas, b, n) == Process(deltas, a, n)
  {
    if n > 0 { ProcessPrefix(deltas, a, b, n - 1); }
  }

  lemma {:induction false} ProcessAppend(deltas: Deltas, a: seq<Event>, b: seq<Event>, n: nat)
    requires n <= |b|
    ensures Process(deltas, a + b, |a| + n) == Process(Process(deltas, a, |a|), b, n)
  {
    if n == 0 {
      ProcessPrefix(deltas, a, a + b, |a|);
    } else {
      ProcessAppend(deltas, a, b, n - 1);
      assert (a + b)[|a| + n - 1] == b[n - 1];
    }
  }

  /** Windows are processed as the one sequence of their events. */
  lemma {:induction false} FedIsProcess(windows: seq<seq<Event>>, n: nat)
    requires n <= |windows|
    ensures Fed(windows, n) == Process(map[], Flat(windows, n), |Flat(windows, n)|)
  {
    if n > 0 {
      FedIsProcess(windows, n - 1);
      ProcessAppend(map[], Flat(windows, n - 1), Reversed(windows[n - 1]), |windows[n - 1]|);
    }
  }

  /** The key of `e` has been evaluated no earlier than `e`. */
  ghost predicate Caught(deltas: Deltas, e: Event) {
    Key(e) in deltas && Stale(deltas[Key(e)].lastEvalAt, e.at)
  }

  lemma ProcessedIsCaught(events: seq<Event>, e: Event)
    requires Timed(events) && e in events && Relevant(e)
    ensures Caught(Process(map[], events, |events|), e)
  {
    var j :| 0 <= j < |events| && events[j] == e;
    assert Concerns(events[j], Key(e));
    LatestWins(events, |events|, Key(e));
    var i: nat :| i < |events| && FirstOfLatest(events, |events|, Key(e), i)
      && Shows(Process(map[], events, |events|)[Key(e)], events[i]);
  }

  lemma {:induction false} CaughtChangesNothing(deltas: Deltas, window: seq<Event>, n: nat)
    requires n <= |window| && forall e | e in window && Relevant(e) :: Caught(deltas, e)
    ensures Process(deltas, window, n) == deltas && !Dirty(deltas, window, n)
  {
    if n > 0 { CaughtChangesNothing(deltas, window, n - 1); }
  }

  /** Seeing again, in any order, events that have all been processed changes nothing and bumps no version. */
  lemma ReplayChangesNothing(windows: seq<seq<Event>>, window: seq<Event>)
    requires Timed(Flat(windows, |windows|))
    requires forall e | e in window :: e in Flat(windows, |windows|)
    ensures var deltas := Fed(windows, |windows|);
      Process(deltas, window, |window|) == deltas && !Dirty(deltas, window, |window|)
  {
    var events := Flat(windows, |windows|);
    FedIsProcess(windows, |windows|);
    forall e | e in window && Relevant(e)
      ensures Caught(Process(map[], events, |events|), e)
    {
      ProcessedIsCaught(events, e);
    }
    CaughtChangesNothing(Process(map[], events, |events|), window, |window|);
  }

  /** An event seen twice running is passed over the second time exactly when its time parses. */
  lemma RepeatIsSkippedIff(deltas: Deltas, e: Event)
    requires Relevant(e)
    ensures Skipped(Apply(deltas, e), e) <==> e.at.At?
  {}

  ghost predicate SameEvents(a: seq<Event>, b: seq<Event>) {
    forall e :: e in a <==> e in b
  }

  /** Neither the order of arrival nor repeats decide what time is held. */
  lemma OrderDoesNotMatter(a: seq<Event>, b: seq<Event>, k: string)
    requires Timed(a) && Timed(b) && SameEvents(a, b)
    ensures var (da, db) := (Process(map[], a, |a|), Process(map[], b, |b|));
      (k in da <==> k in db) && (k in da ==> da[k].lastEvalAt == db[k].lastEvalAt)
  {
    OneWay(a, b, k);
    OneWay(b, a, k);
  }

  lemma OneWay(a: seq<Event>, b: seq<Event>, k: string)
    requires Timed(a) && Timed(b) && SameEvents(a, b)
    ensures var (da, db) := (Process(map[], a, |a|), Process(map[], b, |b|));
      k in da ==> k in db && da[k].lastEvalAt.At? && db[k].lastEvalAt.At? && da[k].lastEvalAt.ms <= db[k].lastEvalAt.ms
  {
    var da := Process(map[], a, |a|);
    LatestWins(a, |a|, k);
    if k in da {
      var i: nat :| i < |a| && FirstOfLatest(a, |a|, k, i) && Shows(da[k], a[i]);
      assert a[i] in b;
      ProcessedIsCaught(b, a[i]);
      LatestWins(b, |b|, k);
    }
  }

  // ---- Merging into the polled view ----

  /** A polled row; `rest` stands for the fields the merge leaves alone. */
  datatype Row<R> = Row(symbol: string, lastEvalAt: Stamp, evalCount: int, barsToday: int,
                        lastDecision: Option<string>, rest: R)

  /** Milliseconds, zero when absent or empty; None is NaN. */
  function Millis(s: Stamp): Option<int> {
    match s
    case Missing => Some(0)
    case Garbled(text) => if |text| == 0 then Some(0) else None
    case At(ms) => Some(ms)
  }

  /** Whether the row is kept as polled: comparison with NaN is false. */
  predicate KeepsPolled(delta: Stamp, polled: Stamp) {
    Millis(delta).Some? && Millis(polled).Some? && Millis(delta).value <= Millis(polled).value
  }

  function MergeRow<R>(strategy: string, deltas: Deltas, row: Row<R>): Row<R> {
    var k := KeyFor(strategy, row.symbol);
    if k !in deltas || KeepsPolled(deltas[k].lastEvalAt, row.lastEvalAt) then row
    else
      var d := deltas[k];
      row.(lastEvalAt := if d.lastEvalAt.Missing? then row.lastEvalAt else d.lastEvalAt,
           evalCount := d.evalCount, barsToday := d.barsToday,
           lastDecision := if d.lastDecision.None? then row.lastDecision else d.lastDecision)
  }

  function MergeView<R>(strategy: string, deltas: Deltas, rows: seq<Row<R>>): (view: seq<Row<R>>)
    ensures |view| == |rows|
    ensures forall i | 0 <= i < |rows| ::
      view[i] == MergeRow(strategy, deltas, rows[i]) && view[i].symbol == rows[i].symbol && view[i].rest == rows[i].rest
  {
    seq(|rows|, i requires 0 <= i < |rows| => MergeRow(strategy, deltas, rows[i]))
  }

  /** The view's time is known and not before the polled one. */
  ghost predicate NotOlder(view: Stamp, polled: Stamp) {
    Millis(view).Some? && Millis(polled).Some? && Millis(polled).value <= Millis(view).value
  }

  /** A row has a known time not before the polled one exactly when polled time and live time, if any, both parse. */
  lemma NeverOlderIff<R>(strategy: string, deltas: Deltas, row: Row<R>)
    ensures var k := KeyFor(strategy, row.symbol);
      NotOlder(MergeRow(strategy, deltas, row).lastEvalAt, row.lastEvalAt) <==>
        Millis(row.lastEvalAt).Some? && !(k in deltas && Millis(deltas[k].lastEvalAt).None?)
  {}

  lemma {:induction false} NeverGarbled(events: seq<Event>, n: nat, k: string)
    requires n <= |events| && Timed(events)
    ensures k in Process(map[], events, n) ==> Process(map[], events, n)[k].lastEvalAt.At?
  {
    ProcessHoldsBest(events, n, k);
  }

  /** So over events whose times parse, merging never takes the view back in time. */
  lemma ViewNeverOlder<R>(windows: seq<seq<Event>>, strategy: string, rows: seq<Row<R>>, i: nat)
    requires Timed(Flat(windows, |windows|)) && i < |rows| && Millis(rows[i].lastEvalAt).Some?
    ensures NotOlder(MergeView(strategy, Fed(windows, |windows|), rows)[i].lastEvalAt, rows[i].lastEvalAt)
  {
    var row := rows[i];
    FedHasTime(windows, KeyFor(strategy, row.symbol));
    NeverOlderIff(strategy, Fed(windows, |windows|), row);
    assert MergeView(strategy, Fed(windows, |windows|), rows)[i] == MergeRow(strategy, Fed(windows, |windows|), row);
  }

  lemma FedHasTime(windows: seq<seq<Event>>, k: string)
    requires Timed(Flat(windows, |windows|))
    ensures k in Fed(windows, |windows|) ==> Millis(Fed(windows, |windows|)[k].lastEvalAt).Some?
  {
    var events := Flat(windows, |windows|);
    FedIsProcess(windows, |windows|);
    NeverGarbled(events, |events|, k);
  }

  /** The time a polled row has in milliseconds: zero when it has none, and None when its text does not parse. */
  ghost function PolledMs<R>(row: Row<R>): Option<int> {
    if row.lastEvalAt.At? then Some(row.lastEvalAt.ms)
    else if row.lastEvalAt == Missing || row.lastEvalAt == Garbled("") then Some(0)
    else None
  }

  /** Event `i` is the first of the latest of its key and later than the polled row. */
  ghost predicate Supersedes<R>(events: seq<Event>, i: nat, k: string, row: Row<R>)
    requires Timed(events)
  {
    FirstOfLatest(events, |events|, k, i) && (PolledMs(row) == None || PolledMs(row).value < events[i].at.ms)
  }

  /** `view` is the polled row brought up to date by event `e` and the decision `d`, if there is one. */
  ghost predicate IsUpdated<R>(view: Row<R>, row: Row<R>, e: Event, d: Option<string>) {
    && view.symbol == row.symbol && view.rest == row.rest
    && view.lastEvalAt == e.at && view.evalCount == e.evalCount && view.barsToday == e.barsToday
    && view.lastDecision == if d.Some? then d else row.lastDecision
  }

  ghost predicate LaterThan<R>(e: Event, row: Row<R>)
    requires e.at.At?
  {
    PolledMs(row) == None || PolledMs(row).value < e.at.ms
  }

  lemma RowOfHeld<R>(strategy: string, deltas: Deltas, row: Row<R>, e: Event)
    requires var k := KeyFor(strategy, row.symbol); k in deltas && Shows(deltas[k], e) && e.at.At?
    ensures var (merged, d) := (MergeRow(strategy, deltas, row), deltas[KeyFor(strategy, row.symbol)].lastDecision);
      if LaterThan(e, row) then IsUpdated(merged, row, e, d) else merged == row
  {}

  /** The row shown is the polled one, or that brought up to date by the key's latest event. */
  ghost predicate ShowsLatest<R>(events: seq<Event>, k: string, row: Row<R>, view: Row<R>)
    requires Timed(events)
  {
    if exists j: nat :: Supersedes(events, j, k, row)
    then exists j: nat, d :: Supersedes(events, j, k, row) && LastDecided(events, |events|, k, d)
           && IsUpdated(view, row, events[j], d)
    else view == row
  }

  lemma HeldShowsLatest<R>(events: seq<Event>, deltas: Deltas, strategy: string, row: Row<R>, j: nat)
    requires Timed(events) && j < |events|
    requires var k := KeyFor(strategy, row.symbol);
      && k in deltas && FirstOfLatest(events, |events|, k, j) && Shows(deltas[k], events[j])
      && LastDecided(events, |events|, k, deltas[k].lastDecision)
    ensures ShowsLatest(events, KeyFor(strategy, row.symbol), row, MergeRow(strategy, deltas, row))
  {
    var k := KeyFor(strategy, row.symbol);
    HasTime(events, j, k);
    RowOfHeld(strategy, deltas, row, events[j]);
    if LaterThan(events[j], row) {
      assert Supersedes(events, j, k, row);
    } else {
      forall i: nat | Supersedes(events, i, k, row)
        ensures i == j
      {
        FirstIsOne(events, i, j, k);
      }
    }
  }

  /**
   What the dashboard shows, over any windows of events whose times parse: a row is the polled one
   unless its key's latest event is later, and then has that event's time and counts and the last
   decision that came with an accepted event.
   */
  lemma ViewIsLatest<R>(windows: seq<seq<Event>>, strategy: string, rows: seq<Row<R>>, i: nat)
    requires Timed(Flat(windows, |windows|)) && i < |rows|
    ensures var view := MergeView(strategy, Fed(windows, |windows|), rows)[i];
      ShowsLatest(Flat(windows, |windows|), strategy + ([':'] + rows[i].symbol), rows[i], view)
  {
    var events, row, k := Flat(windows, |windows|), rows[i], KeyFor(strategy, rows[i].symbol);
    var deltas := Fed(windows, |windows|);
    FedIsProcess(windows, |windows|);
    LatestWins(events, |events|, k);
    if k in deltas {
      var j: nat :| j < |events| && FirstOfLatest(events, |events|, k, j) && Shows(deltas[k], events[j]);
      HeldShowsLatest(events, deltas, strategy, row, j);
    }
  }

  lemma HasTime(events: seq<Event>, j: nat, k: string)
    requires Timed(events) && j < |events| && Concerns(events[j], k)
    ensures events[j].at.At?
  {
    ConcernsIff(events[j], k);
    assert events[j] in events;
  }

  lemma FirstIsOne(events: seq<Event>, i: nat, j: nat, k: string)
    requires Timed(events) && FirstOfLatest(events, |events|, k, i) && FirstOfLatest(events, |events|, k, j)
    ensures i == j
  {}

  // ---- Keys ----

  /** `s` followed by a colon begins `t`. */
  predicate Below(s: string, t: string) {
    |s| < |t| && t[..|s|] == s && t[|s|] == ':'
  }

  ghost predicate NeverShareKey(s: string, t: string) {
    forall x, y | KeyFor(s, x) == KeyFor(t, y) :: s == t && x == y
  }

  /** No two symbols give two strategies one key exactly when neither id, followed by a colon, begins the other. */
  lemma NeverShareKeyIff(s: string, t: string)
    ensures NeverShareKey(s, t) <==> !Below(s, t) && !Below(t, s)
  {
    if Below(s, t) { BelowShares(s, t); }
    if Below(t, s) { BelowShares(t, s); }
    if !Below(s, t) && !Below(t, s) {
      forall x, y | KeyFor(s, x) == KeyFor(t, y)
        ensures s == t && x == y
      {
        OneBelow(s, x, t, y);
      }
    }
  }

  lemma BelowShares(s: string, t: string)
    requires Below(s, t)
    ensures KeyFor(s, t[|s| + 1..] + [':']) == KeyFor(t, [])
  {
    assert t == s + ([':'] + t[|s| + 1..]);
  }

  lemma OneBelow(s: string, x: string, t: string, y: string)
    requires KeyFor(s, x) == KeyFor(t, y)
    ensures (s == t && x == y) || Below(s, t) || Below(t, s)
  {
    var k := KeyFor(s, x);
    assert k[..|s|] == s && k[..|t|] == t && k[|s|] == ':' && k[|t|] == ':';
    assert k[|s| + 1..] == x && k[|t| + 1..] == y;
    if |s| < |t| { assert t[..|s|] == k[..|t|][..|s|] && t[|s|] == k[|s|]; }
    if |t| < |s| { assert s[..|t|] == k[..|s|][..|t|] && s[|t|] == k[|t|]; }
  }

  /** Ids without a colon, as every strategy's is, never share a key, whatever the symbols. */
  lemma KeysApart(s: string, t: string)
    requires ':' !in s && ':' !in t
    ensures NeverShareKey(s, t)
  {
    NeverShareKeyIff(s, t);
  }

  lemma BelowHasColon(s: string, x: string, t: string, y: string)
    requires KeyFor(s, x) == KeyFor(t, y) && Below(s, t)
    ensures ':' in x
  {
    var k := KeyFor(t, y);
    assert k[|t|] == ':';
    assert KeyFor(s, x)[|t|] == x[|t| - |s| - 1];
  }

  /** Nor do symbols without a colon, whatever the strategies. */
  lemma PlainSymbolsApart(s: string, x: string, t: string, y: string)
    requires ':' !in x && ':' !in y && KeyFor(s, x) == KeyFor(t, y)
    ensures s == t && x == y
  {
    OneBelow(s, x, t, y);
    if Below(s, t) { BelowHasColon(s, x, t, y); }
    if Below(t, s) { BelowHasColon(t, y, s, x); }
  }
}
