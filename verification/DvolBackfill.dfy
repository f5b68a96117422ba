/**
 The DVOL backfill: hourly candles arrive page by page, newest page first, each page is
 downsampled to days on its own, and the rows go into a table where the first insert of a
 day wins.  The theorem is that this is one downsample of the whole series.
 */
module DvolBackfill {
  import opened Wrappers

  /** [timestamp_ms, open, high, low, close]; shorter candles are malformed. */
  type Candle = seq<real>

  datatype Row = Row(asset: string, day: int, iv: real)

  type Key = (string, int)
  type Table = map<Key, real>

  const DAY_MS := 86_400_000

  /** Go's conversion of a float to an integer, which drops the fraction. */
  function Trunc(x: real): int {
    if x >= 0.0 then x.Floor else -((-x).Floor)
  }

  predicate WellFormed(c: Candle) {
    |c| >= 5
  }

  /** The UTC day of a candle, in days since the epoch. */
  function DayOf(c: Candle): int
    requires WellFormed(c)
  {
    Trunc(c[0]) / DAY_MS
  }

  // ---- What a downsample is ----

  /** The close of the last well-formed candle of the day. */
  ghost function LastClose(data: seq<Candle>, day: int): Option<real> {
    if data == [] then None
    else
      var c := data[|data| - 1];
      if WellFormed(c) && DayOf(c) == day then Some(c[4]) else LastClose(data[..|data| - 1], day)
  }

  /** The days that have a well-formed candle, in order of first appearance. */
  ghost function DayOrder(data: seq<Candle>): seq<int> {
    if data == [] then []
    else
      var days, c := DayOrder(data[..|data| - 1]), data[|data| - 1];
      if WellFormed(c) && DayOf(c) !in days then days + [DayOf(c)] else days
  }

  ghost predicate AllDifferent(days: seq<int>) {
    forall i, j | 0 <= i < j < |days| :: days[i] != days[j]
  }

  lemma NewIsDifferent(days: seq<int>, d: int)
    requires AllDifferent(days) && d !in days
    ensures AllDifferent(days + [d])
  {
    var all := days + [d];
    forall i, j | 0 <= i < j < |all|
      ensures all[i] != all[j]
    {
      assert all[i] == days[i] && days[i] in days;
    }
  }

  lemma {:induction false} DaysOnce(data: seq<Candle>)
    ensures AllDifferent(DayOrder(data))
  {
    if data != [] {
      var init, c := data[..|data| - 1], data[|data| - 1];
      DaysOnce(init);
      if WellFormed(c) && DayOf(c) !in DayOrder(init) { NewIsDifferent(DayOrder(init), DayOf(c)); }
    }
  }

  lemma {:induction false} DayListedIff(data: seq<Candle>, d: int)
    ensures d in DayOrder(data) <==> LastClose(data, d).Some?
  {
    if data != [] { DayListedIff(data[..|data| - 1], d); }
  }

  // ---- Days and closes, spelled out ----

  /** `ms` is `x` without its fraction. */
  ghost predicate Truncated(x: real, ms: int) {
    if x >= 0.0 then ms as real <= x < (ms + 1) as real else (ms - 1) as real < x <= ms as real
  }

  /** The candle is well formed and its time lies in the UTC day `d`, 86,400,000 milliseconds from midnight on. */
  ghost predicate FallsOn(c: Candle, d: int) {
    |c| >= 5 && exists ms :: Truncated(c[0], ms) && 86_400_000 * d <= ms < 86_400_000 * (d + 1)
  }

  lemma TruncIs(x: real)
    ensures Truncated(x, Trunc(x))
  {}

  lemma TruncatedOnce(x: real, a: int, b: int)
    requires Truncated(x, a) && Truncated(x, b)
    ensures a == b
  {}

  lemma FallsOnIff(c: Candle, d: int)
    ensures FallsOn(c, d) <==> WellFormed(c) && DayOf(c) == d
  {
    if |c| >= 5 {
      TruncIs(c[0]);
      forall ms | Truncated(c[0], ms)
        ensures ms == Trunc(c[0])
      {
        TruncatedOnce(c[0], ms, Trunc(c[0]));
      }
    }
  }

  /** Candle `i` is the last of day `d`. */
  ghost predicate ClosesDay(data: seq<Candle>, i: nat, d: int) {
    i < |data| && FallsOn(data[i], d) && forall j | i < j < |data| :: !FallsOn(data[j], d)
  }

  /** A day's close is that of its last well-formed candle. */
  lemma {:induction false} LastCloseIff(data: seq<Candle>, d: int, v: real)
    ensures LastClose(data, d) == Some(v) <==> exists i: nat :: ClosesDay(data, i, d) && data[i][4] == v
  {
    if data != [] {
      var init, c := data[..|data| - 1], data[|data| - 1];
      FallsOnIff(c, d);
      LastCloseIff(init, d, v);
      if FallsOn(c, d) {
        assert ClosesDay(data, |data| - 1, d);
      } else {
        forall i: nat
          ensures ClosesDay(data, i, d) <==> ClosesDay(init, i, d)
        {
          ClosesDayInit(data, i, d);
        }
      }
    }
  }

  lemma ClosesDayInit(data: seq<Candle>, i: nat, d: int)
    requires data != [] && !FallsOn(data[|data| - 1], d)
    ensures ClosesDay(data, i, d) <==> ClosesDay(data[..|data| - 1], i, d)
  {
    var init := data[..|data| - 1];
    if ClosesDay(init, i, d) {
      forall j | i < j < |data|
        ensures !FallsOn(data[j], d)
      {
        if j < |init| { assert init[j] == data[j]; }
      }
    }
  }

  /** Candle `k` is the first of day `d`. */
  ghost predicate OpensDay(data: seq<Candle>, k: nat, d: int) {
    k < |data| && FallsOn(data[k], d) && forall j | 0 <= j < k :: !FallsOn(data[j], d)
  }

  ghost predicate Increase(at: seq<nat>) {
    forall i, j | 0 <= i < j < |at| :: at[i] < at[j]
  }

  lemma IncreaseSnoc(at: seq<nat>, k: nat)
    requires Increase(at) && forall i | 0 <= i < |at| :: at[i] < k
    ensures Increase(at + [k])
  {}

  /** The days of `DayOrder` stand in the order of their first candles. */
  lemma {:induction false} DaysInOrder(data: seq<Candle>) returns (at: seq<nat>)
    ensures |at| == |DayOrder(data)| && Increase(at)
    ensures forall i | 0 <= i < |at| :: OpensDay(data, at[i], DayOrder(data)[i])
  {
    at := [];
    if data != [] {
      var init, c := data[..|data| - 1], data[|data| - 1];
      at := DaysInOrder(init);
      forall i | 0 <= i < |at|
        ensures OpensDay(data, at[i], DayOrder(init)[i]) && at[i] < |init|
      {
        assert OpensDay(init, at[i], DayOrder(init)[i]);
      }
      if WellFormed(c) && DayOf(c) !in DayOrder(init) {
        NewDayOpens(data);
        IncreaseSnoc(at, |init|);
        at := at + [|init|];
      }
    }
  }

  lemma NewDayOpens(data: seq<Candle>)
    requires data != [] && WellFormed(data[|data| - 1]) && DayOf(data[|data| - 1]) !in DayOrder(data[..|data| - 1])
    ensures OpensDay(data, |data| - 1, DayOf(data[|data| - 1]))
  {
    var init, c := data[..|data| - 1], data[|data| - 1];
    FallsOnIff(c, DayOf(c));
    DayListedIff(init, DayOf(c));
    forall j | 0 <= j < |init|
      ensures !FallsOn(data[j], DayOf(c))
    {
      FallsOnIff(data[j], DayOf(c));
      assert init[j] == data[j];
      if FallsOn(data[j], DayOf(c)) { SomeClose(init, j, DayOf(c)); }
    }
  }

  lemma {:induction false} SomeClose(data: seq<Candle>, j: nat, d: int)
    requires j < |data| && WellFormed(data[j]) && DayOf(data[j]) == d
    ensures LastClose(data, d).Some?
  {
    if j < |data| - 1 { SomeClose(data[..|data| - 1], j, d); }
  }

  /** The row of a day: its last close, from percentage to fraction. */
  ghost function RowFor(asset: string, data: seq<Candle>, d: int): Row {
    var last := LastClose(data, d);
    Row(asset, d, if last.Some? then last.value / 100.0 else 0.0)
  }

  ghost function RowsFor(asset: string, data: seq<Candle>, days: seq<int>): seq<Row> {
    if days == [] then []
    else RowsFor(asset, data, days[..|days| - 1]) + [RowFor(asset, data, days[|days| - 1])]
  }

  lemma {:induction false} RowsForAre(asset: string, data: seq<Candle>, days: seq<int>)
    ensures var rows := RowsFor(asset, data, days);
      |rows| == |days| && forall i | 0 <= i < |days| :: rows[i] == RowFor(asset, data, days[i])
  {
    if days != [] { RowsForAre(asset, data, days[..|days| - 1]); }
  }

  /** One row per day that has a well-formed candle. */
  ghost function Rows(asset: string, data: seq<Candle>): seq<Row> {
    RowsFor(asset, data, DayOrder(data))
  }

  /** The map holds a row for each day of the prefix `done`. */
  ghost predicate HoldsDays(asset: string, done: seq<Candle>, dayMap: map<int, Row>, dayOrder: seq<int>) {
    && dayOrder == DayOrder(done)
    && (forall d :: d in dayMap <==> d in dayOrder)
    && (forall d | d in dayMap :: dayMap[d] == RowFor(asset, done, d))
  }

  /** What one more candle changes. */
  lemma DayNext(asset: string, done: seq<Candle>, c: Candle)
    ensures DayOrder(done + [c]) ==
      if WellFormed(c) && DayOf(c) !in DayOrder(done) then DayOrder(done) + [DayOf(c)] else DayOrder(done)
    ensures forall d | WellFormed(c) && DayOf(c) == d :: RowFor(asset, done + [c], d) == Row(asset, d, c[4] / 100.0)
    ensures forall d | !(WellFormed(c) && DayOf(c) == d) :: RowFor(asset, done + [c], d) == RowFor(asset, done, d)
  {
    assert (done + [c])[..|done|] == done;
  }

  lemma HoldsNext(asset: string, done: seq<Candle>, c: Candle, dayMap: map<int, Row>, dayOrder: seq<int>)
    requires HoldsDays(asset, done, dayMap, dayOrder) && WellFormed(c)
    ensures HoldsDays(asset, done + [c], dayMap[DayOf(c) := Row(asset, DayOf(c), c[4] / 100.0)],
                      if DayOf(c) in dayMap then dayOrder else dayOrder + [DayOf(c)])
  {
    DayNext(asset, done, c);
  }

  method DownsampleToDaily(asset: string, data: seq<Candle>) returns (rows: seq<Row>)
    ensures rows == Rows(asset, data)
  {
    rows := [];
    if |data| == 0 { return; }
    var dayMap: map<int, Row> := map[];
    var dayOrder: seq<int> := [];
    ghost var done: seq<Candle> := [];
    for i := 0 to |data|
      invariant done == data[..i] && HoldsDays(asset, done, dayMap, dayOrder)
    {
      var c := data[i];
      ghost var before := done;
      done := done + [c];
      if !WellFormed(c) {
        DayNext(asset, before, c);
        continue;
      }
      HoldsNext(asset, before, c, dayMap, dayOrder);
      var day := DayOf(c);
      if day !in dayMap { dayOrder := dayOrder + [day]; }
      dayMap := dayMap[day := Row(asset, day, c[4] / 100.0)];
    }
    assert done == data;
    rows := ListRows(asset, data, dayMap, dayOrder);
  }

  /** The rows of the map in the order its days were first seen. */
  method ListRows(asset: string, ghost data: seq<Candle>, dayMap: map<int, Row>, dayOrder: seq<int>)
    returns (rows: seq<Row>)
    requires HoldsDays(asset, data, dayMap, dayOrder)
    ensures rows == Rows(asset, data)
  {
    rows := [];
    for i := 0 to |dayOrder|
      invariant rows == RowsFor(asset, data, dayOrder[..i])
    {
      var d := dayOrder[i];
      assert d in dayOrder;
      assert dayOrder[..i + 1][..i] == dayOrder[..i];
      rows := rows + [dayMap[d]];
    }
    assert dayOrder[..|dayOrder|] == dayOrder;
  }

  // ---- The table ----

  function KeyOf(r: Row): Key {
    (r.asset, r.day)
  }

  /** INSERT ... ON CONFLICT DO NOTHING. */
  function Insert(t: Table, r: Row): Table {
    if KeyOf(r) in t then t else t[KeyOf(r) := r.iv]
  }

  ghost function InsertAll(t: Table, rows: seq<Row>): Table {
    if rows == [] then t else Insert(InsertAll(t, rows[..|rows| - 1]), rows[|rows| - 1])
  }

  lemma {:induction false} InsertAllConcat(t: Table, a: seq<Row>, b: seq<Row>)
    ensures InsertAll(t, a + b) == InsertAll(InsertAll(t, a), b)
  {
    if b == [] {
      assert a + b == a;
    } else {
      assert (a + b)[..|a + b| - 1] == a + b[..|b| - 1];
      InsertAllConcat(t, a, b[..|b| - 1]);
    }
  }

  lemma {:induction false} InsertAllKeeps(t: Table, rows: seq<Row>)
    ensures forall k | k in t :: k in InsertAll(t, rows) && InsertAll(t, rows)[k] == t[k]
    ensures forall r | r in rows :: KeyOf(r) in InsertAll(t, rows)
    ensures |t| <= |InsertAll(t, rows)|
  {
    if rows != [] { InsertAllKeeps(t, rows[..|rows| - 1]); }
  }

  /**
   The database.  Each statement counts as one operation; operation number `failAt` fails.  A
   transaction's rows become visible at commit; a failed commit leaves none of them.
   */
  class Db {
    var table: Table
    var staged: Table
    var ops: nat
    const failAt: Option<nat>

    constructor (table: Table, failAt: Option<nat>)
      ensures this.table == table && ops == 0 && this.failAt == failAt
    {
      this.table, this.staged, this.ops, this.failAt := table, table, 0, failAt;
    }

    method Op() returns (ok: bool)
      modifies this`ops
      ensures ok == (failAt != Some(old(ops))) && ops == old(ops) + 1
    {
      ok := failAt != Some(ops);
      ops := ops + 1;
    }

    method BeginTx() returns (ok: bool)
      modifies this`ops, this`staged
      ensures ok == (failAt != Some(old(ops))) && ops == old(ops) + 1
      ensures ok ==> staged == table
    {
      ok := Op();
      if ok { staged := table; }
    }

    method Exec(r: Row) returns (ok: bool, affected: nat)
      modifies this`ops, this`staged
      ensures ok == (failAt != Some(old(ops))) && ops == old(ops) + 1
      ensures if ok then staged == Insert(old(staged), r) && affected == |staged| - |old(staged)|
              else staged == old(staged) && affected == 0
    {
      ok := Op();
      affected := 0;
      if ok && KeyOf(r) !in staged {
        staged := staged[KeyOf(r) := r.iv];
        affected := 1;
      }
    }

    method Commit() returns (ok: bool)
      modifies this`ops, this`table
      ensures ok == (failAt != Some(old(ops))) && ops == old(ops) + 1
      ensures table == if ok then staged else old(table)
    {
      ok := Op();
      if ok { table := staged; }
    }
  }

  /** One batch in one transaction: all of it or nothing. */
  method InsertBatch(db: Db, batch: seq<Row>) returns (ok: bool, affected: nat)
    modifies db`table, db`staged, db`ops
    ensures old(db.ops) <= db.ops
    ensures db.failAt.None? || db.failAt.value < old(db.ops) ==> ok
    ensures db.table == if ok then InsertAll(old(db.table), batch) else old(db.table)
    ensures exists m | 0 <= m <= |batch| ::
      && affected == |InsertAll(old(db.table), batch[..m])| - |old(db.table)|
      && (ok ==> m == |batch|)
  {
    affected := 0;
    assert InsertAll(db.table, batch[..0]) == db.table;
    ok := db.BeginTx();
    if !ok { return; }
    ok := db.Op();  // prepare
    if !ok { return; }
    for i := 0 to |batch|
      invariant db.staged == InsertAll(old(db.table), batch[..i]) && db.table == old(db.table)
      invariant affected == |db.staged| - |old(db.table)|
      invariant old(db.ops) <= db.ops
    {
      assert batch[..i + 1][..i] == batch[..i];
      var n;
      ok, n := db.Exec(batch[i]);
      if !ok { return; }
      affected := affected + n;
    }
    assert batch[..|batch|] == batch;
    ok := db.Commit();
  }

  /**
   Without an error every row is offered once, whatever the batch size, and the count is the
   growth of the table.  After an error the table has exactly the batches before the failing
   one, while the count may also include rows of that batch that were rolled back.
   */
  method InsertRows(db: Db, rows: seq<Row>, batchSize: nat)
    returns (inserted: nat, ok: bool, ghost committed: nat, ghost counted: nat)
    requires batchSize > 0
    modifies db`table, db`staged, db`ops
    ensures db.failAt.None? || db.failAt.value < old(db.ops) ==> ok
    ensures committed <= counted <= |rows| && db.table == InsertAll(old(db.table), rows[..committed])
    ensures inserted == |InsertAll(old(db.table), rows[..counted])| - |old(db.table)|
    ensures if ok then committed == |rows| else WholeBatches(committed, batchSize) && counted - committed <= batchSize
  {
    inserted, ok, committed, counted := 0, true, 0, 0;
    var i := 0;
    while i < |rows|
      invariant old(db.ops) <= db.ops
      invariant WholeBatches(i, batchSize)
      invariant committed == if i < |rows| then i else |rows|
      invariant db.table == InsertAll(old(db.table), rows[..committed])
      invariant inserted == |db.table| - |old(db.table)|
      decreases |rows| - i
    {
      var end := i + batchSize;
      if end > |rows| { end := |rows|; }
      var n;
      ok, n := InsertBatch(db, rows[i..end]);
      inserted := inserted + n;
      counted := BatchPrefix(old(db.table), rows, i, end, n, ok);
      if !ok { return; }
      committed := end;
      i := i + batchSize;
    }
    assert rows[..|rows|] == rows;
    counted := |rows|;
  }

  /** `i` is a whole number of batches. */
  ghost predicate WholeBatches(i: nat, batchSize: nat)
    requires batchSize > 0
  {
    i == 0 || (i >= batchSize && WholeBatches(i - batchSize, batchSize))
  }

  /** What a batch counted, seen from the whole list of rows. */
  lemma BatchPrefix(t: Table, rows: seq<Row>, i: nat, end: nat, affected: nat, ok: bool) returns (counted: nat)
    requires i <= end <= |rows|
    requires var t1 := InsertAll(t, rows[..i]);
      exists m | 0 <= m <= end - i ::
        affected == |InsertAll(t1, rows[i..end][..m])| - |t1| && (ok ==> m == end - i)
    ensures i <= counted <= end && (ok ==> counted == end)
    ensures |InsertAll(t, rows[..counted])| == |InsertAll(t, rows[..i])| + affected
    ensures InsertAll(InsertAll(t, rows[..i]), rows[i..end]) == InsertAll(t, rows[..end])
    ensures |t| <= |InsertAll(t, rows[..i])|
  {
    var t1 := InsertAll(t, rows[..i]);
    var m :| 0 <= m <= end - i && affected == |InsertAll(t1, rows[i..end][..m])| - |t1| && (ok ==> m == end - i);
    counted := i + m;
    assert rows[i..end][..m] == rows[i..counted];
    SplitInsert(t, rows, i, counted);
    SplitInsert(t, rows, i, end);
    InsertAllKeeps(t, rows[..i]);
  }

  lemma SplitInsert(t: Table, rows: seq<Row>, i: nat, j: nat)
    requires i <= j <= |rows|
    ensures InsertAll(InsertAll(t, rows[..i]), rows[i..j]) == InsertAll(t, rows[..j])
    ensures |InsertAll(t, rows[..i])| <= |InsertAll(t, rows[..j])|
  {
    assert rows[..i] + rows[i..j] == rows[..j];
    InsertAllConcat(t, rows[..i], rows[i..j]);
    InsertAllKeeps(InsertAll(t, rows[..i]), rows[i..j]);
  }

  // ---- Pages ----

  /** The whole series behind pages delivered newest first. */
  ghost function Series(pages: seq<seq<Candle>>): seq<Candle> {
    if pages == [] then [] else pages[|pages| - 1] + Series(pages[..|pages| - 1])
  }

  /** The rows the pages give, in the order the code collects them. */
  ghost function PagedRows(asset: string, pages: seq<seq<Candle>>): seq<Row> {
    if pages == [] then [] else PagedRows(asset, pages[..|pages| - 1]) + Rows(asset, pages[|pages| - 1])
  }

  /** `t'` is `t` with the asset's missing days filled from the last candle of each day of `data`. */
  ghost predicate Downsampled(t: Table, t': Table, asset: string, data: seq<Candle>) {
    && (forall k | k in t :: k in t' && t'[k] == t[k])
    && (forall k | k !in t :: k in t' <==> k.0 == asset && LastClose(data, k.1).Some?)
    && (forall k | k !in t && k in t' :: t'[k] == LastClose(data, k.1).value / 100.0)
  }

  lemma {:induction false} LastCloseConcat(a: seq<Candle>, b: seq<Candle>, day: int)
    ensures LastClose(a + b, day) == if LastClose(b, day).Some? then LastClose(b, day) else LastClose(a, day)
  {
    if b == [] {
      assert a + b == a;
    } else {
      assert (a + b)[..|a + b| - 1] == a + b[..|b| - 1];
      LastCloseConcat(a, b[..|b| - 1], day);
    }
  }

  ghost predicate DistinctKeys(rows: seq<Row>) {
    forall i, j | 0 <= i < j < |rows| :: KeyOf(rows[i]) != KeyOf(rows[j])
  }

  /** Inserting rows of distinct days adds exactly the days not yet stored, and changes none that are. */
  lemma {:induction false} InsertDistinct(t: Table, rows: seq<Row>, k: Key)
    requires DistinctKeys(rows)
    ensures var t' := InsertAll(t, rows);
      && (k in t ==> k in t' && t'[k] == t[k])
      && (k in t' && k !in t ==> Row(k.0, k.1, t'[k]) in rows)
      && (forall r | r in rows && KeyOf(r) == k :: k in t' && (k !in t ==> t'[k] == r.iv))
  {
    if rows != [] { InsertDistinct(t, rows[..|rows| - 1], k); }
  }

  lemma RowListed(asset: string, data: seq<Candle>, d: int)
    requires LastClose(data, d).Some?
    ensures RowFor(asset, data, d) in Rows(asset, data)
  {
    var days := DayOrder(data);
    DayListedIff(data, d);
    RowsForAre(asset, data, days);
    var i :| 0 <= i < |days| && days[i] == d;
    assert Rows(asset, data)[i] == RowFor(asset, data, d);
  }

  lemma ListedRow(asset: string, data: seq<Candle>, r: Row)
    requires r in Rows(asset, data)
    ensures LastClose(data, r.day).Some? && r == RowFor(asset, data, r.day)
  {
    var days := DayOrder(data);
    RowsForAre(asset, data, days);
    var i :| 0 <= i < |days| && Rows(asset, data)[i] == r;
    DayListedIff(data, days[i]);
  }

  /** The rows of a downsample: one for each day with a well-formed candle, with its last close. */
  lemma RowIff(asset: string, data: seq<Candle>, r: Row)
    ensures r in Rows(asset, data) <==>
      r.asset == asset && LastClose(data, r.day).Some? && r.iv == LastClose(data, r.day).value / 100.0
  {
    if r in Rows(asset, data) { ListedRow(asset, data, r); }
    if LastClose(data, r.day).Some? { RowListed(asset, data, r.day); }
  }

  lemma RowKeysDistinct(asset: string, data: seq<Candle>)
    ensures DistinctKeys(Rows(asset, data))
  {
    var days, rows := DayOrder(data), Rows(asset, data);
    DaysOnce(data);
    RowsForAre(asset, data, days);
    forall i, j | 0 <= i < j < |rows|
      ensures KeyOf(rows[i]) != KeyOf(rows[j])
    {
      assert rows[i] == RowFor(asset, data, days[i]) && rows[j] == RowFor(asset, data, days[j]);
      assert days[i] != days[j];
    }
  }

  lemma InsertingRowsDownsamples(t: Table, asset: string, data: seq<Candle>)
    ensures Downsampled(t, InsertAll(t, Rows(asset, data)), asset, data)
  {
    var t' := InsertAll(t, Rows(asset, data));
    forall k: Key
      ensures k in t ==> k in t' && t'[k] == t[k]
      ensures k !in t ==> (k in t' <==> k.0 == asset && LastClose(data, k.1).Some?)
      ensures k !in t && k in t' ==> t'[k] == LastClose(data, k.1).value / 100.0
    {
      DayInserted(t, asset, data, k);
    }
  }

  lemma DayInserted(t: Table, asset: string, data: seq<Candle>, k: Key)
    ensures var t' := InsertAll(t, Rows(asset, data));
      if k in t then k in t' && t'[k] == t[k]
      else
        && (k in t' <==> k.0 == asset && LastClose(data, k.1).Some?)
        && (k in t' ==> t'[k] == LastClose(data, k.1).value / 100.0)
  {
    var t' := InsertAll(t, Rows(asset, data));
    RowKeysDistinct(asset, data);
    InsertDistinct(t, Rows(asset, data), k);
    if k in t' { RowIff(asset, data, Row(k.0, k.1, t'[k])); }
    if k.0 == asset && LastClose(data, k.1).Some? {
      RowIff(asset, data, Row(asset, k.1, LastClose(data, k.1).value / 100.0));
    }
  }

  /** Newest page first: a later page only adds days that no newer page had. */
  lemma {:induction false} PagesDownsample(t: Table, asset: string, pages: seq<seq<Candle>>)
    ensures Downsampled(t, InsertAll(t, PagedRows(asset, pages)), asset, Series(pages))
  {
    if pages != [] {
      var newer, oldest := pages[..|pages| - 1], pages[|pages| - 1];
      PagesDownsample(t, asset, newer);
      var t1 := InsertAll(t, PagedRows(asset, newer));
      InsertAllConcat(t, PagedRows(asset, newer), Rows(asset, oldest));
      InsertingRowsDownsamples(t1, asset, oldest);
      forall d
        ensures LastClose(Series(pages), d) ==
          if LastClose(Series(newer), d).Some? then LastClose(Series(newer), d) else LastClose(oldest, d)
      {
        LastCloseConcat(oldest, Series(newer), d);
      }
    }
  }

  /**
   The backfilled table in plain terms: a stored day keeps its value; any other day is stored
   exactly when some page has a well-formed candle in it, as a hundredth of the close of the last
   such candle of the whole series.
   */
  lemma DayBackfilled(t: Table, asset: string, pages: seq<seq<Candle>>, d: int)
    ensures var (k, t') := ((asset, d), InsertAll(t, PagedRows(asset, pages)));
      if k in t then k in t' && t'[k] == t[k]
      else
        && (k in t' <==> exists i: nat :: ClosesDay(Series(pages), i, d))
        && (forall i: nat | ClosesDay(Series(pages), i, d) :: k in t' && t'[k] * 100.0 == Series(pages)[i][4])
  {
    var series := Series(pages);
    PagesDownsample(t, asset, pages);
    if LastClose(series, d).Some? { LastCloseIff(series, d, LastClose(series, d).value); }
    forall i: nat | ClosesDay(series, i, d)
      ensures LastClose(series, d) == Some(series[i][4])
    {
      LastCloseIff(series, d, series[i][4]);
    }
  }

  /** However the series is split into pages, the table is that of one downsample of all of it. */
  lemma PagingIsInvisible(t: Table, asset: string, pages: seq<seq<Candle>>)
    ensures InsertAll(t, PagedRows(asset, pages)) == InsertAll(t, Rows(asset, Series(pages)))
  {
    PagesDownsample(t, asset, pages);
    InsertingRowsDownsamples(t, asset, Series(pages));
    DownsampledUnique(t, InsertAll(t, PagedRows(asset, pages)), InsertAll(t, Rows(asset, Series(pages))),
                      asset, Series(pages));
  }

  lemma DownsampledUnique(t: Table, t1: Table, t2: Table, asset: string, data: seq<Candle>)
    requires Downsampled(t, t1, asset, data) && Downsampled(t, t2, asset, data)
    ensures t1 == t2
  {
    assert forall k :: k in t1 <==> k in t2;
  }

  lemma SeriesOfTwo(newer: Candle, older: Candle)
    ensures Series([[newer], [older]]) == [older, newer]
  {
    assert [[newer], [older]][..1] == [[newer]] && [[newer]][..0] == [];
    assert Series([[newer]]) == [newer];
  }

  /** The order matters: oldest page first would keep a stale close for a day cut in two. */
  lemma OldestFirstIsWrong(asset: string, a: Candle, b: Candle)
    requires WellFormed(a) && WellFormed(b) && DayOf(a) == DayOf(b) && a[4] != b[4]
    ensures InsertAll(map[], PagedRows(asset, [[a], [b]])) != InsertAll(map[], Rows(asset, [a, b]))
  {
    var k := (asset, DayOf(a));
    SeriesOfTwo(a, b);
    PagesDownsample(map[], asset, [[a], [b]]);
    InsertingRowsDownsamples(map[], asset, [a, b]);
    assert LastClose([b, a], k.1) == Some(a[4]);
    assert LastClose([a, b], k.1) == Some(b[4]);
  }

  /** Running again after a failure completes the table as if nothing had failed. */
  lemma {:induction false} RetryCompletes(t: Table, rows: seq<Row>, committed: nat)
    requires committed <= |rows|
    ensures InsertAll(InsertAll(t, rows[..committed]), rows) == InsertAll(t, rows)
  {
    var t1 := InsertAll(t, rows[..committed]);
    assert rows[..committed] + rows[committed..] == rows;
    InsertAllKeeps(t, rows[..committed]);
    InsertNothing(t1, rows[..committed]);
    InsertAllConcat(t1, rows[..committed], rows[committed..]);
    InsertAllConcat(t, rows[..committed], rows[committed..]);
  }

  lemma {:induction false} InsertNothing(t: Table, rows: seq<Row>)
    requires forall r | r in rows :: KeyOf(r) in t
    ensures InsertAll(t, rows) == t
  {
    if rows != [] { InsertNothing(t, rows[..|rows| - 1]); }
  }

  // ---- The paging loop ----

  datatype Reply = FetchError | Page(data: seq<Candle>, continuation: Option<real>)

  datatype Status = Exhausted | Broken | Finished

  datatype Outcome = Cancelled | FetchFailed | NoData | InsertFailed(inserted: nat) | Complete(inserted: nat)

  ghost function PageData(replies: seq<Reply>): (pages: seq<seq<Candle>>)
    requires forall r | r in replies :: r.Page?
    ensures |pages| == |replies|
  {
    seq(|replies|, i requires 0 <= i < |replies| => replies[i].data)
  }

  /** The requests follow the continuations, and only the last reply used may have none. */
  ghost predicate Chained(replies: seq<Reply>, used: nat, requests: seq<(int, int)>, startMs: int, endMs: int) {
    && used == |requests| <= |replies|
    && (forall j | 0 <= j < used - 1 :: replies[j].Page? && replies[j].continuation.Some?)
    && (forall j | 0 <= j < used ::
          requests[j] == (startMs, if j == 0 then endMs else Trunc(replies[j - 1].continuation.value)))
  }

  /** The rows of the first `n` replies. */
  ghost function FetchedRows(asset: string, replies: seq<Reply>, n: nat): seq<Row>
    requires n <= |replies|
  {
    if n == 0 then []
    else if replies[n - 1].Page? then FetchedRows(asset, replies, n - 1) + Rows(asset, replies[n - 1].data)
    else FetchedRows(asset, replies, n - 1)
  }

  lemma PagedSnoc(asset: string, pages: seq<seq<Candle>>, page: seq<Candle>)
    ensures PagedRows(asset, pages + [page]) == PagedRows(asset, pages) + Rows(asset, page)
  {
    assert (pages + [page])[..|pages|] == pages;
  }

  lemma {:induction false} FetchedIsPaged(asset: string, replies: seq<Reply>, n: nat)
    requires n <= |replies| && forall j | 0 <= j < n :: replies[j].Page?
    ensures FetchedRows(asset, replies, n) == PagedRows(asset, PageData(replies[..n]))
  {
    if n > 0 {
      FetchedIsPaged(asset, replies, n - 1);
      var pages := PageData(replies[..n - 1]);
      assert PageData(replies[..n]) == pages + [replies[n - 1].data];
      PagedSnoc(asset, pages, replies[n - 1].data);
    }
  }

  /** The first `n` replies each name a continuation. */
  ghost predicate Continues(replies: seq<Reply>, n: nat) {
    n <= |replies| && forall j | 0 <= j < n :: replies[j].Page? && replies[j].continuation.Some?
  }

  function EndOf(replies: seq<Reply>, i: nat, endMs: int): int
    requires i <= |replies|
  {
    if i > 0 && replies[i - 1].Page? && replies[i - 1].continuation.Some? then Trunc(replies[i - 1].continuation.value)
    else endMs
  }

  /** Each request ends where the reply before it says. */
  ghost predicate Asked(replies: seq<Reply>, requests: seq<(int, int)>, startMs: int, endMs: int) {
    |requests| <= |replies| && forall j | 0 <= j < |requests| :: requests[j] == (startMs, EndOf(replies, j, endMs))
  }

  lemma AskNext(replies: seq<Reply>, requests: seq<(int, int)>, startMs: int, endMs: int)
    requires Asked(replies, requests, startMs, endMs) && |requests| < |replies|
    ensures Asked(replies, requests + [(startMs, EndOf(replies, |requests|, endMs))], startMs, endMs)
  {}

  lemma AskedIsChained(replies: seq<Reply>, requests: seq<(int, int)>, startMs: int, endMs: int)
    requires Asked(replies, requests, startMs, endMs) && (requests == [] || Continues(replies, |requests| - 1))
    ensures Chained(replies, |requests|, requests, startMs, endMs)
  {}

  /** What the loop holds before each request: all answers so far were pages that named a continuation. */
  ghost predicate Fetching(asset: string, startMs: int, endMs: int, replies: seq<Reply>,
                           end: int, allRows: seq<Row>, requests: seq<(int, int)>) {
    && Continues(replies, |requests|) && end == EndOf(replies, |requests|, endMs)
    && Asked(replies, requests, startMs, endMs)
    && allRows == FetchedRows(asset, replies, |requests|)
  }

  /** What the loop has got when it stops. */
  ghost predicate Fetched(status: Status, asset: string, replies: seq<Reply>, allRows: seq<Row>, used: nat) {
    match status
    case Exhausted => used == |replies|
    case Broken => 0 < used <= |replies| && replies[used - 1].FetchError?
    case Finished =>
      && 0 < used <= |replies| && (forall r | r in replies[..used] :: r.Page?)
      && replies[used - 1].continuation.None?
      && allRows == PagedRows(asset, PageData(replies[..used]))
  }

  lemma FetchStops(asset: string, startMs: int, endMs: int, replies: seq<Reply>,
                   end: int, allRows: seq<Row>, requests: seq<(int, int)>)
    requires Fetching(asset, startMs, endMs, replies, end, allRows, requests)
    ensures Chained(replies, |requests|, requests, startMs, endMs)
  {
    AskedIsChained(replies, requests, startMs, endMs);
  }

  /** One more request, whatever its answer. */
  lemma FetchAsks(asset: string, startMs: int, endMs: int, replies: seq<Reply>,
                  end: int, allRows: seq<Row>, requests: seq<(int, int)>)
    requires Fetching(asset, startMs, endMs, replies, end, allRows, requests) && |requests| < |replies|
    ensures Asked(replies, requests + [(startMs, end)], startMs, endMs)
    ensures Chained(replies, |requests| + 1, requests + [(startMs, end)], startMs, endMs)
  {
    AskNext(replies, requests, startMs, endMs);
    AskedIsChained(replies, requests + [(startMs, end)], startMs, endMs);
  }

  /** After a page, its rows are in; if it names a continuation, that is where the next request ends. */
  lemma FetchNext(asset: string, startMs: int, endMs: int, replies: seq<Reply>,
                  end: int, allRows: seq<Row>, requests: seq<(int, int)>)
    requires Fetching(asset, startMs, endMs, replies, end, allRows, requests) && |requests| < |replies|
    requires replies[|requests|].Page? && replies[|requests|].continuation.Some?
    ensures Fetching(asset, startMs, endMs, replies, Trunc(replies[|requests|].continuation.value),
                     allRows + Rows(asset, replies[|requests|].data), requests + [(startMs, end)])
  {
    FetchAsks(asset, startMs, endMs, replies, end, allRows, requests);
  }

  lemma FetchFinishes(asset: string, startMs: int, endMs: int, replies: seq<Reply>,
                      end: int, allRows: seq<Row>, requests: seq<(int, int)>)
    requires Fetching(asset, startMs, endMs, replies, end, allRows, requests) && |requests| < |replies|
    requires replies[|requests|].Page? && replies[|requests|].continuation.None?
    ensures Fetched(Finished, asset, replies, allRows + Rows(asset, replies[|requests|].data), |requests| + 1)
  {
    FetchedIsPaged(asset, replies, |requests| + 1);
  }

  /**
   Fetches pages until one has no continuation.  The server answers `replies` in turn; the context
   is cancelled once they run out.
   */
  method FetchPages(asset: string, startMs: int, endMs: int, replies: seq<Reply>)
    returns (status: Status, allRows: seq<Row>, requests: seq<(int, int)>)
    ensures Chained(replies, |requests|, requests, startMs, endMs)
    ensures Fetched(status, asset, replies, allRows, |requests|)
  {
    var end := endMs;
    allRows, requests := [], [];
    while |requests| < |replies|
      invariant Fetching(asset, startMs, endMs, replies, end, allRows, requests)
      decreases |replies| - |requests|
    {
      var reply := replies[|requests|];
      FetchAsks(asset, startMs, endMs, replies, end, allRows, requests);
      if reply.FetchError? { return Broken, allRows, requests + [(startMs, end)]; }
      var rows := DownsampleToDaily(asset, reply.data);
      if reply.continuation.None? {
        FetchFinishes(asset, startMs, endMs, replies, end, allRows, requests);
        return Finished, allRows + rows, requests + [(startMs, end)];
      }
      FetchNext(asset, startMs, endMs, replies, end, allRows, requests);
      requests := requests + [(startMs, end)];
      allRows := allRows + rows;
      end := Trunc(reply.continuation.value);
    }
    FetchStops(asset, startMs, endMs, replies, end, allRows, requests);
    status := Exhausted;
  }

  /** Backfills one asset.  Unless it fails, the table is that of one downsample of the whole series. */
  method BackfillAsset(db: Db, batchSize: nat, asset: string, startMs: int, endMs: int, replies: seq<Reply>)
    returns (outcome: Outcome, requests: seq<(int, int)>)
    requires batchSize > 0
    modifies db`table, db`staged, db`ops
    ensures Chained(replies, |requests|, requests, startMs, endMs)
    ensures match outcome
      case Cancelled => db.table == old(db.table) && |requests| == |replies|
      case FetchFailed => db.table == old(db.table) && requests != [] && replies[|requests| - 1].FetchError?
      case InsertFailed(_) =>
        && (forall r | r in replies[..|requests|] :: r.Page?)
        && exists n: nat :: n <= |PagedRows(asset, PageData(replies[..|requests|]))|
             && db.table == InsertAll(old(db.table), PagedRows(asset, PageData(replies[..|requests|]))[..n])
      case _ =>
        && (forall r | r in replies[..|requests|] :: r.Page?)
        && Downsampled(old(db.table), db.table, asset, Series(PageData(replies[..|requests|])))
    ensures outcome.Complete? ==> outcome.inserted == |db.table| - |old(db.table)|
  {
    var status, allRows;
    status, allRows, requests := FetchPages(asset, startMs, endMs, replies);
    if status.Exhausted? { return Cancelled, requests; }
    if status.Broken? { return FetchFailed, requests; }
    ghost var pages := PageData(replies[..|requests|]);
    PagesDownsample(db.table, asset, pages);
    if |allRows| == 0 { return NoData, requests; }
    var inserted, ok, committed, counted := InsertRows(db, allRows, batchSize);
    if !ok { return InsertFailed(inserted), requests; }
    assert allRows[..committed] == allRows == allRows[..counted];
    outcome := Complete(inserted);
  }
}
