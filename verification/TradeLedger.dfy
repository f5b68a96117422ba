/**
 The fill ledger: average-cost positions with oversells clamped, realized P&L grouped by
 day, and the equity curve with its running peak and drawdown.  Amounts are reals.
 */
module TradeLedger {
  import opened Wrappers

  datatype Side = Buy | Sell | OtherSide

  /** A filled order with its Unix time; the loader has dropped those without a positive quantity and price. */
  datatype Fill = Fill(symbol: string, side: Side, quantity: real, price: real, filledAt: int)

  /** The UTC date of a fill, in days since the epoch. */
  function DayOf(f: Fill): int {
    f.filledAt / 86_400
  }

  /** The fill's time lies in the 86,400 seconds of the UTC day `d`. */
  ghost predicate InDay(f: Fill, d: int) {
    86_400 * d <= f.filledAt < 86_400 * (d + 1)
  }

  lemma DayIff(f: Fill, d: int)
    ensures DayOf(f) == d <==> InDay(f, d)
  {}

  datatype Position = Position(avgEntry: real, quantity: real)

  const FLAT := Position(0.0, 0.0)

  ghost predicate ValidFills(fills: seq<Fill>) {
    forall f | f in fills :: f.quantity > 0.0 && f.price > 0.0
  }

  function SellQuantity(pos: Position, f: Fill): real {
    if f.quantity > pos.quantity then pos.quantity else f.quantity
  }

  /** The position after buying: the average is weighted by quantity. */
  function Bought(p: Position, f: Fill): Position {
    var q := p.quantity + f.quantity;
    Position(if q > 0.0 then (p.avgEntry * p.quantity + f.price * f.quantity) / q else p.avgEntry, q)
  }

  /** The position and the realized P&L one fill of its symbol leaves; None is a symbol never bought. */
  ghost function Apply(pos: Option<Position>, f: Fill): (Option<Position>, real) {
    match f.side
    case Buy =>
      (Some(Bought(if pos.Some? then pos.value else FLAT, f)), 0.0)
    case Sell =>
      if pos.Some? && pos.value.quantity > 0.0 then
        var sold := SellQuantity(pos.value, f);
        var left := pos.value.quantity - sold;
        (Some(if left <= 0.0 then FLAT else pos.value.(quantity := left)), (f.price - pos.value.avgEntry) * sold)
      else (pos, 0.0)
    case OtherSide => (pos, 0.0)
  }

  ghost function Held(pos: Option<Position>): Position {
    if pos.Some? then pos.value else FLAT
  }

  /**
   What a fill does, in plain terms.  A buy adds its quantity, its cost going into the average; a
   sell of no more than is held lowers the quantity and keeps the average; a sell of all of it or
   more leaves the position flat, and realizes what was held; a sell of nothing held, and any
   other side, changes nothing.
   */
  lemma FillIs(pos: Option<Position>, f: Fill)
    requires f.quantity > 0.0 && (pos.Some? ==> pos.value.quantity >= 0.0)
    ensures var (held, (after, pnl)) := (Held(pos), Apply(pos, f));
      match f.side
      case Buy =>
        && after.Some? && pnl == 0.0 && after.value.quantity == held.quantity + f.quantity
        && after.value.avgEntry * after.value.quantity == held.avgEntry * held.quantity + f.price * f.quantity
      case Sell =>
        if held.quantity == 0.0 then after == pos && pnl == 0.0
        else if f.quantity >= held.quantity then
          after == Some(Position(0.0, 0.0)) && pnl == (f.price - held.avgEntry) * held.quantity
        else
          && after == Some(Position(held.avgEntry, held.quantity - f.quantity))
          && pnl == (f.price - held.avgEntry) * f.quantity
      case OtherSide => after == pos && pnl == 0.0
  {
    if f.side.Buy? {
      var held := Held(pos);
      Quotient(held.avgEntry * held.quantity + f.price * f.quantity, held.quantity + f.quantity);
    }
  }

  /** The position of `sym` after the first `n` fills. */
  ghost function PositionAt(fills: seq<Fill>, n: nat, sym: string): Option<Position>
    requires n <= |fills|
  {
    if n == 0 then None
    else
      var pos := PositionAt(fills, n - 1, sym);
      if fills[n - 1].symbol == sym then Apply(pos, fills[n - 1]).0 else pos
  }

  ghost function PnlAt(fills: seq<Fill>, k: nat): real
    requires k < |fills|
  {
    Apply(PositionAt(fills, k, fills[k].symbol), fills[k]).1
  }

  ghost function PnlOn(fills: seq<Fill>, n: nat, day: int): real
    requires n <= |fills|
  {
    if n == 0 then 0.0 else PnlOn(fills, n - 1, day) + if DayOf(fills[n - 1]) == day then PnlAt(fills, n - 1) else 0.0
  }

  ghost function FillsOn(fills: seq<Fill>, n: nat, day: int): nat
    requires n <= |fills|
  {
    if n == 0 then 0 else FillsOn(fills, n - 1, day) + if DayOf(fills[n - 1]) == day then 1 else 0
  }

  /** The P&L of the fills of a day, added up, and their number. */
  ghost function BookedOn(fills: seq<Fill>, n: nat, d: int): (real, nat)
    requires n <= |fills|
  {
    if n == 0 then (0.0, 0)
    else
      var (pnl, count) := BookedOn(fills, n - 1, d);
      if InDay(fills[n - 1], d) then (pnl + PnlAt(fills, n - 1), count + 1) else (pnl, count)
  }

  /** What the daily map holds for a UTC day. */
  lemma {:induction false} DailyIs(fills: seq<Fill>, n: nat, d: int)
    requires n <= |fills|
    ensures BookedOn(fills, n, d) == (PnlOn(fills, n, d), FillsOn(fills, n, d))
  {
    if n > 0 {
      DailyIs(fills, n - 1, d);
      DayIff(fills[n - 1], d);
    }
  }

  datatype DailyAccum = DailyAccum(realizedPnL: real, tradeCount: nat)

  /** What the daily map holds after the first `n` fills: a day per fill day, with its P&L and count. */
  ghost predicate IsDaily(fills: seq<Fill>, n: nat, daily: map<int, DailyAccum>)
    requires n <= |fills|
  {
    && (forall d :: d in daily <==> FillsOn(fills, n, d) > 0)
    && (forall d | d in daily :: daily[d] == DailyAccum(PnlOn(fills, n, d), FillsOn(fills, n, d)))
  }

  lemma {:induction false} NoFillsNoPnl(fills: seq<Fill>, n: nat, day: int)
    requires n <= |fills| && FillsOn(fills, n, day) == 0
    ensures PnlOn(fills, n, day) == 0.0
  {
    if n > 0 { NoFillsNoPnl(fills, n - 1, day); }
  }

  function Lookup(positions: map<string, Position>, sym: string): Option<Position> {
    if sym in positions then Some(positions[sym]) else None
  }

  /** The position tracking and daily accumulation loop. */
  method TrackPositions(fills: seq<Fill>) returns (positions: map<string, Position>, daily: map<int, DailyAccum>)
    ensures forall sym :: Lookup(positions, sym) == PositionAt(fills, |fills|, sym)
    ensures IsDaily(fills, |fills|, daily)
  {
    positions, daily := map[], map[];
    for n := 0 to |fills|
      invariant forall sym :: Lookup(positions, sym) == PositionAt(fills, n, sym)
      invariant IsDaily(fills, n, daily)
    {
      var f := fills[n];
      var fillPnL;
      positions, fillPnL := HandleFill(positions, f);
      assert fillPnL == PnlAt(fills, n);
      if DayOf(f) !in daily { NoFillsNoPnl(fills, n, DayOf(f)); }
      var accum := if DayOf(f) in daily then daily[DayOf(f)] else DailyAccum(0.0, 0);
      daily := daily[DayOf(f) := DailyAccum(accum.realizedPnL + fillPnL, accum.tradeCount + 1)];
    }
  }

  method HandleFill(positions0: map<string, Position>, f: Fill)
    returns (positions: map<string, Position>, fillPnL: real)
    ensures Lookup(positions, f.symbol) == Apply(Lookup(positions0, f.symbol), f).0
    ensures fillPnL == Apply(Lookup(positions0, f.symbol), f).1
    ensures forall sym | sym != f.symbol :: Lookup(positions, sym) == Lookup(positions0, sym)
  {
    positions, fillPnL := positions0, 0.0;
    match f.side
    case Buy =>
      var pos := if f.symbol in positions then positions[f.symbol] else FLAT;
      var totalCost := pos.avgEntry * pos.quantity + f.price * f.quantity;
      var quantity, avgEntry := pos.quantity + f.quantity, pos.avgEntry;
      if quantity > 0.0 { avgEntry := totalCost / quantity; }
      assert pos == Held(Lookup(positions0, f.symbol)) && Position(avgEntry, quantity) == Bought(pos, f);
      positions := positions[f.symbol := Position(avgEntry, quantity)];
    case Sell =>
      if f.symbol in positions && positions[f.symbol].quantity > 0.0 {
        var pos := positions[f.symbol];
        var sellQty := f.quantity;
        if sellQty > pos.quantity { sellQty := pos.quantity; }
        assert sellQty == SellQuantity(pos, f);
        fillPnL := (f.price - pos.avgEntry) * sellQty;
        pos := pos.(quantity := pos.quantity - sellQty);
        if pos.quantity <= 0.0 { pos := Position(0.0, 0.0); }
        positions := positions[f.symbol := pos];
      }
      assert Lookup(positions, f.symbol) == Apply(Lookup(positions0, f.symbol), f).0;
    case OtherSide =>
  }

  // ---- Conservation, per symbol ----

  /** Money and shares that went through a symbol; of a sell only the shares held are sold. */
  datatype Flow = Flow(buyCost: real, bought: real, proceeds: real, sold: real, realized: real)

  /** What one fill of the symbol adds. */
  ghost function AddFlow(w: Flow, pos: Option<Position>, f: Fill): Flow {
    match f.side
    case Buy => w.(buyCost := w.buyCost + f.price * f.quantity, bought := w.bought + f.quantity)
    case Sell =>
      var held := Held(pos).quantity;
      var sold := if f.quantity < held then f.quantity else held;
      w.(proceeds := w.proceeds + f.price * sold, sold := w.sold + sold, realized := w.realized + Apply(pos, f).1)
    case OtherSide => w
  }

  ghost function FlowAt(fills: seq<Fill>, n: nat, sym: string): Flow
    requires n <= |fills|
  {
    if n == 0 then Flow(0.0, 0.0, 0.0, 0.0, 0.0)
    else
      var w, f := FlowAt(fills, n - 1, sym), fills[n - 1];
      if f.symbol == sym then AddFlow(w, PositionAt(fills, n - 1, sym), f) else w
  }

  ghost predicate Conserved(pos: Position, w: Flow) {
    && w.buyCost + w.realized == pos.avgEntry * pos.quantity + w.proceeds
    && w.bought == pos.quantity + w.sold
    && pos.quantity >= 0.0 && pos.avgEntry >= 0.0
    && (pos.quantity == 0.0 ==> pos.avgEntry == 0.0)
    && (pos.quantity > 0.0 ==> pos.avgEntry > 0.0)
  }

  ghost function Holding(fills: seq<Fill>, n: nat, sym: string): Position
    requires n <= |fills|
  {
    Held(PositionAt(fills, n, sym))
  }

  lemma Quotient(a: real, b: real)
    requires b > 0.0
    ensures a / b * b == a
    ensures a > 0.0 ==> a / b > 0.0
  {
    assert a / b * b == a;
    SameSign(a / b, b, a);
  }

  lemma BuyConserves(pos: Position, w: Flow, f: Fill)
    requires Conserved(pos, w) && f.quantity > 0.0 && f.price > 0.0
    ensures Conserved(Bought(pos, f), w.(buyCost := w.buyCost + f.price * f.quantity, bought := w.bought + f.quantity))
  {
    var total := pos.avgEntry * pos.quantity + f.price * f.quantity;
    assert f.price * f.quantity > 0.0 && pos.avgEntry * pos.quantity >= 0.0;
    Quotient(total, pos.quantity + f.quantity);
  }

  /** The money side of selling `sold` shares. */
  lemma SellBalances(avg: real, quantity: real, price: real, sold: real, paid: real, proceeds: real)
    requires paid == avg * quantity + proceeds
    ensures paid + (price - avg) * sold == avg * (quantity - sold) + (proceeds + price * sold)
  {
    assert (price - avg) * sold == price * sold - avg * sold;
    assert avg * (quantity - sold) == avg * quantity - avg * sold;
  }

  lemma SellConserves(pos: Position, w: Flow, f: Fill)
    requires f.side == Sell && Conserved(pos, w) && f.quantity > 0.0 && pos.quantity > 0.0
    ensures Conserved(Held(Apply(Some(pos), f).0), AddFlow(w, Some(pos), f))
  {
    var sold := SellQuantity(pos, f);
    var left := pos.quantity - sold;
    SellBalances(pos.avgEntry, pos.quantity, f.price, sold, w.buyCost + w.realized, w.proceeds);
    var w' := AddFlow(w, Some(pos), f);
    assert w'.buyCost + w'.realized == pos.avgEntry * left + w'.proceeds;
    if left <= 0.0 {
      assert left == 0.0 && pos.avgEntry * left == 0.0;
    }
  }

  lemma SellNothing(pos: Option<Position>, w: Flow, f: Fill)
    requires f.side == Sell && Conserved(Held(pos), w) && f.quantity > 0.0 && Held(pos).quantity == 0.0
    ensures Held(Apply(pos, f).0) == Held(pos) && AddFlow(w, pos, f) == w
  {}

  /**
   For every fill sequence and symbol: what was paid plus what was realized is the cost basis
   still held plus the proceeds of the shares sold; every share bought is held or sold; and a
   flat position has no average.
   */
  lemma {:induction false} LedgerConserves(fills: seq<Fill>, n: nat, sym: string)
    requires n <= |fills| && ValidFills(fills)
    ensures Conserved(Holding(fills, n, sym), FlowAt(fills, n, sym))
  {
    if n > 0 {
      LedgerConserves(fills, n - 1, sym);
      assert fills[n - 1] in fills;
      FillConserves(PositionAt(fills, n - 1, sym), FlowAt(fills, n - 1, sym), fills[n - 1]);
    }
  }

  lemma FillConserves(pos: Option<Position>, w: Flow, f: Fill)
    requires Conserved(Held(pos), w) && f.quantity > 0.0 && f.price > 0.0
    ensures Conserved(Held(Apply(pos, f).0), AddFlow(w, pos, f))
  {
    match f.side
    case Buy => BuyConserves(Held(pos), w, f);
    case Sell => if Held(pos).quantity > 0.0 { SellConserves(Held(pos), w, f); } else { SellNothing(pos, w, f); }
    case OtherSide =>
  }

  // ---- The average lies between prices paid since the position was last flat ----

  /** Fill `i` bought `sym`, and the position has not been flat since. */
  ghost predicate BoughtSinceFlat(fills: seq<Fill>, n: nat, sym: string, i: nat)
    requires n <= |fills|
  {
    && i < n && fills[i].symbol == sym && fills[i].side == Buy
    && forall m | i < m <= n :: Holding(fills, m, sym).quantity > 0.0
  }

  lemma AverageBetween(pos: Position, f: Fill)
    requires pos.quantity >= 0.0 && f.quantity > 0.0
    ensures var a := Bought(pos, f).avgEntry;
      && (pos.quantity == 0.0 ==> a == f.price)
      && (pos.avgEntry <= f.price ==> pos.avgEntry <= a <= f.price)
      && (f.price <= pos.avgEntry ==> f.price <= a <= pos.avgEntry)
  {
    var avg, q, price, x := pos.avgEntry, pos.quantity, f.price, f.quantity;
    var a, s := Bought(pos, f).avgEntry, q + x;
    Quotient(avg * q + price * x, s);
    assert a * s == avg * q + price * x;
    assert (a - price) * s == (avg - price) * q;
    assert (a - avg) * s == (price - avg) * x;
    SameSign(a - price, s, (avg - price) * q);
    SameSign(a - avg, s, (price - avg) * x);
    if avg <= price { assert (avg - price) * q <= 0.0 && (price - avg) * x >= 0.0; }
    if price <= avg { assert (avg - price) * q >= 0.0 && (price - avg) * x <= 0.0; }
  }

  lemma SameSign(a: real, s: real, b: real)
    requires s > 0.0 && a * s == b
    ensures (b >= 0.0 ==> a >= 0.0) && (b <= 0.0 ==> a <= 0.0)
  {}

  /** The average of a position that is not flat lies between two prices paid since it last was. */
  lemma {:induction false} AverageWithinBuys(fills: seq<Fill>, n: nat, sym: string) returns (lo: nat, hi: nat)
    requires n <= |fills| && ValidFills(fills) && Holding(fills, n, sym).quantity > 0.0
    ensures BoughtSinceFlat(fills, n, sym, lo) && BoughtSinceFlat(fills, n, sym, hi)
    ensures fills[lo].price <= Holding(fills, n, sym).avgEntry <= fills[hi].price
  {
    var pos, f := Holding(fills, n - 1, sym), fills[n - 1];
    LedgerConserves(fills, n - 1, sym);
    assert f in fills;
    AverageStep(fills, n - 1, sym);
    if f.symbol == sym && f.side == Buy {
      lo, hi := n - 1, n - 1;
      if pos.quantity > 0.0 {
        var lo', hi' := AverageWithinBuys(fills, n - 1, sym);
        if f.price < pos.avgEntry { hi := hi'; } else { lo := lo'; }
      }
    } else {
      lo, hi := AverageWithinBuys(fills, n - 1, sym);
    }
  }

  lemma AverageStep(fills: seq<Fill>, k: nat, sym: string)
    requires k < |fills| && fills[k].quantity > 0.0 && Holding(fills, k, sym).quantity >= 0.0
    requires Holding(fills, k + 1, sym).quantity > 0.0
    ensures var (pos, pos', f) := (Holding(fills, k, sym), Holding(fills, k + 1, sym), fills[k]);
      if f.symbol == sym && f.side == Buy then
        && (pos.quantity == 0.0 ==> pos'.avgEntry == f.price)
        && (pos.avgEntry <= f.price ==> pos.avgEntry <= pos'.avgEntry <= f.price)
        && (f.price <= pos.avgEntry ==> f.price <= pos'.avgEntry <= pos.avgEntry)
      else pos.quantity > 0.0 && pos'.avgEntry == pos.avgEntry
  {
    var pos, f := Holding(fills, k, sym), fills[k];
    if f.symbol == sym && f.side == Buy {
      AverageBetween(pos, f);
    }
  }

  // ---- Grouping by day ----

  ghost predicate Ascending(days: seq<int>) {
    forall i, j | 0 <= i < j < |days| :: days[i] < days[j]
  }

  ghost predicate SameDays(a: seq<int>, b: seq<int>) {
    forall d :: d in a <==> d in b
  }

  /** The days of the map, in order. */
  ghost predicate ListsDays(days: seq<int>, daily: map<int, DailyAccum>) {
    Ascending(days) && forall d :: d in days <==> d in daily
  }

  lemma LastDay(days: seq<int>)
    requires Ascending(days) && days != []
    ensures var x := days[|days| - 1];
      && x in days
      && (forall d | d in days :: d <= x)
      && (forall d :: d in days[..|days| - 1] <==> d in days && d != x)
  {
    var x := days[|days| - 1];
    assert days == days[..|days| - 1] + [x];
  }

  /** Two sorted lists of the same days are the same list. */
  lemma {:induction false} SortedDaysUnique(a: seq<int>, b: seq<int>)
    requires Ascending(a) && Ascending(b) && SameDays(a, b)
    ensures a == b
  {
    if a != [] && b != [] {
      LastDay(a);
      LastDay(b);
      assert a[|a| - 1] in b && b[|b| - 1] in a;
      var a', b' := a[..|a| - 1], b[..|b| - 1];
      forall d
        ensures d in a' <==> d in b'
      {
        assert d in a <==> d in b;
      }
      SortedDaysUnique(a', b');
      assert a == a[..|a| - 1] + [a[|a| - 1]];
      assert b == b[..|b| - 1] + [b[|b| - 1]];
    } else if a != [] {
      LastDay(a);
    } else if b != [] {
      LastDay(b);
    }
  }

  /** Sorts the days in the order the map happened to be walked in. */
  method SortDays(order: seq<int>) returns (days: seq<int>)
    requires forall i, j | 0 <= i < j < |order| :: order[i] != order[j]
    ensures Ascending(days) && SameDays(days, order)
  {
    days := [];
    for n := 0 to |order|
      invariant Ascending(days) && SameDays(days, order[..n])
    {
      assert order[..n + 1] == order[..n] + [order[n]];
      assert order[n] !in order[..n];
      days := InsertDay(days, order[n]);
    }
    assert order[..|order|] == order;
  }

  method InsertDay(days0: seq<int>, d: int) returns (days: seq<int>)
    requires Ascending(days0) && d !in days0
    ensures Ascending(days) && SameDays(days, days0 + [d])
  {
    var i := 0;
    while i < |days0| && days0[i] < d
      invariant i <= |days0| && forall j | 0 <= j < i :: days0[j] < d
    {
      i := i + 1;
    }
    assert i < |days0| ==> days0[i] in days0;
    assert days0 == days0[..i] + days0[i..];
    InsertedBetween(days0[..i], d, days0[i..]);
    days := days0[..i] + [d] + days0[i..];
  }

  lemma InsertedBetween(a: seq<int>, d: int, b: seq<int>)
    requires Ascending(a + b) && (forall x | x in a :: x < d) && (b != [] ==> d < b[0])
    ensures Ascending(a + [d] + b) && SameDays(a + [d] + b, a + b + [d])
  {
    var all, was := a + [d] + b, a + b;
    forall i, j | 0 <= i < j < |all|
      ensures all[i] < all[j]
    {
      if j < |a| {
        assert all[i] == was[i] && all[j] == was[j];
      } else if j > |a| {
        assert all[j] == was[j - 1] && b[0] == was[|a|];
        if i < |a| { assert all[i] == was[i]; } else if i > |a| { assert all[i] == was[i - 1]; }
      } else {
        assert all[i] == a[i] && a[i] in a;
      }
    }
  }

  ghost function SumOver(days: seq<int>, n: nat, f: int -> real): real
    requires n <= |days|
  {
    if n == 0 then 0.0 else SumOver(days, n - 1, f) + f(days[n - 1])
  }

  lemma {:induction false} SumBump(days: seq<int>, n: nat, f: int -> real, g: int -> real, day: int, x: real)
    requires n <= |days| && Ascending(days)
    requires forall d :: g(d) == f(d) + if d == day then x else 0.0
    ensures SumOver(days, n, g) == SumOver(days, n, f) + if day in days[..n] then x else 0.0
  {
    if n > 0 {
      SumBump(days, n - 1, f, g, day, x);
      assert days[..n] == days[..n - 1] + [days[n - 1]];
      if day in days[..n - 1] {
        var i :| 0 <= i < n - 1 && days[i] == day;
      }
    }
  }

  ghost function TotalPnl(fills: seq<Fill>, n: nat): real
    requires n <= |fills|
  {
    if n == 0 then 0.0 else TotalPnl(fills, n - 1) + PnlAt(fills, n - 1)
  }

  ghost function DayPnl(fills: seq<Fill>, n: nat): int -> real
    requires n <= |fills|
  {
    d => PnlOn(fills, n, d)
  }

  ghost function DayCount(fills: seq<Fill>, n: nat): int -> real
    requires n <= |fills|
  {
    d => FillsOn(fills, n, d) as real
  }

  lemma {:induction false} SumOfZeros(days: seq<int>, n: nat, f: int -> real)
    requires n <= |days| && forall d :: f(d) == 0.0
    ensures SumOver(days, n, f) == 0.0
  {
    if n > 0 { SumOfZeros(days, n - 1, f); }
  }

  /** Grouping loses and double-counts nothing. */
  lemma {:induction false} DaysAddUp(fills: seq<Fill>, n: nat, days: seq<int>)
    requires n <= |fills| && Ascending(days) && forall k | 0 <= k < n :: DayOf(fills[k]) in days
    ensures SumOver(days, |days|, DayPnl(fills, n)) == TotalPnl(fills, n)
    ensures SumOver(days, |days|, DayCount(fills, n)) == n as real
  {
    if n == 0 {
      SumOfZeros(days, |days|, DayPnl(fills, 0));
      SumOfZeros(days, |days|, DayCount(fills, 0));
    } else {
      DaysAddUp(fills, n - 1, days);
      assert days[..|days|] == days;
      SumBump(days, |days|, DayPnl(fills, n - 1), DayPnl(fills, n), DayOf(fills[n - 1]), PnlAt(fills, n - 1));
      SumBump(days, |days|, DayCount(fills, n - 1), DayCount(fills, n), DayOf(fills[n - 1]), 1.0);
    }
  }

  // ---- Equity, peak and drawdown ----

  datatype EquityPoint = EquityPoint(day: int, realizedPnL: real, tradeCount: nat, equity: real, drawdown: real)

  /** Equity after the first `k` days. */
  ghost function EquityAt(init: real, days: seq<int>, daily: map<int, DailyAccum>, k: nat): real
    requires k <= |days| && forall d | d in days :: d in daily
  {
    if k == 0 then init else EquityAt(init, days, daily, k - 1) + daily[days[k - 1]].realizedPnL
  }

  /** `peak` is the largest equity from the start through day `k`. */
  ghost predicate IsPeak(init: real, days: seq<int>, daily: map<int, DailyAccum>, k: nat, peak: real)
    requires k <= |days| && forall d | d in days :: d in daily
  {
    && (forall j: nat | j <= k :: EquityAt(init, days, daily, j) <= peak)
    && (exists j: nat | j <= k :: EquityAt(init, days, daily, j) == peak)
  }

  lemma PeakNext(init: real, days: seq<int>, daily: map<int, DailyAccum>, k: nat, peak: real)
    requires k < |days| && (forall d | d in days :: d in daily) && IsPeak(init, days, daily, k, peak)
    ensures var equity := EquityAt(init, days, daily, k + 1);
      IsPeak(init, days, daily, k + 1, if equity > peak then equity else peak)
  {}

  ghost predicate IsDrawdown(drawdown: real, equity: real, peak: real) {
    && drawdown >= 0.0
    && (drawdown == 0.0 <==> equity == peak || peak <= 0.0)
    && (peak > 0.0 ==> equity == peak * (1.0 - drawdown))
  }

  /** Point `k` of the curve: its day's row, the equity, and the drawdown from the running peak. */
  ghost predicate IsPoint(init: real, days: seq<int>, daily: map<int, DailyAccum>, k: nat, p: EquityPoint)
    requires k < |days| && forall d | d in days :: d in daily
  {
    && p.day == days[k] && p.realizedPnL == daily[days[k]].realizedPnL && p.tradeCount == daily[days[k]].tradeCount
    && p.equity == EquityAt(init, days, daily, k + 1)
    && exists peak :: IsPeak(init, days, daily, k + 1, peak) && IsDrawdown(p.drawdown, p.equity, peak)
  }

  function Drawdown(equity: real, peak: real): (drawdown: real)
    requires equity <= peak
    ensures IsDrawdown(drawdown, equity, peak)
  {
    if peak > 0.0 && equity < peak then
      Quotient(peak - equity, peak);
      (peak - equity) / peak
    else 0.0
  }

  function DaysOf(points: seq<EquityPoint>): (days: seq<int>)
    ensures |days| == |points| && forall k | 0 <= k < |days| :: days[k] == points[k].day
  {
    seq(|points|, k requires 0 <= k < |points| => points[k].day)
  }

  /** `points` has a point for each day of the map, in order. */
  ghost predicate IsCurve(initEquity: real, daily: map<int, DailyAccum>, points: seq<EquityPoint>) {
    var days := DaysOf(points);
    ListsDays(days, daily) && forall k | 0 <= k < |points| :: IsPoint(initEquity, days, daily, k, points[k])
  }

  /** What the loop has after `|points|` days. */
  ghost predicate IsCurveTo(init: real, days: seq<int>, daily: map<int, DailyAccum>, points: seq<EquityPoint>,
                            equity: real, peak: real) {
    && ListsDays(days, daily) && |points| <= |days|
    && equity == EquityAt(init, days, daily, |points|) && IsPeak(init, days, daily, |points|, peak)
    && forall j | 0 <= j < |points| :: IsPoint(init, days, daily, j, points[j])
  }

  lemma CurveNext(init: real, days: seq<int>, daily: map<int, DailyAccum>, points: seq<EquityPoint>,
                  equity0: real, peak0: real, equity: real, peak: real, drawdown: real)
    requires IsCurveTo(init, days, daily, points, equity0, peak0) && |points| < |days|
    requires var accum := daily[days[|points|]];
      equity == equity0 + accum.realizedPnL && peak == if equity > peak0 then equity else peak0
    requires IsDrawdown(drawdown, equity, peak)
    ensures var accum := daily[days[|points|]];
      var p := EquityPoint(days[|points|], accum.realizedPnL, accum.tradeCount, equity, drawdown);
      IsCurveTo(init, days, daily, points + [p], equity, peak)
  {
    var k, accum := |points|, daily[days[|points|]];
    PeakNext(init, days, daily, k, peak0);
    var p := EquityPoint(days[k], accum.realizedPnL, accum.tradeCount, equity, drawdown);
    assert IsPoint(init, days, daily, k, p);
  }

  lemma CurveDone(init: real, days: seq<int>, daily: map<int, DailyAccum>, points: seq<EquityPoint>,
                  equity: real, peak: real)
    requires IsCurveTo(init, days, daily, points, equity, peak) && |points| == |days|
    ensures DaysOf(points) == days && IsCurve(init, daily, points)
  {
    forall k | 0 <= k < |days|
      ensures points[k].day == days[k]
    {
      assert IsPoint(init, days, daily, k, points[k]);
    }
    assert DaysOf(points) == days;
  }

  /**
   The equity loop, given the order the map was walked in.  The curve is the same for
   every order (CurveUnique).
   */
  method EquityCurve(initEquity: real, daily: map<int, DailyAccum>, order: seq<int>)
    returns (points: seq<EquityPoint>, equity: real, peakEquity: real)
    requires forall i, j | 0 <= i < j < |order| :: order[i] != order[j]
    requires forall d :: d in order <==> d in daily
    ensures IsCurve(initEquity, daily, points)
    ensures equity == EquityAt(initEquity, DaysOf(points), daily, |points|)
    ensures IsPeak(initEquity, DaysOf(points), daily, |points|, peakEquity)
  {
    var days := SortDays(order);
    equity, peakEquity, points := initEquity, initEquity, [];
    for k := 0 to |days|
      invariant |points| == k && IsCurveTo(initEquity, days, daily, points, equity, peakEquity)
    {
      var accum := daily[days[k]];
      ghost var equity0, peak0 := equity, peakEquity;
      equity := equity + accum.realizedPnL;
      if equity > peakEquity { peakEquity := equity; }
      var drawdown := Drawdown(equity, peakEquity);
      CurveNext(initEquity, days, daily, points, equity0, peak0, equity, peakEquity, drawdown);
      points := points + [EquityPoint(days[k], accum.realizedPnL, accum.tradeCount, equity, drawdown)];
    }
    CurveDone(initEquity, days, daily, points, equity, peakEquity);
  }

  lemma DrawdownUnique(equity: real, peak: real, a: real, b: real)
    requires IsDrawdown(a, equity, peak) && IsDrawdown(b, equity, peak)
    ensures a == b
  {
    if peak > 0.0 { assert peak * a == peak * b; }
  }

  lemma PointUnique(init: real, days: seq<int>, daily: map<int, DailyAccum>, k: nat, p: EquityPoint, q: EquityPoint)
    requires k < |days| && forall d | d in days :: d in daily
    requires IsPoint(init, days, daily, k, p) && IsPoint(init, days, daily, k, q)
    ensures p == q
  {
    var peak :| IsPeak(init, days, daily, k + 1, peak) && IsDrawdown(p.drawdown, p.equity, peak);
    var peak' :| IsPeak(init, days, daily, k + 1, peak') && IsDrawdown(q.drawdown, q.equity, peak');
    assert peak == peak';
    DrawdownUnique(p.equity, peak, p.drawdown, q.drawdown);
  }

  /** A daily map has one curve, whatever order it is walked in. */
  lemma CurveUnique(init: real, daily: map<int, DailyAccum>, a: seq<EquityPoint>, b: seq<EquityPoint>)
    requires IsCurve(init, daily, a) && IsCurve(init, daily, b)
    ensures a == b
  {
    SortedDaysUnique(DaysOf(a), DaysOf(b));
    forall k | 0 <= k < |a|
      ensures a[k] == b[k]
    {
      PointUnique(init, DaysOf(a), daily, k, a[k], b[k]);
    }
  }

  lemma {:induction false} EquityIsSum(init: real, days: seq<int>, daily: map<int, DailyAccum>, f: int -> real, k: nat)
    requires k <= |days| && forall d | d in days :: d in daily && daily[d].realizedPnL == f(d)
    ensures EquityAt(init, days, daily, k) == init + SumOver(days, k, f)
  {
    if k > 0 { EquityIsSum(init, days, daily, f, k - 1); }
  }

  lemma {:induction false} FillsOnDay(fills: seq<Fill>, n: nat, k: nat)
    requires k < n <= |fills|
    ensures FillsOn(fills, n, DayOf(fills[k])) > 0
  {
    if k < n - 1 { FillsOnDay(fills, n - 1, k); }
  }

  /** The curve ends at the initial equity plus the P&L of every fill. */
  lemma FinalEquity(init: real, fills: seq<Fill>, daily: map<int, DailyAccum>, days: seq<int>)
    requires IsDaily(fills, |fills|, daily) && ListsDays(days, daily)
    ensures EquityAt(init, days, daily, |days|) == init + TotalPnl(fills, |fills|)
    ensures SumOver(days, |days|, d => if d in daily then daily[d].tradeCount as real else 0.0) == |fills| as real
  {
    forall k: nat | k < |fills|
      ensures DayOf(fills[k]) in days
    {
      FillsOnDay(fills, |fills|, k);
    }
    DaysAddUp(fills, |fills|, days);
    EquityIsSum(init, days, daily, DayPnl(fills, |fills|), |days|);
    SumCong(days, |days|, d => if d in daily then daily[d].tradeCount as real else 0.0, DayCount(fills, |fills|));
  }

  lemma {:induction false} SumCong(days: seq<int>, n: nat, f: int -> real, g: int -> real)
    requires n <= |days| && forall d | d in days :: f(d) == g(d)
    ensures SumOver(days, n, f) == SumOver(days, n, g)
  {
    if n > 0 { SumCong(days, n - 1, f, g); }
  }

  /** From a positive start the peak is positive, so the drawdown is zero just at a new or equalled peak. */
  lemma DrawdownZeroAtPeak(init: real, days: seq<int>, daily: map<int, DailyAccum>, k: nat, p: EquityPoint)
    requires k < |days| && (forall d | d in days :: d in daily) && init > 0.0
    requires IsPoint(init, days, daily, k, p)
    ensures p.drawdown >= 0.0
    ensures p.drawdown == 0.0 <==> forall j: nat | j <= k + 1 :: EquityAt(init, days, daily, j) <= p.equity
  {
    var peak :| IsPeak(init, days, daily, k + 1, peak) && IsDrawdown(p.drawdown, p.equity, peak);
    assert EquityAt(init, days, daily, 0) == init;
    var j: nat :| j <= k + 1 && EquityAt(init, days, daily, j) == peak;
    assert peak >= init > 0.0;
    if p.drawdown == 0.0 {
      assert p.equity == peak;
    } else {
      assert EquityAt(init, days, daily, j) > p.equity;
    }
  }
}
