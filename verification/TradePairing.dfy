/**
 Pairing the rows of a trade log into round trips: each closing row with the entry it closes,
 per symbol and in time order.
 */
module TradePairing {
  import opened Wrappers

  /** Something that happened to a symbol. */
  datatype Timed<T> = Timed(at: int, symbol: string, item: T)

  // ---- Stable sorting by time ----

  ghost predicate Sorted<T>(s: seq<Timed<T>>) {
    forall i, j | 0 <= i < j < |s| :: s[i].at <= s[j].at
  }

  /** `x` put after the elements of the first `n` that are not later. */
  function Insert<T>(s: seq<Timed<T>>, x: Timed<T>): seq<Timed<T>> {
    if |s| == 0 || s[|s| - 1].at <= x.at then s + [x]
    else Insert(s[..|s| - 1], x) + [s[|s| - 1]]
  }

  function Sort<T>(s: seq<Timed<T>>): seq<Timed<T>> {
    if |s| == 0 then [] else Insert(Sort(s[..|s| - 1]), s[|s| - 1])
  }

  /** The elements of one symbol, in order. */
  function Of<T>(s: seq<Timed<T>>, symbol: string): seq<Timed<T>> {
    if |s| == 0 then []
    else
      var init, last := s[..|s| - 1], s[|s| - 1];
      if last.symbol == symbol then Of(init, symbol) + [last] else Of(init, symbol)
  }

  /** The elements of one time, in order. */
  function At<T>(s: seq<Timed<T>>, at: int): seq<Timed<T>> {
    if |s| == 0 then []
    else
      var init, last := s[..|s| - 1], s[|s| - 1];
      if last.at == at then At(init, at) + [last] else At(init, at)
  }

  lemma {:induction false} InsertSorted<T>(s: seq<Timed<T>>, x: Timed<T>)
    requires Sorted(s)
    ensures Sorted(Insert(s, x)) && |Insert(s, x)| == |s| + 1
    ensures forall y | y in Insert(s, x) :: y == x || y in s
  {
    if |s| > 0 && s[|s| - 1].at > x.at {
      var init, last := s[..|s| - 1], s[|s| - 1];
      InsertSorted(init, x);
      assert forall y | y in Insert(init, x) :: y.at <= last.at;
    }
  }

  lemma {:induction false} InsertAdds<T>(s: seq<Timed<T>>, x: Timed<T>)
    ensures multiset(Insert(s, x)) == multiset(s) + multiset{x}
  {
    if |s| > 0 && s[|s| - 1].at > x.at {
      var init, last := s[..|s| - 1], s[|s| - 1];
      InsertAdds(init, x);
      assert s == init + [last];
    }
  }

  lemma LastOf<T>(s: seq<Timed<T>>)
    requires |s| > 0
    ensures multiset(s) == multiset(s[..|s| - 1]) + multiset{s[|s| - 1]}
  {
    assert s == s[..|s| - 1] + [s[|s| - 1]];
  }

  lemma {:induction false} SortPermutes<T>(s: seq<Timed<T>>)
    ensures multiset(Sort(s)) == multiset(s)
  {
    if |s| > 0 {
      SortPermutes(s[..|s| - 1]);
      InsertAdds(Sort(s[..|s| - 1]), s[|s| - 1]);
      LastOf(s);
    }
  }

  lemma {:induction false} SortSorts<T>(s: seq<Timed<T>>)
    ensures Sorted(Sort(s)) && |Sort(s)| == |s|
  {
    if |s| > 0 {
      SortSorts(s[..|s| - 1]);
      InsertSorted(Sort(s[..|s| - 1]), s[|s| - 1]);
    }
  }

  /** `picked` is what stands in `s` at the places where `p` holds, in order. */
  ghost predicate Picks<T>(s: seq<T>, picked: seq<T>, at: seq<nat>, p: T -> bool) {
    && |at| == |picked| && (forall i, j | 0 <= i < j < |at| :: at[i] < at[j])
    && (forall i | 0 <= i < |at| :: at[i] < |s| && picked[i] == s[at[i]])
    && (forall k :: k in at <==> 0 <= k < |s| && p(s[k]))
  }

  lemma PickNext<T>(s: seq<T>, picked: seq<T>, at: seq<nat>, p: T -> bool, x: T)
    requires Picks(s, picked, at, p)
    ensures if p(x) then Picks(s + [x], picked + [x], at + [|s|], p) else Picks(s + [x], picked, at, p)
  {
    var all := s + [x];
    assert all[|s|] == x && forall k | 0 <= k < |s| :: all[k] == s[k];
  }

  lemma {:induction false} OfIs<T>(s: seq<Timed<T>>, symbol: string) returns (at: seq<nat>)
    ensures Picks(s, Of(s, symbol), at, (x: Timed<T>) => x.symbol == symbol)
  {
    at := [];
    if |s| > 0 {
      var init, x := s[..|s| - 1], s[|s| - 1];
      at := OfIs(init, symbol);
      PickNext(init, Of(init, symbol), at, (y: Timed<T>) => y.symbol == symbol, x);
      assert s == init + [x];
      if x.symbol == symbol { at := at + [|init|]; }
    }
  }

  lemma {:induction false} AtIs<T>(s: seq<Timed<T>>, time: int) returns (at: seq<nat>)
    ensures Picks(s, At(s, time), at, (x: Timed<T>) => x.at == time)
  {
    at := [];
    if |s| > 0 {
      var init, x := s[..|s| - 1], s[|s| - 1];
      at := AtIs(init, time);
      PickNext(init, At(init, time), at, (y: Timed<T>) => y.at == time, x);
      assert s == init + [x];
      if x.at == time { at := at + [|init|]; }
    }
  }

  lemma OfSnoc<T>(s: seq<Timed<T>>, x: Timed<T>, symbol: string)
    ensures Of(s + [x], symbol) == if x.symbol == symbol then Of(s, symbol) + [x] else Of(s, symbol)
  {
    assert (s + [x])[..|s|] == s;
  }

  lemma AtSnoc<T>(s: seq<Timed<T>>, x: Timed<T>, at: int)
    ensures At(s + [x], at) == if x.at == at then At(s, at) + [x] else At(s, at)
  {
    assert (s + [x])[..|s|] == s;
  }

  lemma {:induction false} OfIn<T>(s: seq<Timed<T>>, symbol: string, y: Timed<T>)
    ensures y in Of(s, symbol) <==> y in s && y.symbol == symbol
  {
    if |s| > 0 {
      OfIn(s[..|s| - 1], symbol, y);
      assert s == s[..|s| - 1] + [s[|s| - 1]];
    }
  }

  /** Sorting keeps the elements of each time, in order. */
  lemma {:induction false} InsertAt<T>(s: seq<Timed<T>>, x: Timed<T>, at: int)
    requires Sorted(s)
    ensures At(Insert(s, x), at) == if x.at == at then At(s, at) + [x] else At(s, at)
  {
    if |s| == 0 || s[|s| - 1].at <= x.at {
      AtSnoc(s, x, at);
    } else {
      var init, last := s[..|s| - 1], s[|s| - 1];
      InsertAt(init, x, at);
      AtSnoc(Insert(init, x), last, at);
      if at == x.at { NoneAt(s, at, last); }
    }
  }

  lemma NoneAt<T>(s: seq<Timed<T>>, at: int, last: Timed<T>)
    requires |s| > 0 && last == s[|s| - 1] && last.at != at
    ensures At(s, at) == At(s[..|s| - 1], at)
  {}

  lemma {:induction false} SortIsStable<T>(s: seq<Timed<T>>, at: int)
    ensures At(Sort(s), at) == At(s, at)
  {
    if |s| > 0 {
      SortIsStable(s[..|s| - 1], at);
      SortSorts(s[..|s| - 1]);
      InsertAt(Sort(s[..|s| - 1]), s[|s| - 1], at);
    }
  }

  /** A symbol whose elements are already in time order keeps that order. */
  lemma {:induction false} InsertOf<T>(s: seq<Timed<T>>, x: Timed<T>, symbol: string)
    requires Sorted(s) && (x.symbol == symbol ==> forall y | y in s && y.symbol == symbol :: y.at <= x.at)
    ensures Of(Insert(s, x), symbol) == if x.symbol == symbol then Of(s, symbol) + [x] else Of(s, symbol)
  {
    if |s| == 0 || s[|s| - 1].at <= x.at {
      OfSnoc(s, x, symbol);
    } else {
      var init, last := s[..|s| - 1], s[|s| - 1];
      assert last in s;
      InsertOf(init, x, symbol);
      OfSnoc(Insert(init, x), last, symbol);
    }
  }

  lemma SortedInit<T>(a: seq<Timed<T>>, x: Timed<T>)
    requires Sorted(a + [x])
    ensures Sorted(a) && forall y | y in a :: y.at <= x.at
  {
    var all := a + [x];
    assert all[|a|] == x;
    assert forall i | 0 <= i < |a| :: all[i] == a[i];
  }

  lemma NotLater<T>(sorted: seq<Timed<T>>, own: seq<Timed<T>>, x: Timed<T>)
    requires Of(sorted, x.symbol) == own && forall y | y in own :: y.at <= x.at
    ensures forall y | y in sorted && y.symbol == x.symbol :: y.at <= x.at
  {
    forall y | y in sorted && y.symbol == x.symbol
      ensures y.at <= x.at
    {
      OfIn(sorted, x.symbol, y);
    }
  }

  lemma {:induction false} SortKeepsOf<T>(s: seq<Timed<T>>, symbol: string)
    requires Sorted(Of(s, symbol))
    ensures Of(Sort(s), symbol) == Of(s, symbol)
  {
    if |s| > 0 {
      var init, x := s[..|s| - 1], s[|s| - 1];
      if x.symbol == symbol { SortedInit(Of(init, symbol), x); }
      SortKeepsOf(init, symbol);
      SortSorts(init);
      if x.symbol == symbol { NotLater(Sort(init), Of(init, symbol), x); }
      InsertOf(Sort(init), x, symbol);
    }
  }

  // ---- Rows and round trips ----

  datatype Direction = Long | Short | CloseLong | CloseShort | Other

  datatype Row = Row(strategy: string, direction: Direction, pnl: Option<real>, tags: map<string, string>)

  type Trade = Timed<Row>

  /** A round trip, at the time of its entry. */
  datatype Trip = Trip(direction: Direction, pnl: real, tags: map<string, string>)

  type Sample = Timed<Trip>

  predicate IsEntry(t: Trade) {
    t.item.direction == Long || t.item.direction == Short
  }

  predicate IsClose(t: Trade) {
    t.item.direction == CloseLong || t.item.direction == CloseShort
  }

  function MakeSample(entry: Trade, close: Trade): Sample
    requires close.item.pnl.Some?
  {
    Timed(entry.at, close.symbol, Trip(entry.item.direction, close.item.pnl.value, entry.item.tags))
  }

  /** The entry still open before row `n`: the last entry or close, if that is an entry. */
  function OpenEntry(ts: seq<Trade>, n: nat): Option<Trade>
    requires n <= |ts|
  {
    if n == 0 then None
    else if IsEntry(ts[n - 1]) then Some(ts[n - 1])
    else if IsClose(ts[n - 1]) then None
    else OpenEntry(ts, n - 1)
  }

  function TripAt(ts: seq<Trade>, i: nat): Option<Sample>
    requires i < |ts|
  {
    var open := OpenEntry(ts, i);
    if IsClose(ts[i]) && open.Some? && ts[i].item.pnl.Some? then Some(MakeSample(open.value, ts[i])) else None
  }

  function Trips(ts: seq<Trade>, n: nat): seq<Sample>
    requires n <= |ts|
  {
    if n == 0 then []
    else
      var t := TripAt(ts, n - 1);
      if t.Some? then Trips(ts, n - 1) + [t.value] else Trips(ts, n - 1)
  }

  /** The inner loop: one symbol's rows, already in time order. */
  method PairSymbol(ts: seq<Trade>) returns (out: seq<Sample>)
    ensures out == Trips(ts, |ts|)
  {
    out := [];
    var openEntry: Option<Trade> := None;
    for i := 0 to |ts|
      invariant openEntry == OpenEntry(ts, i) && out == Trips(ts, i)
    {
      var t := ts[i];
      match t.item.direction {
        case Long => openEntry := Some(t);
        case Short => openEntry := Some(t);
        case Other =>
        case _ =>
          if openEntry.Some? && t.item.pnl.Some? {
            var e := openEntry.value;
            out := out + [Timed(e.at, t.symbol, Trip(e.item.direction, t.item.pnl.value, e.item.tags))];
          }
          openEntry := None;
      }
    }
  }

  // ---- What is paired with what ----

  /** Row `j` is the last entry or close before row `i`. */
  ghost predicate LastBefore(ts: seq<Trade>, i: nat, j: nat)
    requires i <= |ts|
  {
    j < i && (IsEntry(ts[j]) || IsClose(ts[j])) && forall k | j < k < i :: !IsEntry(ts[k]) && !IsClose(ts[k])
  }

  ghost predicate Pairs(ts: seq<Trade>, j: nat, i: nat)
    requires i <= |ts|
  {
    LastBefore(ts, i, j) && IsEntry(ts[j])
  }

  /**
   Row `i` closes what row `j` opened and `s` is the round trip: the time, direction and tags are
   the entry's, the P&L is the close's, and no other entry or close stands between them.
   */
  ghost predicate IsRoundTrip(ts: seq<Trade>, j: nat, i: nat, s: Sample) {
    && j < i < |ts|
    && ts[j].item.direction in {Long, Short} && ts[i].item.direction in {CloseLong, CloseShort}
    && (forall k | j < k < i :: ts[k].item.direction == Other)
    && ts[i].item.pnl == Some(s.item.pnl) && s.symbol == ts[i].symbol
    && s.at == ts[j].at && s.item.direction == ts[j].item.direction && s.item.tags == ts[j].item.tags
  }

  lemma {:induction false} OpenIff(ts: seq<Trade>, n: nat, entry: Trade)
    requires n <= |ts|
    ensures OpenEntry(ts, n) == Some(entry) <==> exists j: nat | j < n :: Pairs(ts, j, n) && ts[j] == entry
  {
    if n > 0 {
      OpenIff(ts, n - 1, entry);
      if IsEntry(ts[n - 1]) || IsClose(ts[n - 1]) {
        assert LastBefore(ts, n, n - 1);
      } else {
        forall j: nat | j < n - 1
          ensures Pairs(ts, j, n) <==> Pairs(ts, j, n - 1)
        {}
      }
    }
  }

  /**
   A row completes a round trip exactly when it is a close with a P&L and the last entry or close
   before it is an entry; the sample is that round trip.
   */
  lemma TripIff(ts: seq<Trade>, i: nat, s: Sample)
    requires i < |ts|
    ensures TripAt(ts, i) == Some(s) <==> EndsAt(ts, i, s)
  {
    var open := OpenEntry(ts, i);
    if TripAt(ts, i) == Some(s) {
      OpenIff(ts, i, open.value);
      var j: nat :| j < i && Pairs(ts, j, i) && ts[j] == open.value;
      assert IsRoundTrip(ts, j, i, s);
    }
    forall j: nat | IsRoundTrip(ts, j, i, s)
      ensures TripAt(ts, i) == Some(s)
    {
      assert Pairs(ts, j, i);
      OpenIff(ts, i, ts[j]);
    }
  }

  ghost predicate EndsAt(ts: seq<Trade>, i: nat, s: Sample) {
    exists j: nat :: IsRoundTrip(ts, j, i, s)
  }

  /** A list of samples is, in order, the round trips ending at the rows `ends`, and there are no others. */
  ghost predicate AreRoundTrips(ts: seq<Trade>, n: nat, out: seq<Sample>, ends: seq<nat>) {
    && |ends| == |out| && (forall a, b | 0 <= a < b < |ends| :: ends[a] < ends[b])
    && (forall a | 0 <= a < |ends| :: ends[a] < n && EndsAt(ts, ends[a], out[a]))
    && (forall i: nat, s | i < n && EndsAt(ts, i, s) :: i in ends)
  }

  /** Row `k` ends a round trip. */
  lemma EndNext(ts: seq<Trade>, k: nat, out: seq<Sample>, ends: seq<nat>, x: Sample)
    requires k < |ts| && AreRoundTrips(ts, k, out, ends) && TripAt(ts, k) == Some(x)
    ensures AreRoundTrips(ts, k + 1, out + [x], ends + [k])
  {
    var ends' := ends + [k];
    TripIff(ts, k, x);
    forall i: nat, s | i < k + 1 && EndsAt(ts, i, s)
      ensures i in ends'
    {
      assert i == k || i in ends;
    }
  }

  /** Row `k` ends none. */
  lemma NoEndNext(ts: seq<Trade>, k: nat, out: seq<Sample>, ends: seq<nat>)
    requires k < |ts| && AreRoundTrips(ts, k, out, ends) && TripAt(ts, k).None?
    ensures AreRoundTrips(ts, k + 1, out, ends)
  {
    forall i: nat, s | i < k + 1 && EndsAt(ts, i, s)
      ensures i in ends
    {
      if i == k { TripIff(ts, k, s); }
    }
  }

  lemma {:induction false} TripsAre(ts: seq<Trade>, n: nat) returns (ends: seq<nat>)
    requires n <= |ts|
    ensures AreRoundTrips(ts, n, Trips(ts, n), ends)
  {
    ends := [];
    if n > 0 {
      var k := n - 1;
      ends := TripsAre(ts, k);
      var t := TripAt(ts, k);
      if t.Some? {
        EndNext(ts, k, Trips(ts, k), ends, t.value);
        ends := ends + [k];
      } else {
        NoEndNext(ts, k, Trips(ts, k), ends);
      }
    }
  }

  /** No entry is paired with two closes. */
  lemma EntryUsedOnce(ts: seq<Trade>, j: nat, i: nat, i': nat)
    requires i < i' < |ts| && IsClose(ts[i]) && Pairs(ts, j, i)
    ensures !Pairs(ts, j, i')
  {}

  /** No close has two entries. */
  lemma CloseUsedOnce(ts: seq<Trade>, j: nat, j': nat, i: nat)
    requires j < j' && i <= |ts| && Pairs(ts, j, i)
    ensures !Pairs(ts, j', i)
  {}

  // ---- All symbols ----

  /** The strategy's rows among the first `n`. */
  function Matching(rows: seq<Trade>, strategy: string, n: nat): seq<Trade>
    requires n <= |rows|
  {
    if n == 0 then []
    else if rows[n - 1].item.strategy == strategy then Matching(rows, strategy, n - 1) + [rows[n - 1]]
    else Matching(rows, strategy, n - 1)
  }

  lemma {:induction false} MatchingIs(rows: seq<Trade>, strategy: string, n: nat) returns (at: seq<nat>)
    requires n <= |rows|
    ensures Picks(rows[..n], Matching(rows, strategy, n), at, (t: Trade) => t.item.strategy == strategy)
  {
    at := [];
    if n > 0 {
      var k := n - 1;
      at := MatchingIs(rows, strategy, k);
      PickNext(rows[..k], Matching(rows, strategy, k), at, (t: Trade) => t.item.strategy == strategy, rows[k]);
      assert rows[..n] == rows[..k] + [rows[k]] && |rows[..k]| == k;
      if rows[k].item.strategy == strategy { at := at + [k]; }
    }
  }

  /** The round trips of one symbol. */
  function SymbolTrips(rows: seq<Trade>, symbol: string): seq<Sample> {
    var ts := Sort(Of(rows, symbol));
    Trips(ts, |ts|)
  }

  method GroupBySymbol(rows: seq<Trade>, strategy: string) returns (bySym: map<string, seq<Trade>>)
    ensures forall sym :: sym in bySym <==> Of(Matching(rows, strategy, |rows|), sym) != []
    ensures forall sym | sym in bySym :: bySym[sym] == Of(Matching(rows, strategy, |rows|), sym)
  {
    bySym := map[];
    for i := 0 to |rows|
      invariant forall sym :: sym in bySym <==> Of(Matching(rows, strategy, i), sym) != []
      invariant forall sym | sym in bySym :: bySym[sym] == Of(Matching(rows, strategy, i), sym)
    {
      var t := rows[i];
      if t.item.strategy != strategy { continue; }
      forall sym
        ensures Of(Matching(rows, strategy, i + 1), sym) ==
          if t.symbol == sym then Of(Matching(rows, strategy, i), sym) + [t] else Of(Matching(rows, strategy, i), sym)
      {
        OfSnoc(Matching(rows, strategy, i), t, sym);
      }
      bySym := bySym[t.symbol := (if t.symbol in bySym then bySym[t.symbol] else []) + [t]];
    }
  }

  lemma {:induction false} OfConcat<T>(a: seq<Timed<T>>, b: seq<Timed<T>>, symbol: string)
    ensures Of(a + b, symbol) == Of(a, symbol) + Of(b, symbol)
  {
    if |b| == 0 {
      assert a + b == a;
    } else {
      var init, last := b[..|b| - 1], b[|b| - 1];
      OfConcat(a, init, symbol);
      assert a + b == (a + init) + [last];
      OfSnoc(a + init, last, symbol);
    }
  }

  ghost predicate AllOf<T>(s: seq<Timed<T>>, symbol: string) {
    forall y | y in s :: y.symbol == symbol
  }

  lemma {:induction false} OfOwn<T>(s: seq<Timed<T>>, own: string, symbol: string)
    requires AllOf(s, own)
    ensures Of(s, symbol) == if symbol == own then s else []
  {
    if |s| > 0 {
      var init, last := s[..|s| - 1], s[|s| - 1];
      assert s == init + [last];
      OfOwn(init, own, symbol);
    }
  }

  lemma {:induction false} SortAllOf<T>(s: seq<Timed<T>>, symbol: string)
    requires AllOf(s, symbol)
    ensures AllOf(Sort(s), symbol)
  {
    if |s| > 0 {
      SortAllOf(s[..|s| - 1], symbol);
      SortSorts(s[..|s| - 1]);
      InsertSorted(Sort(s[..|s| - 1]), s[|s| - 1]);
    }
  }

  lemma {:induction false} TripsAllOf(ts: seq<Trade>, n: nat, symbol: string)
    requires n <= |ts| && AllOf(ts, symbol)
    ensures AllOf(Trips(ts, n), symbol)
  {
    if n > 0 { TripsAllOf(ts, n - 1, symbol); }
  }

  /** The round trips of rows in time order come in the order of their entries. */
  lemma {:induction false} TripsSorted(ts: seq<Trade>, n: nat)
    requires n <= |ts| && Sorted(ts)
    ensures Sorted(Trips(ts, n))
    ensures n > 0 ==> forall x | x in Trips(ts, n) :: x.at <= ts[n - 1].at
    ensures var open := OpenEntry(ts, n);
      open.Some? ==> open.value.at <= ts[n - 1].at && forall x | x in Trips(ts, n) :: x.at <= open.value.at
  {
    if n > 0 {
      TripsSorted(ts, n - 1);
      assert n > 1 ==> ts[n - 2].at <= ts[n - 1].at;
    }
  }

  lemma SymbolTripsSorted(rows: seq<Trade>, symbol: string)
    ensures Sorted(SymbolTrips(rows, symbol)) && AllOf(SymbolTrips(rows, symbol), symbol)
  {
    var own := Of(rows, symbol);
    forall y | y in own
      ensures y.symbol == symbol
    {
      OfIn(rows, symbol, y);
    }
    SortSorts(own);
    SortAllOf(own, symbol);
    TripsSorted(Sort(own), |own|);
    TripsAllOf(Sort(own), |own|, symbol);
  }

  /** `order` is some order of the symbols that have rows. */
  ghost predicate WalkOf(rows: seq<Trade>, order: seq<string>) {
    (forall sym :: Of(rows, sym) != [] <==> sym in order) && forall i, j | 0 <= i < j < |order| :: order[i] != order[j]
  }

  ghost predicate JoinedAt(rows: seq<Trade>, order: seq<string>, k: nat, out: seq<Sample>, sym: string)
    requires k <= |order|
  {
    Of(out, sym) == if sym in order[..k] then SymbolTrips(rows, sym) else []
  }

  /** Joined symbol by symbol, the round trips of each are its own. */
  ghost predicate Joined(rows: seq<Trade>, order: seq<string>, k: nat, out: seq<Sample>)
    requires k <= |order|
  {
    forall sym :: JoinedAt(rows, order, k, out, sym)
  }

  lemma JoinNext(rows: seq<Trade>, order: seq<string>, k: nat, out: seq<Sample>)
    requires k < |order| && WalkOf(rows, order) && Joined(rows, order, k, out)
    ensures Joined(rows, order, k + 1, out + SymbolTrips(rows, order[k]))
  {
    var next := SymbolTrips(rows, order[k]);
    SymbolTripsSorted(rows, order[k]);
    NotWalked(order, k);
    var k', out' := k + 1, out + next;
    forall sym
      ensures JoinedAt(rows, order, k', out', sym)
    {
      assert JoinedAt(rows, order, k, out, sym);
      WalkedNext(order, k, sym);
      OfConcat(out, next, sym);
      OfOwn(next, order[k], sym);
    }
  }

  lemma NotWalked(order: seq<string>, k: nat)
    requires k < |order| && forall i, j | 0 <= i < j < |order| :: order[i] != order[j]
    ensures order[k] !in order[..k]
  {}

  lemma WalkedNext(order: seq<string>, k: nat, sym: string)
    requires k < |order|
    ensures sym in order[..k + 1] <==> sym in order[..k] || sym == order[k]
  {
    assert order[..k + 1] == order[..k] + [order[k]];
  }

  /** The samples of each symbol in `out` are its round trips, in order. */
  ghost predicate Complete(rows: seq<Trade>, out: seq<Sample>) {
    forall sym :: Of(out, sym) == SymbolTrips(rows, sym)
  }

  lemma JoinedIsComplete(rows: seq<Trade>, order: seq<string>, out: seq<Sample>)
    requires WalkOf(rows, order) && Joined(rows, order, |order|, out)
    ensures Complete(rows, Sort(out))
  {
    forall sym
      ensures Of(Sort(out), sym) == SymbolTrips(rows, sym)
    {
      assert order[..|order|] == order;
      assert JoinedAt(rows, order, |order|, out, sym);
      SymbolTripsSorted(rows, sym);
      SortKeepsOf(out, sym);
    }
  }

  /** Whatever order the symbols are walked in: every symbol's round trips, and the whole in entry order. */
  method PairTrades(all: seq<Trade>, strategy: string, order: seq<string>) returns (out: seq<Sample>)
    requires WalkOf(Matching(all, strategy, |all|), order)
    ensures Sorted(out) && Complete(Matching(all, strategy, |all|), out)
  {
    ghost var rows := Matching(all, strategy, |all|);
    var bySym := GroupBySymbol(all, strategy);
    out := [];
    for k := 0 to |order|
      invariant Joined(rows, order, k, out)
    {
      assert order[k] in order;
      var trips := PairSymbol(Sort(bySym[order[k]]));
      JoinNext(rows, order, k, out);
      out := out + trips;
    }
    JoinedIsComplete(rows, order, out);
    SortSorts(out);
    out := Sort(out);
  }

  /** How often a row of the strategy and symbol stands in a list. */
  lemma {:induction false} MatchingCounts(rows: seq<Trade>, strategy: string, n: nat, x: Trade)
    requires n <= |rows|
    ensures multiset(Matching(rows, strategy, n))[x] ==
      if x.item.strategy == strategy then multiset(rows[..n])[x] else 0
  {
    if n > 0 {
      MatchingCounts(rows, strategy, n - 1, x);
      assert rows[..n] == rows[..n - 1] + [rows[n - 1]];
    }
  }

  lemma {:induction false} OfCounts(s: seq<Trade>, symbol: string, x: Trade)
    ensures multiset(Of(s, symbol))[x] == if x.symbol == symbol then multiset(s)[x] else 0
  {
    if |s| > 0 {
      OfCounts(s[..|s| - 1], symbol, x);
      assert s == s[..|s| - 1] + [s[|s| - 1]];
    }
  }

  /** How often `x` stands in the log, if it is a row of the strategy and symbol. */
  ghost function Copies(all: seq<Trade>, strategy: string, symbol: string, x: Trade): nat {
    if x.symbol == symbol && x.item.strategy == strategy then multiset(all)[x] else 0
  }

  /**
   The samples in plain terms: `ts` is the strategy's rows of the symbol in time order, and its
   samples are, in order, the round trips in `ts`.
   */
  lemma SamplesAre(all: seq<Trade>, strategy: string, symbol: string, out: seq<Sample>)
    returns (ts: seq<Trade>, ends: seq<nat>)
    requires Complete(Matching(all, strategy, |all|), out)
    ensures Sorted(ts) && forall x :: multiset(ts)[x] == Copies(all, strategy, symbol, x)
    ensures AreRoundTrips(ts, |ts|, Of(out, symbol), ends)
  {
    var rows := Matching(all, strategy, |all|);
    ts := Sort(Of(rows, symbol));
    SortSorts(Of(rows, symbol));
    SortPermutes(Of(rows, symbol));
    forall x
      ensures multiset(ts)[x] == Copies(all, strategy, symbol, x)
    {
      OfCounts(rows, symbol, x);
      MatchingCounts(all, strategy, |all|, x);
      assert all[..|all|] == all;
    }
    ends := TripsAre(ts, |ts|);
  }
}
