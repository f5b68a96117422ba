/**
 Leaving the ticker out of a watchlist line.  In any message at all, an accepted full line can be
 cut down to its text from the strike on with every signal keeping its fields, exactly when its
 ticker is already the one in force.
 */
module TickerInheritance {
  import opened Wrappers
  import opened SignalParser
  import opened WatchlistParser

  // ---- The scanner does not look back ----

  /** `r` is `s` from `c` on. */
  ghost predicate Tail(r: string, s: string, c: nat) {
    |s| == c + |r| && forall j | 0 <= j < |r| :: r[j] == s[c + j]
  }

  lemma {:induction false} SpanFromTail(r: string, s: string, c: nat, i: nat, k: CharClass)
    requires Tail(r, s, c) && i <= |r|
    ensures SpanFrom(s, c + i, k) == c + SpanFrom(r, i, k)
    decreases |r| - i
  {
    if i < |r| && Is(r[i], k) { SpanFromTail(r, s, c, i + 1, k); }
  }

  lemma NumeralFromTail(r: string, s: string, c: nat, i: nat)
    requires Tail(r, s, c) && i <= |r|
    ensures NumeralFrom(s, c + i) == c + NumeralFrom(r, i)
  {
    var n := SpanFrom(r, i, Digit);
    SpanFromTail(r, s, c, i, Digit);
    if n < |r| { SpanFromTail(r, s, c, n + 1, Digit); }
  }

  /** The scanner at `i` stops at `n`, `d`, `t`, `e` and accepts. */
  ghost predicate Stops(s: string, i: nat, n: nat, d: nat, t: nat, e: nat) {
    && i < n < |s| && NumeralFrom(s, i) == n && IsRight(s[n])
    && n < d < |s| && SpanFrom(s, n + 1, Space) == d && IsDirection(s[d])
    && d < t < e <= |s| && SpanFrom(s, d + 1, Space) == t && NumeralFrom(s, t) == e && SpanFrom(s, e, Space) == |s|
  }

  lemma StopsAccept(s: string, i: nat, n: nat, d: nat, t: nat, e: nat)
    requires Stops(s, i, n, d, t, e)
    ensures i < n < d < t < e <= |s| && QuoteFrom(s, i) == Some(Quote(s[i..n], s[n], s[d], s[t..e]))
  {
    QuoteFromSpans(s, i, n, d, t, e);
  }

  lemma Accepted(s: string, i: nat) returns (n: nat, d: nat, t: nat, e: nat)
    requires i <= |s| && QuoteFrom(s, i).Some?
    ensures Stops(s, i, n, d, t, e)
  {
    n := NumeralFrom(s, i);
    d := SpanFrom(s, n + 1, Space);
    t := SpanFrom(s, d + 1, Space);
    e := NumeralFrom(s, t);
  }

  lemma ArrowTail(r: string, s: string, c: nat, n: nat, d: nat, t: nat)
    requires Tail(r, s, c) && n < |r| && d < |r|
    requires SpanFrom(s, c + n + 1, Space) == c + d && SpanFrom(s, c + d + 1, Space) == c + t
    ensures SpanFrom(r, n + 1, Space) == d && SpanFrom(r, d + 1, Space) == t
  {
    SpanFromTail(r, s, c, n + 1, Space);
    SpanFromTail(r, s, c, d + 1, Space);
  }

  lemma NumeralsTail(r: string, s: string, c: nat, n: nat, t: nat, e: nat)
    requires Tail(r, s, c) && t <= |r| && e <= |r|
    requires NumeralFrom(s, c) == c + n && NumeralFrom(s, c + t) == c + e && SpanFrom(s, c + e, Space) == |s|
    ensures NumeralFrom(r, 0) == n && NumeralFrom(r, t) == e && SpanFrom(r, e, Space) == |r|
  {
    NumeralFromTail(r, s, c, 0);
    NumeralFromTail(r, s, c, t);
    SpanFromTail(r, s, c, e, Space);
  }

  lemma StopsTail(r: string, s: string, c: nat, n: nat, d: nat, t: nat, e: nat)
    requires Tail(r, s, c) && Stops(s, c, c + n, c + d, c + t, c + e)
    ensures Stops(r, 0, n, d, t, e)
  {
    ArrowTail(r, s, c, n, d, t);
    NumeralsTail(r, s, c, n, t, e);
  }

  lemma SlicesTail(r: string, s: string, c: nat, n: nat, d: nat, t: nat, e: nat)
    requires Tail(r, s, c) && n < d < t <= e <= |r|
    ensures Quote(r[0..n], r[n], r[d], r[t..e]) == Quote(s[c..c + n], s[c + n], s[c + d], s[c + t..c + e])
  {}

  lemma TailAccepts(r: string, s: string, c: nat, n: nat, d: nat, t: nat, e: nat)
    requires Tail(r, s, c) && Stops(s, c, c + n, c + d, c + t, c + e)
    ensures QuoteFrom(r, 0) == Some(Quote(s[c..c + n], s[c + n], s[c + d], s[c + t..c + e]))
  {
    StopsTail(r, s, c, n, d, t, e);
    StopsAccept(r, 0, n, d, t, e);
    SlicesTail(r, s, c, n, d, t, e);
  }

  lemma QuoteFromTail(r: string, s: string, c: nat)
    requires Tail(r, s, c) && QuoteFrom(s, c).Some?
    ensures QuoteFrom(r, 0) == QuoteFrom(s, c)
  {
    var n, d, t, e := Accepted(s, c);
    StopsAccept(s, c, n, d, t, e);
    TailAccepts(r, s, c, n - c, d - c, t - c, e - c);
  }

  /** Where the strike of a full line begins. */
  function StrikeAt(line: string): (c: nat)
    ensures c <= |line|
  {
    SpanFrom(line, SpanFrom(line, SpanFrom(line, 0, Space), Letter), Space)
  }

  /** From the strike on, a full line is a continuation with the same quote, and not a full line. */
  lemma StrikeOn(line: string)
    requires ScanLine(line).Some?
    ensures var rest := line[StrikeAt(line)..];
      && rest != [] && Is(rest[0], Digit)
      && ScanCont(rest) == Some(ScanLine(line).value.1) && ScanLine(rest) == None
  {
    var c := StrikeAt(line);
    QuoteSound(line, c);
    var rest := line[c..];
    QuoteFromTail(rest, line, c);
    assert SpanFrom(rest, 0, Space) == 0;
    NeverBoth(rest);
  }

  // ---- Stripping ----

  lemma {:induction false} TrimmedEnd(s: string, lo: nat, hi: nat)
    requires lo <= hi <= |s| && lo < TrimTo(s, lo, hi)
    ensures !Is(s[TrimTo(s, lo, hi) - 1], Space)
    decreases hi
  {
    if Is(s[hi - 1], Space) { TrimmedEnd(s, lo, hi - 1); }
  }

  /** A stripped line cut to start at a digit is still stripped. */
  lemma CutIsStripped(raw: string, c: nat)
    requires c < |Strip(raw)| && Is(Strip(raw)[c], Digit)
    ensures Strip(Strip(raw)[c..]) == Strip(raw)[c..]
  {
    var lo := SpanFrom(raw, 0, Space);
    TrimmedEnd(raw, lo, |raw|);
    var rest := Strip(raw)[c..];
    assert rest[|rest| - 1] == Strip(raw)[|Strip(raw)| - 1];
    StripExact(rest);
  }

  // ---- One line replaced ----

  /** `a` and `b` are the same signal, but for the text of the line they were read from. */
  ghost predicate SameFields(a: ParsedSignal, b: ParsedSignal) {
    a.ticker == b.ticker && a.right == b.right && a.strike == b.strike && a.trigger == b.trigger
  }

  /** Line `i` is read as a continuation that inherits what it said before. */
  ghost predicate Shortened(rs: seq<Reading>, rs': seq<Reading>, i: nat) {
    && i < |rs| == |rs'| && (forall j | 0 <= j < |rs| && j != i :: rs'[j] == rs[j])
    && rs[i].full.Some? && rs'[i].full.None? && rs'[i].cont.Some?
    && SameFields(rs[i].full.value, Make(rs[i].full.value.ticker, rs'[i].cont.value, rs'[i].line))
  }

  /** The same signals, but for the text they were read from. */
  ghost predicate SameSignals(a: seq<ParsedSignal>, b: seq<ParsedSignal>) {
    |a| == |b| && forall k | 0 <= k < |a| :: SameFields(a[k], b[k])
  }

  // The ticker left out is the one in force.

  lemma {:induction false} ShortenedTicker(rs: seq<Reading>, rs': seq<Reading>, i: nat, n: nat)
    requires Shortened(rs, rs', i) && n <= |rs| && LastTicker(rs, i) == Some(rs[i].full.value.ticker)
    ensures LastTicker(rs', n) == LastTicker(rs, n)
  {
    if n > 0 {
      ShortenedTicker(rs, rs', i, n - 1);
    }
  }

  lemma ShortenedAt(rs: seq<Reading>, rs': seq<Reading>, i: nat, n: nat)
    requires Shortened(rs, rs', i) && n < |rs| && LastTicker(rs, i) == Some(rs[i].full.value.ticker)
    ensures if SignalAt(rs, n).Some?
            then SignalAt(rs', n).Some? && SameFields(SignalAt(rs, n).value, SignalAt(rs', n).value)
            else SignalAt(rs', n).None?
  {
    ShortenedTicker(rs, rs', i, n);
  }

  lemma {:induction false} ShortenedSignals(rs: seq<Reading>, rs': seq<Reading>, i: nat, n: nat)
    requires Shortened(rs, rs', i) && n <= |rs| && LastTicker(rs, i) == Some(rs[i].full.value.ticker)
    ensures SameSignals(Signals(rs, n), Signals(rs', n))
  {
    if n > 0 {
      ShortenedSignals(rs, rs', i, n - 1);
      ShortenedAt(rs, rs', i, n - 1);
    }
  }

  // There is none in force, or another one.

  lemma {:induction false} SamePrefix(rs: seq<Reading>, rs': seq<Reading>, i: nat, n: nat)
    requires Shortened(rs, rs', i) && n <= i
    ensures LastTicker(rs', n) == LastTicker(rs, n) && Signals(rs', n) == Signals(rs, n)
  {
    if n > 0 { SamePrefix(rs, rs', i, n - 1); }
  }

  lemma {:induction false} TickerFrom(rs: seq<Reading>, m: nat, n: nat)
    requires m <= n <= |rs| && LastTicker(rs, m).Some?
    ensures LastTicker(rs, n).Some?
  {
    if m < n { TickerFrom(rs, m, n - 1); }
  }

  /** With no ticker in force the line goes silent, and lines after it may too. */
  lemma {:induction false} FewerSignals(rs: seq<Reading>, rs': seq<Reading>, i: nat, n: nat)
    requires Shortened(rs, rs', i) && i < n <= |rs| && LastTicker(rs, i).None?
    ensures |Signals(rs', n)| < |Signals(rs, n)|
  {
    SamePrefix(rs, rs', i, i);
    if n > i + 1 {
      FewerSignals(rs, rs', i, n - 1);
      TickerFrom(rs, i + 1, n - 1);
    }
  }

  /** With another one in force as many signals are read. */
  lemma {:induction false} AsManySignals(rs: seq<Reading>, rs': seq<Reading>, i: nat, n: nat)
    requires Shortened(rs, rs', i) && i < n <= |rs| && LastTicker(rs, i).Some?
    ensures |Signals(rs', n)| == |Signals(rs, n)|
  {
    SamePrefix(rs, rs', i, i);
    if n > i + 1 {
      AsManySignals(rs, rs', i, n - 1);
      TickerFrom(rs, i, n - 1);
      TickerFrom(rs', i, n - 1);
    }
  }

  /** What is emitted at line `i` stays where it is. */
  lemma {:induction false} StaysPut(rs: seq<Reading>, i: nat, n: nat)
    requires i < n <= |rs| && SignalAt(rs, i).Some?
    ensures |Signals(rs, i)| < |Signals(rs, n)| && Signals(rs, n)[|Signals(rs, i)|] == SignalAt(rs, i).value
  {
    if n > i + 1 { StaysPut(rs, i, n - 1); }
  }

  lemma ShortenedOtherwise(rs: seq<Reading>, rs': seq<Reading>, i: nat)
    requires Shortened(rs, rs', i) && LastTicker(rs, i) != Some(rs[i].full.value.ticker)
    ensures !SameSignals(Signals(rs, |rs|), Signals(rs', |rs'|))
  {
    SamePrefix(rs, rs', i, i);
    if LastTicker(rs, i).None? {
      FewerSignals(rs, rs', i, |rs|);
    } else {
      StaysPut(rs, i, |rs|);
      StaysPut(rs', i, |rs|);
      assert !SameFields(SignalAt(rs, i).value, SignalAt(rs', i).value);
    }
  }

  lemma ReadsShort(raw: string, raw': string)
    requires Read(Scan(raw)).full.Some? && Strip(raw') == Strip(raw)[StrikeAt(Strip(raw))..]
    ensures var (r, r') := (Read(Scan(raw)), Read(Scan(raw')));
      && r'.full.None? && r'.cont.Some?
      && SameFields(r.full.value, Make(r.full.value.ticker, r'.cont.value, r'.line))
  {
    StrikeOn(Strip(raw));
  }

  lemma CutIsShortened(lines: seq<string>, rs: seq<Reading>, i: nat, raw': string, rs': seq<Reading>)
    requires i < |lines| && Readings(lines, rs) && Readings(lines[i := raw'], rs') && rs[i].full.Some?
    requires Strip(raw') == Strip(lines[i])[StrikeAt(Strip(lines[i]))..]
    ensures Shortened(rs, rs', i)
  {
    var lines' := lines[i := raw'];
    assert LineReads(lines, rs, i) && LineReads(lines', rs', i);
    ReadsShort(lines[i], raw');
    forall j | 0 <= j < |rs| && j != i
      ensures rs'[j] == rs[j]
    {
      assert LineReads(lines, rs, j) && LineReads(lines', rs', j);
    }
  }

  /**
   In any message, leaving the ticker out of an accepted full line (however the rest is indented)
   changes no signal's fields exactly when that ticker is already the one in force.
   */
  lemma DroppedTickerIff(lines: seq<string>, rs: seq<Reading>, i: nat, raw': string, rs': seq<Reading>)
    requires i < |lines| && Readings(lines, rs) && Readings(lines[i := raw'], rs') && rs[i].full.Some?
    requires Strip(raw') == Strip(lines[i])[StrikeAt(Strip(lines[i]))..]
    ensures SameSignals(Signals(rs, |rs|), Signals(rs', |rs'|)) <==>
      LastTicker(rs, i) == Some(rs[i].full.value.ticker)
  {
    CutIsShortened(lines, rs, i, raw', rs');
    if LastTicker(rs, i) == Some(rs[i].full.value.ticker) {
      ShortenedSignals(rs, rs', i, |rs|);
    } else {
      ShortenedOtherwise(rs, rs', i);
    }
  }

  /** The text from the strike on is itself such a line. */
  lemma CutLineIff(lines: seq<string>, rs: seq<Reading>, i: nat, rs': seq<Reading>)
    requires i < |lines| && Readings(lines, rs) && rs[i].full.Some?
    requires Readings(lines[i := Strip(lines[i])[StrikeAt(Strip(lines[i]))..]], rs')
    ensures SameSignals(Signals(rs, |rs|), Signals(rs', |rs'|)) <==>
      LastTicker(rs, i) == Some(rs[i].full.value.ticker)
  {
    assert LineReads(lines, rs, i);
    StrikeOn(Strip(lines[i]));
    CutIsStripped(lines[i], StrikeAt(Strip(lines[i])));
    DroppedTickerIff(lines, rs, i, Strip(lines[i])[StrikeAt(Strip(lines[i]))..], rs');
  }
}
