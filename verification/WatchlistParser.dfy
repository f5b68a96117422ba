/**
 Watchlist messages: lines of the SignalParser grammar, where a line without a ticker takes
 the ticker of the nearest accepted full line before it.
 */
module WatchlistParser {
  import opened Wrappers
  import opened SignalParser

  /** A parsed signal; the two numbers are kept as the numerals in the line. */
  datatype ParsedSignal = ParsedSignal(ticker: string, right: char, strike: string, trigger: string, rawLine: string)

  // ---- Lines ----

  function UpperChar(c: char): char {
    if 'a' <= c <= 'z' then (c as int - 32) as char else c
  }

  function UpperTo(s: string, n: nat): string
    requires n <= |s|
  {
    if n == 0 then [] else UpperTo(s, n - 1) + [UpperChar(s[n - 1])]
  }

  function Upper(s: string): string {
    UpperTo(s, |s|)
  }

  lemma {:induction false} UpperAt(s: string, n: nat)
    requires n <= |s|
    ensures |UpperTo(s, n)| == n && forall i | 0 <= i < n :: UpperTo(s, n)[i] == UpperChar(s[i])
  {
    if n > 0 { UpperAt(s, n - 1); }
  }

  /** str.splitlines from `i` on: a carriage return and line feed together are one break. */
  function LinesFrom(text: string, i: nat): seq<string>
    requires i <= |text|
    decreases |text| - i
  {
    if i == |text| then []
    else
      var n := SpanFrom(text, i, Inline);
      if n == |text| then [text[i..n]]
      else
        var crlf := text[n] == '\r' && n + 1 < |text| && text[n + 1] == '\n';
        [text[i..n]] + LinesFrom(text, if crlf then n + 2 else n + 1)
  }

  function SplitLines(text: string): seq<string> {
    LinesFrom(text, 0)
  }

  /** A character at which a line ends. */
  ghost predicate IsBreak(c: char) {
    c as int in {10, 11, 12, 13, 28, 29, 30}
  }

  /** Where the next line begins after the break at `n`. */
  ghost function AfterBreak(text: string, n: nat): nat
    requires n < |text|
  {
    if text[n] == '\r' && n + 1 < |text| && text[n + 1] == '\n' then n + 2 else n + 1
  }

  /** `lines` is the text from `i` on, cut at each break and without them. */
  ghost predicate IsCutAtBreaks(text: string, i: nat, lines: seq<string>)
    requires i <= |text|
    decreases |lines|
  {
    if lines == [] then i == |text|
    else
      var n := i + |lines[0]|;
      && n <= |text| && i < |text| && text[i..n] == lines[0] && (forall j | i <= j < n :: !IsBreak(text[j]))
      && if n == |text| then |lines| == 1
         else IsBreak(text[n]) && IsCutAtBreaks(text, AfterBreak(text, n), lines[1..])
  }

  lemma FirstCut(text: string, i: nat, n: nat, rest: seq<string>)
    requires i <= n < |text| && Range(text, i, n, Inline) && !Is(text[n], Inline)
    requires IsCutAtBreaks(text, AfterBreak(text, n), rest)
    ensures IsCutAtBreaks(text, i, [text[i..n]] + rest)
  {
    var lines := [text[i..n]] + rest;
    assert lines[1..] == rest && i + |lines[0]| == n;
  }

  lemma CutLine(text: string, i: nat, n: nat)
    requires i <= n < |text| && SpanFrom(text, i, Inline) == n
    ensures LinesFrom(text, i) == [text[i..n]] + LinesFrom(text, AfterBreak(text, n))
  {}

  lemma {:induction false} LinesAreCut(text: string, i: nat)
    requires i <= |text|
    ensures IsCutAtBreaks(text, i, LinesFrom(text, i))
    decreases |text| - i
  {
    if i < |text| {
      var n := SpanFrom(text, i, Inline);
      SpanFromSound(text, i, Inline);
      if n < |text| {
        LinesAreCut(text, AfterBreak(text, n));
        CutLine(text, i, n);
        FirstCut(text, i, n, LinesFrom(text, AfterBreak(text, n)));
      }
    }
  }

  /** A message's lines are its text cut at the breaks, a carriage return and line feed together being one. */
  lemma SplitLinesIs(text: string)
    ensures IsCutAtBreaks(text, 0, SplitLines(text))
  {
    LinesAreCut(text, 0);
  }

  /** Where the trailing space of `s` begins, not before `lo`. */
  function TrimTo(s: string, lo: nat, hi: nat): (n: nat)
    requires lo <= hi <= |s|
    ensures lo <= n <= hi
  {
    if hi == lo || !Is(s[hi - 1], Space) then hi else TrimTo(s, lo, hi - 1)
  }

  function Strip(s: string): string {
    var lo := SpanFrom(s, 0, Space);
    s[lo..TrimTo(s, lo, |s|)]
  }

  // ---- What a line contributes ----

  /** A line, stripped, and what the two patterns make of it. */
  /** `t` is `s` without the white space around it. */
  ghost predicate IsStripped(s: string, lo: nat, hi: nat, t: string) {
    && lo <= hi <= |s| && t == s[lo..hi] && Range(s, 0, lo, Space) && Range(s, hi, |s|, Space)
    && (lo < hi ==> !Is(s[lo], Space) && !Is(s[hi - 1], Space))
  }

  lemma {:induction false} TrimmedTo(s: string, lo: nat, hi: nat)
    requires lo <= hi <= |s|
    ensures Range(s, TrimTo(s, lo, hi), hi, Space)
    ensures lo < TrimTo(s, lo, hi) ==> !Is(s[TrimTo(s, lo, hi) - 1], Space)
    decreases hi
  {
    if lo < hi && Is(s[hi - 1], Space) { TrimmedTo(s, lo, hi - 1); }
  }

  lemma StripIs(s: string)
    ensures exists lo: nat, hi: nat :: IsStripped(s, lo, hi, Strip(s))
  {
    var lo := SpanFrom(s, 0, Space);
    SpanFromSound(s, 0, Space);
    TrimmedTo(s, lo, |s|);
    assert IsStripped(s, lo, TrimTo(s, lo, |s|), Strip(s));
  }

  datatype Scanned = Scanned(line: string, full: Option<(string, Quote)>, cont: Option<Quote>)

  function Scan(raw: string): Scanned {
    var line := Strip(raw);
    Scanned(line, ScanLine(line), ScanCont(line))
  }

  /** A call is bought above its trigger and a put below. */
  predicate Consistent(q: Quote) {
    !(UpperChar(q.right) == 'C' && q.direction != '>') && !(UpperChar(q.right) == 'P' && q.direction != '<')
  }

  function Make(ticker: string, q: Quote, line: string): ParsedSignal {
    ParsedSignal(ticker, UpperChar(q.right), q.strike, q.trigger, line)
  }

  /**
   What a line can contribute: the signal of an accepted full line; or, if the line pattern does
   not match at all, a continuation still without its ticker.
   */
  datatype Reading = Reading(line: string, full: Option<ParsedSignal>, cont: Option<Quote>)

  function Read(l: Scanned): Reading {
    if l.full.Some? then
      var (ticker, q) := l.full.value;
      Reading(l.line, if Consistent(q) then Some(Make(Upper(ticker), q, l.line)) else None, None)
    else
      Reading(l.line, None, if l.cont.Some? && Consistent(l.cont.value) then l.cont else None)
  }

  /** Line `i` of the message reads as `rs[i]`. */
  ghost predicate LineReads(lines: seq<string>, rs: seq<Reading>, i: nat)
    requires i < |lines| == |rs|
  {
    rs[i] == Read(Scan(lines[i]))
  }

  ghost predicate Readings(lines: seq<string>, rs: seq<Reading>) {
    |lines| == |rs| && forall i | 0 <= i < |lines| :: LineReads(lines, rs, i)
  }

  /** The ticker of the last accepted full line among the first `n`, if any. */
  ghost function LastTicker(rs: seq<Reading>, n: nat): Option<string>
    requires n <= |rs|
  {
    if n == 0 then None
    else if rs[n - 1].full.Some? then Some(rs[n - 1].full.value.ticker)
    else LastTicker(rs, n - 1)
  }

  /** What a line emits when `last` is the last accepted ticker. */
  ghost function Emitted(r: Reading, last: Option<string>): Option<ParsedSignal> {
    if r.full.Some? then r.full
    else if r.cont.Some? && last.Some? then Some(Make(last.value, r.cont.value, r.line))
    else None
  }

  ghost function SignalAt(rs: seq<Reading>, i: nat): Option<ParsedSignal>
    requires i < |rs|
  {
    Emitted(rs[i], LastTicker(rs, i))
  }

  ghost function Signals(rs: seq<Reading>, n: nat): seq<ParsedSignal>
    requires n <= |rs|
  {
    if n == 0 then []
    else
      var s := SignalAt(rs, n - 1);
      if s.Some? then Signals(rs, n - 1) + [s.value] else Signals(rs, n - 1)
  }

  lemma BlankMatchesNothing(line: string)
    requires |line| == 0
    ensures ScanLine(line) == None && ScanCont(line) == None
  {}

  /** One turn of the loop over lines; no accepted ticker yet is None. */
  method ParseLine(lines: seq<string>, i: nat, last: Option<string>, ghost rs: seq<Reading>)
    returns (sig: Option<ParsedSignal>, lastTicker: Option<string>)
    requires i < |lines| == |rs| && LineReads(lines, rs, i)
    ensures sig == Emitted(rs[i], last)
    ensures lastTicker == if rs[i].full.Some? then Some(rs[i].full.value.ticker) else last
  {
    sig, lastTicker := None, last;
    var line := Strip(lines[i]);
    if |line| == 0 {
      BlankMatchesNothing(line);
      return;
    }
    var m := ScanLine(line);
    if m.Some? {
      var q := m.value.1;
      if (UpperChar(q.right) == 'C' && q.direction != '>') || (UpperChar(q.right) == 'P' && q.direction != '<') {
        return;
      }
      lastTicker := Some(Upper(m.value.0));
      return Some(Make(lastTicker.value, q, line)), lastTicker;
    }
    if lastTicker.None? { return; }
    var c := ScanCont(line);
    if c.None? { return; }
    var q := c.value;
    if (UpperChar(q.right) == 'C' && q.direction != '>') || (UpperChar(q.right) == 'P' && q.direction != '<') {
      return;
    }
    sig := Some(Make(lastTicker.value, q, line));
  }

  ghost function ReadAll(lines: seq<string>): (rs: seq<Reading>)
    ensures Readings(lines, rs)
  {
    seq(|lines|, i requires 0 <= i < |lines| => Read(Scan(lines[i])))
  }

  method ParseMessage(text: string) returns (out: seq<ParsedSignal>)
    ensures out == Signals(ReadAll(SplitLines(text)), |SplitLines(text)|)
  {
    var lines := SplitLines(text);
    out := ParseLines(lines, ReadAll(lines));
  }

  lemma LineNext(rs: seq<Reading>, i: nat)
    requires i < |rs|
    ensures var s := Emitted(rs[i], LastTicker(rs, i));
      Signals(rs, i + 1) == if s.Some? then Signals(rs, i) + [s.value] else Signals(rs, i)
    ensures LastTicker(rs, i + 1) == if rs[i].full.Some? then Some(rs[i].full.value.ticker) else LastTicker(rs, i)
  {}

  method ParseLines(lines: seq<string>, ghost rs: seq<Reading>) returns (out: seq<ParsedSignal>)
    requires Readings(lines, rs)
    ensures out == Signals(rs, |lines|)
  {
    out := [];
    var lastTicker: Option<string> := None;
    for i := 0 to |lines|
      invariant lastTicker == LastTicker(rs, i) && out == Signals(rs, i)
    {
      assert LineReads(lines, rs, i);
      var sig;
      sig, lastTicker := ParseLine(lines, i, lastTicker, rs);
      LineNext(rs, i);
      if sig.Some? { out := out + [sig.value]; }
    }
  }

  // ---- What is emitted, in terms of the patterns ----

  ghost predicate RightWay(q: Quote) {
    (q.right in "Cc" && q.direction == '>') || (q.right in "Pp" && q.direction == '<')
  }

  /** `t` is `s` with its small letters made capital. */
  ghost predicate IsCapital(s: string, t: string) {
    && |t| == |s|
    && forall i | 0 <= i < |s| ::
         if 'a' <= s[i] <= 'z' then t[i] as int == s[i] as int - 32 else t[i] == s[i]
  }

  lemma UpperIff(s: string, t: string)
    ensures IsCapital(s, t) <==> t == Upper(s)
  {
    UpperAt(s, |s|);
  }

  /** `sig` carries the groups of the quote, the right as C or P, and the line. */
  ghost predicate Carries(sig: ParsedSignal, q: Quote, line: string) {
    && sig.right == (if q.right in "Cc" then 'C' else 'P')
    && sig.strike == q.strike && sig.trigger == q.trigger && sig.rawLine == line
  }

  /** `sig` is what the line says, read by the line pattern. */
  ghost predicate EmitsFull(line: string, sig: ParsedSignal) {
    exists t, q :: MatchesLine(line, t, q) && RightWay(q) && IsCapital(t, sig.ticker) && Carries(sig, q, line)
  }

  /** `sig` is what the line says, read by the continuation pattern under ticker `last`. */
  ghost predicate EmitsCont(line: string, last: Option<string>, sig: ParsedSignal) {
    last == Some(sig.ticker) && exists q :: MatchesCont(line, q) && RightWay(q) && Carries(sig, q, line)
  }

  /** The scan holds the only groups the patterns can give, and says which way round they are. */
  ghost predicate Faithful(l: Scanned) {
    && (forall t, q :: MatchesLine(l.line, t, q) <==> l.full == Some((t, q)))
    && (forall q :: MatchesCont(l.line, q) <==> l.cont == Some(q))
    && (l.full.Some? ==> (Consistent(l.full.value.1) <==> RightWay(l.full.value.1)) )
    && (l.cont.Some? ==> (Consistent(l.cont.value) <==> RightWay(l.cont.value)))
    && !(l.full.Some? && l.cont.Some?)
  }

  lemma ScanIsFaithful(raw: string)
    ensures Faithful(Scan(raw))
  {
    var line := Strip(raw);
    forall t, q
      ensures MatchesLine(line, t, q) <==> ScanLine(line) == Some((t, q))
    {
      LineIff(line, t, q);
    }
    forall q
      ensures MatchesCont(line, q) <==> ScanCont(line) == Some(q)
    {
      ContIff(line, q);
    }
    NeverBoth(line);
    if ScanLine(line).Some? { LineSides(line, ScanLine(line).value.0, ScanLine(line).value.1); }
    if ScanCont(line).Some? { ContSides(line, ScanCont(line).value); }
  }

  lemma LineSides(line: string, ticker: string, q: Quote)
    requires MatchesLine(line, ticker, q)
    ensures Consistent(q) <==> RightWay(q)
  {
    var a: nat, b: nat, c: nat :| TickerSpans(line, a, b, c) && ticker == line[a..b] && MatchesQuote(line, c, q);
  }

  lemma ContSides(line: string, q: Quote)
    requires MatchesCont(line, q)
    ensures Consistent(q) <==> RightWay(q)
  {
    var i: nat :| Range(line, 0, i, Space) && MatchesQuote(line, i, q);
  }

  lemma MakeIff(ticker: string, q: Quote, line: string, sig: ParsedSignal)
    requires RightWay(q)
    ensures sig == Make(ticker, q, line) <==> sig.ticker == ticker && Carries(sig, q, line)
  {}

  lemma EmittedIff(l: Scanned, last: Option<string>, sig: ParsedSignal)
    requires Faithful(l)
    ensures Emitted(Read(l), last) == Some(sig) <==> EmitsFull(l.line, sig) || EmitsCont(l.line, last, sig)
  {
    if l.full.Some? {
      var (t, q) := l.full.value;
      assert MatchesLine(l.line, t, q);
      UpperIff(t, sig.ticker);
      if RightWay(q) { MakeIff(Upper(t), q, l.line, sig); }
    }
    if l.cont.Some? {
      var q := l.cont.value;
      assert MatchesCont(l.line, q);
      if RightWay(q) && last.Some? { MakeIff(last.value, q, l.line, sig); }
    }
  }

  /** A line emits a signal exactly when it matches a pattern the right way round and has a ticker. */
  lemma SignalIff(lines: seq<string>, rs: seq<Reading>, i: nat, sig: ParsedSignal)
    requires i < |lines| && Readings(lines, rs)
    ensures SignalAt(rs, i) == Some(sig) <==>
      EmitsFull(Strip(lines[i]), sig) || EmitsCont(Strip(lines[i]), LastTicker(rs, i), sig)
  {
    assert LineReads(lines, rs, i);
    ScanIsFaithful(lines[i]);
    EmittedIff(Scan(lines[i]), LastTicker(rs, i), sig);
  }

  /** Line `j` is the nearest accepted full line before `n`. */
  ghost predicate NearestFull(rs: seq<Reading>, n: nat, j: nat)
    requires n <= |rs|
  {
    j < n && rs[j].full.Some? && forall k | j < k < n :: rs[k].full.None?
  }

  /** The inherited ticker is that of the nearest accepted full line; it is missing exactly when there is none. */
  lemma {:induction false} NearestTicker(rs: seq<Reading>, n: nat)
    requires n <= |rs|
    ensures LastTicker(rs, n) == None <==> forall j | 0 <= j < n :: rs[j].full.None?
    ensures forall j: nat | NearestFull(rs, n, j) :: LastTicker(rs, n) == Some(rs[j].full.value.ticker)
  {
    if n > 0 && rs[n - 1].full.None? {
      NearestTicker(rs, n - 1);
      forall j: nat | NearestFull(rs, n, j)
        ensures NearestFull(rs, n - 1, j)
      {}
    }
  }

  // ---- Printing and parsing back ----

  datatype Ticket = Ticket(ticker: string, right: char, strike: string, trigger: string)

  ghost predicate ValidTicket(t: Ticket) {
    && 1 <= |t.ticker| <= 6 && (forall i | 0 <= i < |t.ticker| :: 'A' <= t.ticker[i] <= 'Z')
    && (t.right == 'C' || t.right == 'P')
    && Numeral(t.strike, 0, |t.strike|) && Numeral(t.trigger, 0, |t.trigger|)
  }

  function QuoteOf(t: Ticket): Quote {
    Quote(t.strike, t.right, if t.right == 'C' then '>' else '<', t.trigger)
  }

  /** One watchlist line; a short one leaves the ticker out. */
  function Print(t: Ticket, short: bool): string {
    (if short then [] else t.ticker + [' '])
    + (t.strike + ([t.right, ' ', QuoteOf(t).direction, ' '] + t.trigger))
  }

  /** Lines joined into a message. */
  function Join(lines: seq<string>, k: nat): string
    requires k <= |lines|
    decreases |lines| - k
  {
    if k == |lines| then [] else lines[k] + (['\n'] + Join(lines, k + 1))
  }

  function PrintAll(ts: seq<Ticket>, short: seq<bool>): (lines: seq<string>)
    requires |ts| == |short|
    ensures |lines| == |ts| && forall i | 0 <= i < |ts| :: lines[i] == Print(ts[i], short[i])
  {
    seq(|ts|, i requires 0 <= i < |ts| => Print(ts[i], short[i]))
  }

  /** A numeral stays one wherever it is copied to. */
  lemma NumeralCopied(x: string, s: string, at: nat)
    requires Numeral(x, 0, |x|) && at + |x| <= |s| && forall j | 0 <= j < |x| :: s[at + j] == x[j]
    ensures Numeral(s, at, at + |x|) && s[at..at + |x|] == x
  {
    if Digits(x, 0, |x|) {
      DigitsCopied(x, 0, |x|, s, at);
    } else {
      var k: nat :| Decimal(x, 0, k, |x|);
      DigitsCopied(x, 0, k, s, at);
      DigitsCopied(x, k + 1, |x|, s, at);
      assert Decimal(s, at, at + k, at + |x|);
    }
  }

  lemma DigitsCopied(x: string, lo: nat, hi: nat, s: string, at: nat)
    requires Digits(x, lo, hi) && at + |x| <= |s| && forall j | 0 <= j < |x| :: s[at + j] == x[j]
    ensures Digits(s, at + lo, at + hi)
  {
    forall j | at + lo <= j < at + hi
      ensures Is(s[j], Digit)
    {
      assert s[at + (j - at)] == x[j - at];
    }
  }

  /** A numeral is digits and points, from a digit to a digit. */
  lemma NumeralChars(x: string)
    requires Numeral(x, 0, |x|)
    ensures x != "" && Is(x[0], Digit) && Is(x[|x| - 1], Digit)
    ensures forall j | 0 <= j < |x| :: Is(x[j], Digit) || x[j] == '.'
  {}

  /** The characters of a printed line, by position. */
  lemma PrintLayout(t: Ticket, short: bool) returns (at: nat)
    ensures var s := Print(t, short);
      && at == (if short then 0 else |t.ticker| + 1)
      && Laid(t, s, at) && (!short ==> s[at - 1] == ' ' && forall j | 0 <= j < at - 1 :: s[j] == t.ticker[j])
  {
    at := if short then 0 else |t.ticker| + 1;
    var prefix := if short then [] else t.ticker + [' '];
    var tail := [t.right, ' ', QuoteOf(t).direction, ' '] + t.trigger;
    var s := Print(t, short);
    assert forall j | 0 <= j < |tail| :: s[at + |t.strike| + j] == tail[j];
    assert forall j | 0 <= j < |t.trigger| :: tail[4 + j] == t.trigger[j];
    assert forall j | 0 <= j < at :: s[j] == prefix[j];
  }

  /** A ticket's quote is laid out from `at` to the end of `s`. */
  ghost predicate Laid(t: Ticket, s: string, at: nat) {
    var n := at + |t.strike|;
    && |s| == n + 4 + |t.trigger|
    && (forall j | 0 <= j < |t.strike| :: s[at + j] == t.strike[j])
    && s[n] == t.right && s[n + 1] == ' ' && s[n + 2] == QuoteOf(t).direction && s[n + 3] == ' '
    && (forall j | 0 <= j < |t.trigger| :: s[n + 4 + j] == t.trigger[j])
  }

  lemma LaidSpans(t: Ticket, s: string, at: nat)
    requires ValidTicket(t) && Laid(t, s, at)
    ensures var n := at + |t.strike|; QuoteSpans(s, at, n, n + 2, n + 4, |s|)
    ensures var n := at + |t.strike|; Quote(s[at..n], s[n], s[n + 2], s[n + 4..|s|]) == QuoteOf(t)
  {
    var n := at + |t.strike|;
    NumeralCopied(t.strike, s, at);
    NumeralCopied(t.trigger, s, n + 4);
    assert Range(s, n + 1, n + 2, Space) && Range(s, n + 3, n + 4, Space) && Range(s, |s|, |s|, Space);
  }

  /** Wherever a ticket's quote is laid out to the end of a line, the pattern matches it. */
  lemma LaidMatches(t: Ticket, s: string, at: nat)
    requires ValidTicket(t) && Laid(t, s, at)
    ensures MatchesQuote(s, at, QuoteOf(t))
  {
    var n := at + |t.strike|;
    LaidSpans(t, s, at);
    SpansMatch(s, at, n, n + 2, n + 4, |s|);
  }

  lemma PrintMatches(t: Ticket, short: bool) returns (at: nat)
    requires ValidTicket(t)
    ensures at == (if short then 0 else |t.ticker| + 1) && MatchesQuote(Print(t, short), at, QuoteOf(t))
  {
    at := PrintLayout(t, short);
    LaidMatches(t, Print(t, short), at);
  }

  lemma PrintParses(t: Ticket, short: bool)
    requires ValidTicket(t)
    ensures if short then ScanLine(Print(t, short)) == None && ScanCont(Print(t, short)) == Some(QuoteOf(t))
            else ScanLine(Print(t, short)) == Some((t.ticker, QuoteOf(t)))
  {
    var at := PrintMatches(t, short);
    var s, q := Print(t, short), QuoteOf(t);
    if short {
      assert Range(s, 0, 0, Space);
      ContIff(s, q);
      NeverBoth(s);
    } else {
      var at' := PrintLayout(t, short);
      assert TickerSpans(s, 0, |t.ticker|, at);
      assert s[0..|t.ticker|] == t.ticker;
      LineIff(s, t.ticker, q);
    }
  }

  lemma StripExact(s: string)
    requires s != "" && !Is(s[0], Space) && !Is(s[|s| - 1], Space)
    ensures Strip(s) == s
  {}

  /** A ticket's quote holds no line break, and ends with a digit. */
  lemma LaidChars(t: Ticket, s: string, at: nat)
    requires ValidTicket(t) && Laid(t, s, at)
    ensures Range(s, at, |s|, Inline) && |s| > 0 && !Is(s[|s| - 1], Space)
  {
    var n := at + |t.strike|;
    NumeralChars(t.strike);
    NumeralChars(t.trigger);
    CopiedInline(t.strike, s, at);
    CopiedInline(t.trigger, s, n + 4);
    assert s[n + 4 + (|t.trigger| - 1)] == t.trigger[|t.trigger| - 1];
  }

  lemma CopiedInline(x: string, s: string, at: nat)
    requires at + |x| <= |s| && forall j | 0 <= j < |x| :: s[at + j] == x[j] && (Is(x[j], Digit) || x[j] == '.')
    ensures Range(s, at, at + |x|, Inline)
  {
    forall j | at <= j < at + |x|
      ensures Is(s[j], Inline)
    {
      assert s[at + (j - at)] == x[j - at];
    }
  }

  lemma PrintChars(t: Ticket, short: bool)
    requires ValidTicket(t)
    ensures Strip(Print(t, short)) == Print(t, short) && Range(Print(t, short), 0, |Print(t, short)|, Inline)
  {
    var at := PrintLayout(t, short);
    var s := Print(t, short);
    LaidChars(t, s, at);
    if short { NumeralStart(t.strike, 0, |t.strike|); }
    StripExact(s);
  }

  lemma LineBreaks(text: string, i: nat, n: nat)
    requires i <= n < |text| && SpanFrom(text, i, Inline) == n && text[n] == '\n'
    ensures LinesFrom(text, i) == [text[i..n]] + LinesFrom(text, n + 1)
  {}

  lemma SplitFirst(text: string, line: string, i: nat)
    requires Range(line, 0, |line|, Inline) && i + |line| < |text|
    requires (forall j | 0 <= j < |line| :: text[i + j] == line[j]) && text[i + |line|] == '\n'
    ensures LinesFrom(text, i) == [line] + LinesFrom(text, i + |line| + 1)
  {
    assert forall j | i <= j < i + |line| :: text[j] == line[j - i];
    SpanFromExact(text, i, i + |line|, Inline);
    LineBreaks(text, i, i + |line|);
    assert text[i..i + |line|] == line;
  }

  /** From `i` on, `text` is the lines from `k` on, each ended by a line feed. */
  ghost predicate Lays(text: string, i: nat, lines: seq<string>, k: nat)
    requires i <= |text| && k <= |lines|
    decreases |lines| - k
  {
    if k == |lines| then i == |text|
    else
      var n := i + |lines[k]|;
      n < |text| && (forall j | 0 <= j < |lines[k]| :: text[i + j] == lines[k][j]) && text[n] == '\n'
      && Lays(text, n + 1, lines, k + 1)
  }

  /** `text` ends with `tail`, from `i` on. */
  ghost predicate EndsWith(text: string, i: nat, tail: string) {
    |text| == i + |tail| && forall j | 0 <= j < |tail| :: text[i + j] == tail[j]
  }

  lemma {:induction false} JoinLays(text: string, i: nat, lines: seq<string>, k: nat)
    requires i <= |text| && k <= |lines| && EndsWith(text, i, Join(lines, k))
    ensures Lays(text, i, lines, k)
    decreases |lines| - k
  {
    if k < |lines| {
      EndFirst(text, i, lines[k], Join(lines, k + 1));
      JoinLays(text, i + |lines[k]| + 1, lines, k + 1);
    }
  }

  lemma EndFirst(text: string, i: nat, line: string, rest: string)
    requires i <= |text| && EndsWith(text, i, line + (['\n'] + rest))
    ensures var n := i + |line|;
      && n < |text| && (forall j | 0 <= j < |line| :: text[i + j] == line[j]) && text[n] == '\n'
      && EndsWith(text, n + 1, rest)
  {
    var tail := line + (['\n'] + rest);
    assert tail[|line|] == '\n' && text[i + |line|] == tail[|line|];
    assert forall j | 0 <= j < |line| :: tail[j] == line[j];
    assert forall j | 0 <= j < |rest| :: tail[|line| + 1 + j] == rest[j];
    forall j | 0 <= j < |rest|
      ensures text[i + |line| + 1 + j] == rest[j]
    {
      assert text[i + (|line| + 1 + j)] == tail[|line| + 1 + j];
    }
  }

  /** Splitting a joined message gives the lines back, from any line on. */
  lemma {:induction false} SplitLaid(text: string, i: nat, lines: seq<string>, k: nat)
    requires k <= |lines| && forall j | 0 <= j < |lines| :: Range(lines[j], 0, |lines[j]|, Inline)
    requires i <= |text| && Lays(text, i, lines, k)
    ensures LinesFrom(text, i) == lines[k..]
    decreases |lines| - k
  {
    if k < |lines| {
      SplitFirst(text, lines[k], i);
      SplitLaid(text, i + |lines[k]| + 1, lines, k + 1);
      FirstOf(lines, k);
    }
  }

  lemma FirstOf(lines: seq<string>, k: nat)
    requires k < |lines|
    ensures lines[k..] == [lines[k]] + lines[k + 1..]
  {}

  /** Any lines without breaks in them survive being joined and split. */
  lemma SplitJoin(lines: seq<string>)
    requires forall j | 0 <= j < |lines| :: Range(lines[j], 0, |lines[j]|, Inline)
    ensures SplitLines(Join(lines, 0)) == lines
  {
    var text := Join(lines, 0);
    JoinLays(text, 0, lines, 0);
    SplitLaid(text, 0, lines, 0);
  }

  /** Short lines repeat the ticker of the line before them. */
  ghost predicate ShortRepeats(ts: seq<Ticket>, short: seq<bool>) {
    |ts| == |short| && forall i | 0 <= i < |ts| && short[i] :: i > 0 && ts[i].ticker == ts[i - 1].ticker
  }

  function Expected(t: Ticket, short: bool): ParsedSignal {
    ParsedSignal(t.ticker, t.right, t.strike, t.trigger, Print(t, short))
  }

  /** What reading a printed ticket gives. */
  ghost predicate ReadsAs(r: Reading, t: Ticket, short: bool) {
    r == if short then Reading(Print(t, short), None, Some(QuoteOf(t)))
         else Reading(Print(t, short), Some(Expected(t, short)), None)
  }

  lemma PrintReads(t: Ticket, short: bool)
    requires ValidTicket(t)
    ensures ReadsAs(Read(Scan(Print(t, short))), t, short)
  {
    PrintChars(t, short);
    PrintParses(t, short);
    var line := Print(t, short);
    TicketReads(t, short, Scanned(line, ScanLine(line), ScanCont(line)));
  }

  lemma TicketReads(t: Ticket, short: bool, l: Scanned)
    requires ValidTicket(t) && l.line == Print(t, short)
    requires if short then l.full == None && l.cont == Some(QuoteOf(t)) else l.full == Some((t.ticker, QuoteOf(t)))
    ensures ReadsAs(Read(l), t, short)
  {
    assert UpperChar(t.right) == t.right && Consistent(QuoteOf(t));
    UpperAt(t.ticker, |t.ticker|);
    assert Upper(t.ticker) == t.ticker;
  }

  lemma {:induction false} PrintedSignals(ts: seq<Ticket>, short: seq<bool>, rs: seq<Reading>, n: nat)
    requires ShortRepeats(ts, short) && n <= |ts| == |rs|
    requires forall i | 0 <= i < |ts| :: ValidTicket(ts[i]) && ReadsAs(rs[i], ts[i], short[i])
    ensures n > 0 ==> LastTicker(rs, n) == Some(ts[n - 1].ticker)
    ensures |Signals(rs, n)| == n && forall i | 0 <= i < n :: Signals(rs, n)[i] == Expected(ts[i], short[i])
  {
    if n > 0 {
      PrintedSignals(ts, short, rs, n - 1);
      assert SignalAt(rs, n - 1) == Some(Expected(ts[n - 1], short[n - 1]));
    }
  }

  /**
   Round trip: printing any valid tickets and parsing the message gives them back, in order;
   leaving out a ticker that repeats the line before changes nothing but the raw line.
   */
  lemma RoundTrip(ts: seq<Ticket>, short: seq<bool>, rs: seq<Reading>)
    requires ShortRepeats(ts, short) && forall t | t in ts :: ValidTicket(t)
    requires Readings(SplitLines(Join(PrintAll(ts, short), 0)), rs)
    ensures |Signals(rs, |rs|)| == |ts| && forall i | 0 <= i < |ts| :: Signals(rs, |rs|)[i] == Expected(ts[i], short[i])
  {
    var lines := PrintAll(ts, short);
    forall i | 0 <= i < |ts|
      ensures Range(lines[i], 0, |lines[i]|, Inline)
    {
      PrintChars(ts[i], short[i]);
    }
    SplitJoin(lines);
    forall i | 0 <= i < |ts|
      ensures ReadsAs(rs[i], ts[i], short[i])
    {
      assert LineReads(lines, rs, i);
      PrintReads(ts[i], short[i]);
    }
    PrintedSignals(ts, short, rs, |ts|);
  }
}
