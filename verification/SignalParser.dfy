/**
 The two watchlist line patterns, character by character, over ASCII text.  Each is given
 twice: as the regular expression reads, by which spans of the line its parts can be, and as
 a deterministic scanner.  They are proved to be the same.
 */
module SignalParser {
  import opened Wrappers

  // ---- Character classes (ASCII) ----

  datatype CharClass = Space | Digit | Letter | Inline

  /** The members of a class; Inline is what str.splitlines does not break at. */
  predicate Is(c: char, k: CharClass) {
    match k
    case Space => 9 <= c as int <= 13 || 28 <= c as int <= 32
    case Digit => '0' <= c <= '9'
    case Letter => 'a' <= c <= 'z' || 'A' <= c <= 'Z'
    case Inline => !(10 <= c as int <= 13 || 28 <= c as int <= 30)
  }

  predicate IsRight(c: char) {
    c == 'C' || c == 'c' || c == 'P' || c == 'p'
  }

  predicate IsDirection(c: char) {
    c == '<' || c == '>'
  }

  /** The classes by their codes in ASCII: white space, line breaks, digits and letters. */
  lemma ClassesAre(c: char)
    ensures var code := c as int;
      && (Is(c, Space) <==> code in {9, 10, 11, 12, 13, 28, 29, 30, 31, 32})
      && (Is(c, Inline) <==> code !in {10, 11, 12, 13, 28, 29, 30})
      && (Is(c, Digit) <==> 48 <= code <= 57)
      && (Is(c, Letter) <==> 65 <= code <= 90 || 97 <= code <= 122)
  {}

  lemma SignsAre(c: char)
    ensures (IsRight(c) <==> c in "CcPp") && (IsDirection(c) <==> c in "<>")
  {}

  // ---- The patterns: what the spans of a line may be ----

  /** Characters `lo` to `hi` of `s` are all of class `k`. */
  ghost predicate Range(s: string, lo: nat, hi: nat, k: CharClass) {
    lo <= hi <= |s| && forall j | lo <= j < hi :: Is(s[j], k)
  }

  ghost predicate Digits(s: string, lo: nat, hi: nat) {
    lo < hi && Range(s, lo, hi, Digit)
  }

  /** Digits, a point at `k`, digits. */
  ghost predicate Decimal(s: string, lo: nat, k: nat, hi: nat) {
    k < |s| && Digits(s, lo, k) && s[k] == '.' && Digits(s, k + 1, hi)
  }

  /** \d+(?:\.\d+)? */
  ghost predicate Numeral(s: string, lo: nat, hi: nat) {
    Digits(s, lo, hi) || exists k: nat :: Decimal(s, lo, k, hi)
  }

  datatype Quote = Quote(strike: string, right: char, direction: char, trigger: string)

  /** STRIKE[CP] direction TRIGGER from `i` to the end: the strike ends at `n`, the trigger is `t` to `e`. */
  ghost predicate QuoteSpans(s: string, i: nat, n: nat, d: nat, t: nat, e: nat) {
    && Numeral(s, i, n) && n < |s| && IsRight(s[n])
    && Range(s, n + 1, d, Space) && d < |s| && IsDirection(s[d])
    && Range(s, d + 1, t, Space) && Numeral(s, t, e) && Range(s, e, |s|, Space)
  }

  ghost predicate MatchesQuote(s: string, i: nat, q: Quote) {
    exists n: nat, d: nat, t: nat, e: nat ::
      QuoteSpans(s, i, n, d, t, e) && i <= n && t <= e <= |s| && q == Quote(s[i..n], s[n], s[d], s[t..e])
  }

  /** The continuation pattern: optional space, then a quote. */
  ghost predicate MatchesCont(line: string, q: Quote) {
    exists i: nat :: Range(line, 0, i, Space) && MatchesQuote(line, i, q)
  }

  /** Optional space to `a`, a ticker to `b`, space to `c`. */
  ghost predicate TickerSpans(line: string, a: nat, b: nat, c: nat) {
    && Range(line, 0, a, Space) && Range(line, a, b, Letter) && 1 <= b - a <= 6
    && b < c && Range(line, b, c, Space)
  }

  /** The line pattern: a ticker, then a quote. */
  ghost predicate MatchesLine(line: string, ticker: string, q: Quote) {
    exists a: nat, b: nat, c: nat :: TickerSpans(line, a, b, c) && ticker == line[a..b] && MatchesQuote(line, c, q)
  }

  // ---- The scanner ----

  /** The end of the run of characters from `i` on of class `k`. */
  function SpanFrom(s: string, i: nat, k: CharClass): (n: nat)
    requires i <= |s|
    ensures i <= n <= |s|
    decreases |s| - i
  {
    if i == |s| || !Is(s[i], k) then i else SpanFrom(s, i + 1, k)
  }

  /** The end of the longest numeral at `i`, or `i`. */
  function NumeralFrom(s: string, i: nat): (n: nat)
    requires i <= |s|
    ensures i <= n <= |s|
  {
    var n := SpanFrom(s, i, Digit);
    if i < n < |s| && s[n] == '.' && SpanFrom(s, n + 1, Digit) > n + 1 then SpanFrom(s, n + 1, Digit) else n
  }

  function QuoteFrom(s: string, i: nat): Option<Quote>
    requires i <= |s|
  {
    var n := NumeralFrom(s, i);
    if n == i || n == |s| || !IsRight(s[n]) then None
    else
      var d := SpanFrom(s, n + 1, Space);
      if d == |s| || !IsDirection(s[d]) then None
      else
        var t := SpanFrom(s, d + 1, Space);
        var e := NumeralFrom(s, t);
        if e == t || SpanFrom(s, e, Space) != |s| then None else Some(Quote(s[i..n], s[n], s[d], s[t..e]))
  }

  function ScanCont(line: string): Option<Quote> {
    QuoteFrom(line, SpanFrom(line, 0, Space))
  }

  function ScanLine(line: string): Option<(string, Quote)> {
    var a := SpanFrom(line, 0, Space);
    var b := SpanFrom(line, a, Letter);
    var c := SpanFrom(line, b, Space);
    if 1 <= b - a <= 6 && b < c then
      var q := QuoteFrom(line, c);
      if q.Some? then Some((line[a..b], q.value)) else None
    else None
  }

  // ---- They agree ----

  lemma {:induction false} SpanFromSound(s: string, i: nat, k: CharClass)
    requires i <= |s|
    ensures var n := SpanFrom(s, i, k); Range(s, i, n, k) && (n < |s| ==> !Is(s[n], k))
    decreases |s| - i
  {
    if i < |s| && Is(s[i], k) { SpanFromSound(s, i + 1, k); }
  }

  lemma SpanFromExact(s: string, i: nat, n: nat, k: CharClass)
    requires Range(s, i, n, k) && (n < |s| ==> !Is(s[n], k))
    ensures SpanFrom(s, i, k) == n
  {
    SpanFromSound(s, i, k);
  }

  lemma NumeralStart(s: string, lo: nat, hi: nat)
    requires Numeral(s, lo, hi)
    ensures lo < hi <= |s| && Is(s[lo], Digit)
  {}

  lemma NumeralFromExact(s: string, lo: nat, hi: nat)
    requires Numeral(s, lo, hi) && (hi < |s| ==> !Is(s[hi], Digit) && s[hi] != '.')
    ensures NumeralFrom(s, lo) == hi
  {
    if Digits(s, lo, hi) {
      SpanFromExact(s, lo, hi, Digit);
    } else {
      var k: nat :| Decimal(s, lo, k, hi);
      SpanFromExact(s, lo, k, Digit);
      SpanFromExact(s, k + 1, hi, Digit);
    }
  }

  lemma NumeralFromSound(s: string, i: nat)
    requires i <= |s| && NumeralFrom(s, i) > i
    ensures Numeral(s, i, NumeralFrom(s, i))
  {
    var n := SpanFrom(s, i, Digit);
    SpanFromSound(s, i, Digit);
    if n < |s| { SpanFromSound(s, n + 1, Digit); }
    if n < NumeralFrom(s, i) { assert Decimal(s, i, n, NumeralFrom(s, i)); }
  }

  lemma ArrowComplete(s: string, i: nat, n: nat, d: nat, t: nat, e: nat)
    requires QuoteSpans(s, i, n, d, t, e)
    ensures n < d < t <= |s|
    ensures SpanFrom(s, n + 1, Space) == d && SpanFrom(s, d + 1, Space) == t
  {
    NumeralStart(s, t, e);
    SpanFromExact(s, n + 1, d, Space);
    SpanFromExact(s, d + 1, t, Space);
  }

  lemma NumeralsComplete(s: string, i: nat, n: nat, d: nat, t: nat, e: nat)
    requires QuoteSpans(s, i, n, d, t, e)
    ensures i < n < |s| && NumeralFrom(s, i) == n
    ensures t < e <= |s| && NumeralFrom(s, t) == e && SpanFrom(s, e, Space) == |s|
  {
    NumeralStart(s, i, n);
    NumeralFromExact(s, i, n);
    NumeralStart(s, t, e);
    NumeralFromExact(s, t, e);
    SpanFromExact(s, e, |s|, Space);
  }

  lemma QuoteComplete(s: string, i: nat, n: nat, d: nat, t: nat, e: nat)
    requires QuoteSpans(s, i, n, d, t, e)
    ensures i < n && t < e <= |s| && QuoteFrom(s, i) == Some(Quote(s[i..n], s[n], s[d], s[t..e]))
  {
    ArrowComplete(s, i, n, d, t, e);
    NumeralsComplete(s, i, n, d, t, e);
    QuoteFromSpans(s, i, n, d, t, e);
  }

  lemma QuoteFromSpans(s: string, i: nat, n: nat, d: nat, t: nat, e: nat)
    requires i < n < |s| && NumeralFrom(s, i) == n && IsRight(s[n])
    requires d < |s| && SpanFrom(s, n + 1, Space) == d && IsDirection(s[d])
    requires t < e <= |s| && SpanFrom(s, d + 1, Space) == t && NumeralFrom(s, t) == e && SpanFrom(s, e, Space) == |s|
    ensures QuoteFrom(s, i) == Some(Quote(s[i..n], s[n], s[d], s[t..e]))
  {}

  lemma SpansMatch(s: string, i: nat, n: nat, d: nat, t: nat, e: nat)
    requires QuoteSpans(s, i, n, d, t, e) && i <= n && t <= e <= |s|
    ensures MatchesQuote(s, i, Quote(s[i..n], s[n], s[d], s[t..e]))
  {}

  lemma SpansSound(s: string, i: nat, n: nat, d: nat, t: nat, e: nat)
    requires i < n < |s| && NumeralFrom(s, i) == n && IsRight(s[n])
    requires d < |s| && SpanFrom(s, n + 1, Space) == d && IsDirection(s[d])
    requires t < e <= |s| && SpanFrom(s, d + 1, Space) == t && NumeralFrom(s, t) == e && SpanFrom(s, e, Space) == |s|
    ensures QuoteSpans(s, i, n, d, t, e) && Is(s[i], Digit)
  {
    NumeralFromSound(s, i);
    NumeralStart(s, i, n);
    NumeralFromSound(s, t);
    SpanFromSound(s, n + 1, Space);
    SpanFromSound(s, d + 1, Space);
    SpanFromSound(s, e, Space);
  }

  lemma QuoteSound(s: string, i: nat)
    requires i <= |s| && QuoteFrom(s, i).Some?
    ensures MatchesQuote(s, i, QuoteFrom(s, i).value) && i < |s| && Is(s[i], Digit)
  {
    var n := NumeralFrom(s, i);
    var d := SpanFrom(s, n + 1, Space);
    var t := SpanFrom(s, d + 1, Space);
    var e := NumeralFrom(s, t);
    SpansSound(s, i, n, d, t, e);
    SpansMatch(s, i, n, d, t, e);
  }

  lemma QuoteIff(s: string, i: nat, q: Quote)
    requires i <= |s|
    ensures MatchesQuote(s, i, q) <==> QuoteFrom(s, i) == Some(q)
  {
    if MatchesQuote(s, i, q) {
      var n: nat, d: nat, t: nat, e: nat :|
        QuoteSpans(s, i, n, d, t, e) && i <= n && t <= e <= |s| && q == Quote(s[i..n], s[n], s[d], s[t..e]);
      QuoteComplete(s, i, n, d, t, e);
    }
    if QuoteFrom(s, i) == Some(q) { QuoteSound(s, i); }
  }

  lemma QuoteStart(s: string, i: nat, q: Quote)
    requires MatchesQuote(s, i, q)
    ensures i < |s| && Is(s[i], Digit)
  {
    var n: nat, d: nat, t: nat, e: nat :| QuoteSpans(s, i, n, d, t, e);
    NumeralStart(s, i, n);
  }

  /** The continuation scanner accepts exactly what the pattern matches, and yields its only groups. */
  lemma ContIff(line: string, q: Quote)
    ensures MatchesCont(line, q) <==> ScanCont(line) == Some(q)
  {
    if MatchesCont(line, q) {
      var i: nat :| Range(line, 0, i, Space) && MatchesQuote(line, i, q);
      QuoteStart(line, i, q);
      SpanFromExact(line, 0, i, Space);
      QuoteIff(line, i, q);
    }
    var i := SpanFrom(line, 0, Space);
    SpanFromSound(line, 0, Space);
    QuoteIff(line, i, q);
  }

  /** So does the line scanner. */
  lemma LineIff(line: string, ticker: string, q: Quote)
    ensures MatchesLine(line, ticker, q) <==> ScanLine(line) == Some((ticker, q))
  {
    if MatchesLine(line, ticker, q) {
      var a: nat, b: nat, c: nat :| TickerSpans(line, a, b, c) && ticker == line[a..b] && MatchesQuote(line, c, q);
      LineComplete(line, a, b, c, q);
    }
    if ScanLine(line) == Some((ticker, q)) { LineSound(line); }
  }

  lemma LineComplete(line: string, a: nat, b: nat, c: nat, q: Quote)
    requires TickerSpans(line, a, b, c) && MatchesQuote(line, c, q)
    ensures ScanLine(line) == Some((line[a..b], q))
  {
    QuoteStart(line, c, q);
    SpanFromExact(line, 0, a, Space);
    SpanFromExact(line, a, b, Letter);
    SpanFromExact(line, b, c, Space);
    QuoteIff(line, c, q);
  }

  lemma LineSound(line: string)
    requires ScanLine(line).Some?
    ensures MatchesLine(line, ScanLine(line).value.0, ScanLine(line).value.1)
  {
    var a := SpanFrom(line, 0, Space);
    var b := SpanFrom(line, a, Letter);
    var c := SpanFrom(line, b, Space);
    SpanFromSound(line, 0, Space);
    SpanFromSound(line, a, Letter);
    SpanFromSound(line, b, Space);
    assert TickerSpans(line, a, b, c);
    QuoteIff(line, c, QuoteFrom(line, c).value);
  }

  /** No line matches both patterns. */
  lemma NeverBoth(line: string)
    ensures !(ScanLine(line).Some? && ScanCont(line).Some?)
  {
    if ScanCont(line).Some? { QuoteSound(line, SpanFrom(line, 0, Space)); }
  }
}
