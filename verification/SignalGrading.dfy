/**
 Grading a signal: bucket totals, the profit-factor lift of a split, and the decision rule over
 two holdouts.  Floats are reals extended with the infinities and NaN.
 */
module SignalGrading {
  import opened Wrappers

  // ---- Extended reals ----

  datatype Float = Fin(r: real) | PosInf | NegInf | NaN

  function Sub(a: Float, b: Float): Float {
    if a.Fin? && b.Fin? then Fin(a.r - b.r)
    else if a.NaN? || b.NaN? || a == b then NaN
    else if a.PosInf? || b.NegInf? then PosInf
    else NegInf
  }

  function Abs(a: Float): Float {
    match a
    case Fin(r) => Fin(if r < 0.0 then -r else r)
    case NegInf => PosInf
    case _ => a
  }

  /** Every comparison with NaN is false. */
  predicate Less(a: Float, b: Float) {
    match (a, b)
    case (Fin(x), Fin(y)) => x < y
    case (NaN, _) => false
    case (_, NaN) => false
    case (NegInf, _) => !b.NegInf?
    case (_, PosInf) => !a.PosInf?
    case _ => false
  }

  predicate AtMost(a: Float, b: Float) {
    Less(a, b) || (a == b && !a.NaN?)
  }

  predicate IsInf(a: Float) {
    a.PosInf? || a.NegInf?
  }

  // ---- Buckets ----

  datatype Stats = Stats(n: nat, wins: nat, losses: nat, grossWin: real, grossLoss: real, total: real)

  const EMPTY := Stats(0, 0, 0, 0.0, 0.0, 0.0)

  function Plus(a: Stats, b: Stats): Stats {
    Stats(a.n + b.n, a.wins + b.wins, a.losses + b.losses,
          a.grossWin + b.grossWin, a.grossLoss + b.grossLoss, a.total + b.total)
  }

  function One(pnl: real): Stats {
    Stats(1, if pnl > 0.0 then 1 else 0, if pnl < 0.0 then 1 else 0,
          if pnl > 0.0 then pnl else 0.0, if pnl < 0.0 then -pnl else 0.0, pnl)
  }

  function ProfitFactor(grossWin: real, grossLoss: real): Float {
    if grossLoss == 0.0 then if grossWin == 0.0 then Fin(0.0) else PosInf
    else Fin(grossWin / grossLoss)
  }

  function Pf(s: Stats): Float {
    ProfitFactor(s.grossWin, s.grossLoss)
  }

  class Bucket {
    var n: nat
    var wins: nat
    var losses: nat
    var grossWin: real
    var grossLoss: real
    var total: real

    function Get(): Stats
      reads this
    {
      Stats(n, wins, losses, grossWin, grossLoss, total)
    }

    constructor ()
      ensures Get() == EMPTY
    {
      n, wins, losses, grossWin, grossLoss, total := 0, 0, 0, 0.0, 0.0, 0.0;
    }

    method Add(pnl: real)
      modifies this
      ensures Get() == Plus(old(Get()), One(pnl))
    {
      n, total := n + 1, total + pnl;
      if pnl > 0.0 {
        wins, grossWin := wins + 1, grossWin + pnl;
      } else if pnl < 0.0 {
        losses, grossLoss := losses + 1, grossLoss + -pnl;
      }
    }
  }

  // ---- Splits ----

  /** A round trip's P&L and the two tags, absent when missing or not a number. */
  datatype Sample = Sample(pnl: real, hvnDist: Option<Float>, emaDist: Option<Float>)

  datatype Splitter = HvnNearFar | EmaWithinOutside

  predicate Near(splitter: Splitter, s: Sample) {
    match splitter
    case HvnNearFar => s.hvnDist.Some? && AtMost(s.hvnDist.value, Fin(0.5))
    case EmaWithinOutside => s.emaDist.Some? && AtMost(Abs(s.emaDist.value), Fin(1.0))
  }

  /**
   A sample is near the high-volume node when its tag is a number of at most one half, and within
   the average's band when its tag is a number from minus one to one.
   */
  lemma NearIff(s: Sample)
    ensures Near(HvnNearFar, s) <==>
      s.hvnDist.Some? && (s.hvnDist.value.NegInf? || (s.hvnDist.value.Fin? && s.hvnDist.value.r <= 0.5))
    ensures Near(EmaWithinOutside, s) <==>
      s.emaDist.Some? && s.emaDist.value.Fin? && -1.0 <= s.emaDist.value.r <= 1.0
  {}

  /** The totals of the samples among the first `n` that are marked `side`. */
  ghost function Side(samples: seq<Sample>, marks: seq<bool>, side: bool, n: nat): Stats
    requires n <= |samples| == |marks|
  {
    if n == 0 then EMPTY
    else if marks[n - 1] == side then Plus(Side(samples, marks, side, n - 1), One(samples[n - 1].pnl))
    else Side(samples, marks, side, n - 1)
  }

  ghost function All(samples: seq<Sample>, n: nat): Stats
    requires n <= |samples|
  {
    if n == 0 then EMPTY else Plus(All(samples, n - 1), One(samples[n - 1].pnl))
  }

  /** Which samples a splitter calls near. */
  ghost predicate Marked(samples: seq<Sample>, splitter: Splitter, marks: seq<bool>) {
    |marks| == |samples| && forall i | 0 <= i < |samples| :: marks[i] == Near(splitter, samples[i])
  }

  method Split(samples: seq<Sample>, splitter: Splitter, ghost marks: seq<bool>) returns (near: Bucket, far: Bucket)
    requires Marked(samples, splitter, marks)
    ensures fresh(near) && fresh(far)
    ensures near.Get() == Side(samples, marks, true, |samples|)
    ensures far.Get() == Side(samples, marks, false, |samples|)
  {
    near := new Bucket();
    far := new Bucket();
    for i := 0 to |samples|
      invariant near != far && fresh(near) && fresh(far)
      invariant near.Get() == Side(samples, marks, true, i) && far.Get() == Side(samples, marks, false, i)
    {
      if Near(splitter, samples[i]) { near.Add(samples[i].pnl); } else { far.Add(samples[i].pnl); }
    }
  }

  datatype LiftStat = LiftStat(fullPF: Float, nearPF: Float, lift: Float, nNear: nat, nFar: nat)

  function Row(near: Stats, far: Stats): LiftStat {
    var full := Plus(near, far);
    LiftStat(Pf(full), Pf(near), Sub(Pf(full), Pf(near)), near.n, far.n)
  }

  method LiftRow(samples: seq<Sample>, splitter: Splitter) returns (row: LiftStat, ghost marks: seq<bool>)
    ensures Marked(samples, splitter, marks)
    ensures row == Row(Side(samples, marks, true, |samples|), Side(samples, marks, false, |samples|))
    ensures row.fullPF == Pf(All(samples, |samples|))
  {
    marks := seq(|samples|, i requires 0 <= i < |samples| => Near(splitter, samples[i]));
    var near, far := Split(samples, splitter, marks);
    SidesAreAll(samples, marks, |samples|);
    AddsIsPlus(near.Get(), far.Get(), All(samples, |samples|));
    row := Row(near.Get(), far.Get());
  }

  /** `c` is `a` and `b` together, total by total. */
  ghost predicate Adds(a: Stats, b: Stats, c: Stats) {
    && a.n + b.n == c.n && a.wins + b.wins == c.wins && a.losses + b.losses == c.losses
    && a.grossWin + b.grossWin == c.grossWin && a.grossLoss + b.grossLoss == c.grossLoss
    && a.total + b.total == c.total
  }

  lemma AddsIsPlus(a: Stats, b: Stats, c: Stats)
    requires Adds(a, b, c)
    ensures Plus(a, b) == c
  {}

  /** However the samples are split, the two sides add up to the bucket of all of them. */
  lemma {:induction false} SidesAreAll(samples: seq<Sample>, marks: seq<bool>, n: nat)
    requires n <= |samples| == |marks|
    ensures Adds(Side(samples, marks, true, n), Side(samples, marks, false, n), All(samples, n))
  {
    if n > 0 { SidesAreAll(samples, marks, n - 1); }
  }

  /** What the totals mean. */
  ghost predicate Sound(s: Stats) {
    s.grossWin >= 0.0 && s.grossLoss >= 0.0 && s.total == s.grossWin - s.grossLoss && s.wins + s.losses <= s.n
    && (s.grossWin == 0.0 <==> s.wins == 0) && (s.grossLoss == 0.0 <==> s.losses == 0)
  }

  lemma {:induction false} SideSound(samples: seq<Sample>, marks: seq<bool>, side: bool, n: nat)
    requires n <= |samples| == |marks|
    ensures Sound(Side(samples, marks, side, n))
  {
    if n > 0 { SideSound(samples, marks, side, n - 1); }
  }

  /** A value of the P&L, summed over the samples among the first `n` that are marked `side`. */
  ghost function SumWhere(samples: seq<Sample>, marks: seq<bool>, side: bool, n: nat, value: real -> real): real
    requires n <= |samples| == |marks|
  {
    if n == 0 then 0.0
    else SumWhere(samples, marks, side, n - 1, value) + if marks[n - 1] == side then value(samples[n - 1].pnl) else 0.0
  }

  ghost function Above(x: real): real {
    if x > 0.0 then x else 0.0
  }

  ghost function IsAbove(x: real): real {
    if x > 0.0 then 1.0 else 0.0
  }

  /** Each total of a side, as a sum over its samples. */
  lemma {:induction false} SideIs(samples: seq<Sample>, marks: seq<bool>, side: bool, n: nat)
    requires n <= |samples| == |marks|
    ensures var s := Side(samples, marks, side, n);
      && s.n as real == SumWhere(samples, marks, side, n, x => 1.0)
      && s.wins as real == SumWhere(samples, marks, side, n, x => IsAbove(x))
      && s.losses as real == SumWhere(samples, marks, side, n, x => IsAbove(-x))
      && s.grossWin == SumWhere(samples, marks, side, n, x => Above(x))
      && s.grossLoss == SumWhere(samples, marks, side, n, x => Above(-x))
      && s.total == SumWhere(samples, marks, side, n, x => x)
  {
    if n > 0 { SideIs(samples, marks, side, n - 1); }
  }

  // ---- The lift ----

  /** `f` is the profit factor of a gross win over a gross loss: infinite if only the loss is zero, zero if both are. */
  ghost predicate IsProfitFactor(f: Float, grossWin: real, grossLoss: real) {
    if grossLoss == 0.0 then f == if grossWin == 0.0 then Fin(0.0) else PosInf
    else f.Fin? && f.r * grossLoss == grossWin
  }

  lemma PfIs(s: Stats)
    requires s.grossLoss >= 0.0
    ensures IsProfitFactor(Pf(s), s.grossWin, s.grossLoss)
  {
    if s.grossLoss != 0.0 { Quotient(s.grossWin, s.grossLoss); }
  }

  /** A row of the report: both profit factors, their difference where it is a number, and the counts. */
  lemma RowIs(near: Stats, far: Stats)
    requires Sound(near) && Sound(far)
    ensures var row := Row(near, far);
      && IsProfitFactor(row.fullPF, near.grossWin + far.grossWin, near.grossLoss + far.grossLoss)
      && IsProfitFactor(row.nearPF, near.grossWin, near.grossLoss)
      && (row.lift.Fin? <==> row.fullPF.Fin? && row.nearPF.Fin?)
      && (row.lift.Fin? ==> row.lift.r == row.fullPF.r - row.nearPF.r)
      && row.nNear == near.n && row.nFar == far.n
  {
    PfIs(near);
    PfIs(Plus(near, far));
  }

  /** `f` is the mediant of `a/b` and `c/d`: it lies on the same side of `a/b` as `c/d` does. */
  lemma Mediant(a: real, b: real, c: real, d: real)
    requires b > 0.0 && d > 0.0
    ensures a / b < (a + c) / (b + d) <==> a / b < c / d
    ensures (a + c) / (b + d) < a / b <==> c / d < a / b
  {
    var p, q, f := a / b, c / d, (a + c) / (b + d);
    Quotient(a, b);
    Quotient(c, d);
    Quotient(a + c, b + d);
    assert (f - p) * (b + d) == (q - p) * d;
    SameSign(f - p, b + d, q - p, d);
  }

  lemma Quotient(x: real, y: real)
    requires y > 0.0
    ensures (x / y) * y == x
  {}

  lemma SameSign(x: real, u: real, y: real, v: real)
    requires u > 0.0 && v > 0.0 && x * u == y * v
    ensures (x > 0.0 <==> y > 0.0) && (x < 0.0 <==> y < 0.0)
  {
    SignOf(x, u);
    SignOf(y, v);
  }

  lemma SignOf(x: real, u: real)
    requires u > 0.0
    ensures (x > 0.0 <==> x * u > 0.0) && (x < 0.0 <==> x * u < 0.0)
  {}

  /** The sign of the lift tells which side has the better profit factor, once the near side has a loss. */
  lemma LiftSign(near: Stats, far: Stats)
    requires Sound(near) && Sound(far) && near.losses > 0 && far.wins + far.losses > 0
    ensures var lift := Row(near, far).lift;
      && lift.Fin?
      && (lift.r > 0.0 <==> Less(Pf(near), Pf(far)))
      && (lift.r < 0.0 <==> Less(Pf(far), Pf(near)))
  {
    if far.losses > 0 {
      Mediant(near.grossWin, near.grossLoss, far.grossWin, far.grossLoss);
    } else {
      Grows(near.grossWin, far.grossWin, near.grossLoss);
    }
  }

  lemma Grows(x: real, y: real, d: real)
    requires y > 0.0 && d > 0.0
    ensures x / d < (x + y) / d
  {
    Quotient(x, d);
    Quotient(x + y, d);
    SignOf((x + y) / d - x / d, d);
  }

  /** The full profit factor lies between those of the two sides. */
  lemma FullBetween(near: Stats, far: Stats)
    requires Sound(near) && Sound(far) && near.losses > 0 && far.losses > 0
    ensures var full := Pf(Plus(near, far));
      || (AtMost(Pf(near), full) && AtMost(full, Pf(far)))
      || (AtMost(Pf(far), full) && AtMost(full, Pf(near)))
  {
    Mediant(near.grossWin, near.grossLoss, far.grossWin, far.grossLoss);
    Mediant(far.grossWin, far.grossLoss, near.grossWin, near.grossLoss);
    assert near.grossWin + far.grossWin == far.grossWin + near.grossWin;
  }

  /** The kind of the lift, in terms of who won and who lost. */
  lemma LiftKind(near: Stats, far: Stats)
    requires Sound(near) && Sound(far)
    ensures var lift := Row(near, far).lift;
      && (lift.NaN? <==> near.wins > 0 && near.losses == 0 && far.losses == 0)
      && (lift.NegInf? <==> near.wins > 0 && near.losses == 0 && far.losses > 0)
      && (lift.PosInf? <==> near.wins == 0 && near.losses == 0 && far.wins > 0 && far.losses == 0)
  {}

  // ---- The decision ----

  datatype Verdict = TooFew | Degenerate | FailLift | FailSigns | Pass

  const THRESHOLD := Fin(0.10)

  function Decide(time: LiftStat, sym: LiftStat, minNNear: int): Verdict {
    if time.nNear < minNNear || sym.nNear < minNNear then TooFew
    else if IsInf(time.lift) || IsInf(sym.lift) then Degenerate
    else if Less(Abs(time.lift), THRESHOLD) || Less(Abs(sym.lift), THRESHOLD) then FailLift
    else if Less(Fin(0.0), time.lift) != Less(Fin(0.0), sym.lift) then FailSigns
    else Pass
  }

  /** The rule the report states: enough samples, both lifts at least 0.10 in size, and their signs agree. */
  ghost predicate Rule(time: LiftStat, sym: LiftStat, minNNear: int) {
    && time.nNear >= minNNear && sym.nNear >= minNNear
    && time.lift.Fin? && sym.lift.Fin?
    && ((time.lift.r >= 0.10 && sym.lift.r >= 0.10) || (time.lift.r <= -0.10 && sym.lift.r <= -0.10))
  }

  /** A NaN lift compares as neither too small nor positive. */
  ghost predicate ReadsNegative(f: Float) {
    f.NaN? || (f.Fin? && f.r <= -0.10)
  }

  /** PASS means the rule, except that a NaN lift passes for a negative one. */
  lemma PassIff(time: LiftStat, sym: LiftStat, minNNear: int)
    ensures Decide(time, sym, minNNear) == Pass <==>
      || Rule(time, sym, minNNear)
      || (time.nNear >= minNNear && sym.nNear >= minNNear && (time.lift.NaN? || sym.lift.NaN?)
          && ReadsNegative(time.lift) && ReadsNegative(sym.lift))
  {}

  /** The lift is below the threshold in size. */
  ghost predicate Small(f: Float) {
    f.Fin? && -0.10 < f.r < 0.10
  }

  /** The lift is more than nothing. */
  ghost predicate Positive(f: Float) {
    f.PosInf? || (f.Fin? && f.r > 0.0)
  }

  /** Which verdict is given when: each only if none before it is. */
  lemma VerdictIff(time: LiftStat, sym: LiftStat, minNNear: int)
    ensures var v := Decide(time, sym, minNNear);
      var few := time.nNear < minNNear || sym.nNear < minNNear;
      var infinite := time.lift.PosInf? || time.lift.NegInf? || sym.lift.PosInf? || sym.lift.NegInf?;
      var small := Small(time.lift) || Small(sym.lift);
      && (v == TooFew <==> few)
      && (v == Degenerate <==> !few && infinite)
      && (v == FailLift <==> !few && !infinite && small)
      && (v == FailSigns <==> !few && !infinite && !small && (Positive(time.lift) <==> !Positive(sym.lift)))
  {}

  /** A holdout in which neither side lost and the near side won. */
  ghost predicate NoLosses(near: Stats, far: Stats) {
    near.wins > 0 && near.losses == 0 && far.losses == 0
  }

  /**
   Over graded samples, the decision follows the rule exactly unless a holdout has no losing
   trade at all, and the other one does not either or its lift is negative.
   */
  lemma DecisionIff(near: Stats, far: Stats, near': Stats, far': Stats, minNNear: int)
    requires Sound(near) && Sound(far) && Sound(near') && Sound(far')
    ensures var (time, sym) := (Row(near, far), Row(near', far'));
      (Decide(time, sym, minNNear) == Pass <==> Rule(time, sym, minNNear)) <==>
        !(near.n >= minNNear && near'.n >= minNNear && (NoLosses(near, far) || NoLosses(near', far'))
          && (NoLosses(near, far) || ReadsNegative(time.lift)) && (NoLosses(near', far') || ReadsNegative(sym.lift)))
  {
    LiftKind(near, far);
    LiftKind(near', far');
    PassIff(Row(near, far), Row(near', far'), minNNear);
  }

  /** One winning near trade in each holdout, and nothing else, passes a floor of one. */
  lemma NaNPasses()
    ensures var row := Row(One(1.0), EMPTY);
      row.lift.NaN? && Decide(row, row, 1) == Pass && !Rule(row, row, 1)
  {}

  lemma DecideSymmetric(time: LiftStat, sym: LiftStat, minNNear: int)
    ensures Decide(time, sym, minNNear) == Decide(sym, time, minNNear)
  {}
}
