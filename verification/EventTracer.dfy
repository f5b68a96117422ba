/**
 The lock-free event counter of the replay, as a state machine over its atomic steps.
 A call of Handle takes a sequence number, loads the counter of its event type and bumps
 it; on a miss it offers a private counter, already at 1, and bumps the winner's when it
 loses the race.  A run is any list of moves, so every interleaving is one.
 */
module EventTracer {
  /** Where a call stands between two atomic steps; a counter is an index into `cells`. */
  datatype Pc =
    | Entered
    | Numbered(seqNo: nat)
    | Missed(seqNo: nat, own: nat)
    | Found(seqNo: nat, cell: nat)
    | Done(seqNo: nat)

  datatype Call = Call(ty: string, pc: Pc)

  datatype State = State(seqNo: nat, count: map<string, nat>, cells: seq<nat>, calls: seq<Call>) {
    function At(i: nat, pc: Pc): State
      requires i < |calls|
    {
      this.(calls := calls[i := Call(calls[i].ty, pc)])
    }
  }

  datatype Move = Arrive(ty: string) | Go(i: nat)

  const FRESH := State(0, map[], [], [])

  /** Add(1) on a counter; a call only ever holds one that exists, as the invariant below shows. */
  function Bump(cells: seq<nat>, cell: nat): seq<nat> {
    if cell < |cells| then cells[cell := cells[cell] + 1] else cells
  }

  /** One atomic step of call `i`. */
  function Step(s: State, i: nat): State
    requires i < |s.calls|
  {
    var Call(ty, pc) := s.calls[i];
    match pc
    case Entered =>
      s.(seqNo := s.seqNo + 1).At(i, Numbered(s.seqNo + 1))
    case Numbered(n) =>
      if ty in s.count then s.At(i, Found(n, s.count[ty]))
      else s.(cells := s.cells + [1]).At(i, Missed(n, |s.cells|))
    case Missed(n, own) =>
      if ty in s.count then s.At(i, Found(n, s.count[ty]))
      else s.(count := s.count[ty := own]).At(i, Done(n))
    case Found(n, cell) =>
      s.(cells := Bump(s.cells, cell)).At(i, Done(n))
    case Done(_) => s
  }

  function Apply(s: State, m: Move): State
  {
    match m
    case Arrive(ty) => s.(calls := s.calls + [Call(ty, Entered)])
    case Go(i) => if i < |s.calls| then Step(s, i) else s
  }

  function Exec(s: State, ms: seq<Move>): State
  {
    if ms == [] then s else Apply(Exec(s, ms[..|ms| - 1]), ms[|ms| - 1])
  }

  /** What Counts() reports. */
  function Counts(s: State): map<string, nat> {
    Report(s.count, s.cells)
  }

  function Report(count: map<string, nat>, cells: seq<nat>): map<string, nat> {
    map k | k in count && count[k] < |cells| :: cells[count[k]]
  }

  // ---- Counting calls ----

  /** The calls among the first `n` that satisfy `p`. */
  ghost function CountOf(calls: seq<Call>, p: Call -> bool, n: nat): nat
    requires n <= |calls|
  {
    if n == 0 then 0 else CountOf(calls, p, n - 1) + if p(calls[n - 1]) then 1 else 0
  }

  ghost function Count(s: State, p: Call -> bool): nat {
    CountOf(s.calls, p, |s.calls|)
  }

  ghost function FinishedOf(ty: string): Call -> bool {
    (c: Call) => c.pc.Done? && c.ty == ty
  }

  ghost function OfType(ty: string): Call -> bool {
    (c: Call) => c.ty == ty
  }

  ghost function WithNumber(x: nat): Call -> bool {
    (c: Call) => !c.pc.Entered? && c.pc.seqNo == x
  }

  ghost const FINISHED: Call -> bool := (c: Call) => c.pc.Done?
  ghost const NUMBERED: Call -> bool := (c: Call) => !c.pc.Entered?

  /** Changing call `i` changes a count by that call alone. */
  lemma {:induction false} ReplaceCall(calls: seq<Call>, calls': seq<Call>, p: Call -> bool, i: nat, n: nat)
    requires i < |calls| == |calls'| && n <= |calls|
    requires forall j | 0 <= j < |calls| && j != i :: calls'[j] == calls[j]
    ensures CountOf(calls', p, n) == CountOf(calls, p, n)
      + if i < n then (if p(calls'[i]) then 1 else 0) - (if p(calls[i]) then 1 else 0) else 0
  {
    if n > 0 { ReplaceCall(calls, calls', p, i, n - 1); }
  }

  lemma {:induction false} AppendCall(calls: seq<Call>, c: Call, p: Call -> bool, n: nat)
    requires n <= |calls|
    ensures CountOf(calls + [c], p, n) == CountOf(calls, p, n)
  {
    if n > 0 { AppendCall(calls, c, p, n - 1); }
  }

  lemma {:induction false} CountedOnce(calls: seq<Call>, p: Call -> bool, i: nat, n: nat)
    requires i < n <= |calls| && p(calls[i])
    ensures CountOf(calls, p, n) >= 1
  {
    if i < n - 1 { CountedOnce(calls, p, i, n - 1); }
  }

  lemma {:induction false} CountedTwice(calls: seq<Call>, p: Call -> bool, i: nat, j: nat, n: nat)
    requires i < j < n <= |calls| && p(calls[i]) && p(calls[j])
    ensures CountOf(calls, p, n) >= 2
  {
    if j < n - 1 {
      CountedTwice(calls, p, i, j, n - 1);
    } else {
      CountedOnce(calls, p, i, n - 1);
    }
  }

  // ---- The invariant ----

  ghost predicate Owns(c: Call, cell: nat) {
    c.pc.Missed? && c.pc.own == cell
  }

  /** A type has a published counter, its own, once a call of it has finished; it holds how many have. */
  ghost predicate Tallied(s: State) {
    && (forall k | k in s.count :: s.count[k] < |s.cells| && s.cells[s.count[k]] == Count(s, FinishedOf(k)))
    && (forall k :: k in s.count <==> Count(s, FinishedOf(k)) > 0)
    && (forall k, k' | k in s.count && k' in s.count && s.count[k] == s.count[k'] :: k == k')
  }

  /** An unpublished counter is private to one call, and still at 1. */
  ghost predicate Private(s: State) {
    forall i | 0 <= i < |s.calls| && s.calls[i].pc.Missed? ::
      var own := s.calls[i].pc.own;
      && own < |s.cells| && s.cells[own] == 1
      && (forall k | k in s.count :: s.count[k] != own)
      && (forall j | 0 <= j < |s.calls| && Owns(s.calls[j], own) :: j == i)
  }

  /** A call about to bump holds the published counter of its type. */
  ghost predicate Held(s: State) {
    forall i | 0 <= i < |s.calls| && s.calls[i].pc.Found? ::
      s.calls[i].ty in s.count && s.count[s.calls[i].ty] == s.calls[i].pc.cell
  }

  /** The numbers handed out are 1, 2, ..., seqNo, once each. */
  ghost predicate Sequenced(s: State) {
    && (forall x: nat :: Count(s, WithNumber(x)) == if 1 <= x <= s.seqNo then 1 else 0)
    && Count(s, NUMBERED) == s.seqNo
  }

  ghost predicate Inv(s: State) {
    Tallied(s) && Private(s) && Held(s) && Sequenced(s)
  }

  lemma StepCounts(s: State, i: nat, p: Call -> bool)
    requires i < |s.calls|
    ensures var (c, c') := (s.calls[i], Step(s, i).calls[i]);
      Count(Step(s, i), p) == Count(s, p) + (if p(c') then 1 else 0) - if p(c) then 1 else 0
  {
    ReplaceCall(s.calls, Step(s, i).calls, p, i, |s.calls|);
  }

  lemma StepKeepsSequence(s: State, i: nat)
    requires i < |s.calls| && Sequenced(s)
    ensures Sequenced(Step(s, i))
  {
    StepCounts(s, i, NUMBERED);
    forall x: nat
      ensures Count(Step(s, i), WithNumber(x)) == if 1 <= x <= Step(s, i).seqNo then 1 else 0
    {
      StepCounts(s, i, WithNumber(x));
    }
  }

  lemma StepTallies(s: State, i: nat, k: string)
    requires Inv(s) && i < |s.calls|
    ensures var s' := Step(s, i);
      && (k in s'.count <==> Count(s', FinishedOf(k)) > 0)
      && (k in s'.count ==> s'.count[k] < |s'.cells| && s'.cells[s'.count[k]] == Count(s', FinishedOf(k)))
  {
    StepCounts(s, i, FinishedOf(k));
    match s.calls[i].pc
    case Found(n, cell) => assert s.count[s.calls[i].ty] == cell;
    case _ =>
  }

  lemma StepKeepsTally(s: State, i: nat)
    requires Inv(s) && i < |s.calls|
    ensures Tallied(Step(s, i))
  {
    forall k
      ensures var s' := Step(s, i);
        && (k in s'.count <==> Count(s', FinishedOf(k)) > 0)
        && (k in s'.count ==> s'.count[k] < |s'.cells| && s'.cells[s'.count[k]] == Count(s', FinishedOf(k)))
    {
      StepTallies(s, i, k);
    }
  }

  /** The step of call `i` is its last. */
  ghost predicate Finishes(s: State, i: nat)
    requires i < |s.calls|
  {
    !s.calls[i].pc.Done? && Step(s, i).calls[i].pc.Done?
  }

  lemma StepKeepsPrivacy(s: State, i: nat)
    requires Inv(s) && i < |s.calls|
    ensures Private(Step(s, i))
  {
    var s' := Step(s, i);
    forall j | 0 <= j < |s'.calls| && s'.calls[j].pc.Missed?
      ensures var own := s'.calls[j].pc.own;
        && own < |s'.cells| && s'.cells[own] == 1
        && (forall k | k in s'.count :: s'.count[k] != own)
        && (forall l | 0 <= l < |s'.calls| && Owns(s'.calls[l], own) :: l == j)
    {
      if j != i {
        assert s'.calls[j] == s.calls[j] && Owns(s.calls[j], s.calls[j].pc.own);
      }
    }
  }

  lemma StepKeepsHeld(s: State, i: nat)
    requires Inv(s) && i < |s.calls|
    ensures Held(Step(s, i))
  {
    var s' := Step(s, i);
    forall j | 0 <= j < |s'.calls| && s'.calls[j].pc.Found?
      ensures s'.calls[j].ty in s'.count && s'.count[s'.calls[j].ty] == s'.calls[j].pc.cell
    {
      if j != i { assert s'.calls[j] == s.calls[j]; }
    }
  }

  lemma StepKeepsInv(s: State, i: nat)
    requires Inv(s) && i < |s.calls|
    ensures Inv(Step(s, i))
  {
    StepKeepsTally(s, i);
    StepKeepsPrivacy(s, i);
    StepKeepsHeld(s, i);
    StepKeepsSequence(s, i);
  }

  lemma ArriveKeepsInv(s: State, ty: string)
    requires Inv(s)
    ensures Inv(Apply(s, Arrive(ty)))
  {
    var s', c := Apply(s, Arrive(ty)), Call(ty, Entered);
    forall p: Call -> bool
      ensures Count(s', p) == Count(s, p) + if p(c) then 1 else 0
    {
      AppendCall(s.calls, c, p, |s.calls|);
    }
    assert forall k :: Count(s', FinishedOf(k)) == Count(s, FinishedOf(k));
    assert forall x: nat :: Count(s', WithNumber(x)) == Count(s, WithNumber(x));
    assert Tallied(s');
  }

  lemma {:induction false} Reachable(ms: seq<Move>)
    ensures Inv(Exec(FRESH, ms))
  {
    if ms != [] {
      Reachable(ms[..|ms| - 1]);
      var s, m := Exec(FRESH, ms[..|ms| - 1]), ms[|ms| - 1];
      match m
      case Arrive(ty) => ArriveKeepsInv(s, ty);
      case Go(i) => if i < |s.calls| { StepKeepsInv(s, i); }
    }
  }

  // ---- Theorems ----

  ghost function Sum(m: map<string, nat>): nat
  {
    if m == map[] then 0
    else
      var k :| k in m;
      m[k] + Sum(m - {k})
  }

  lemma {:induction false} SumOfMultiplicities(m: map<string, nat>, ms: multiset<string>)
    requires forall k | k in m :: m[k] == ms[k]
    requires forall k | k in ms :: k in m
    ensures Sum(m) == |ms|
  {
    if m == map[] {
      assert ms == multiset{};
    } else {
      var k :| k in m && Sum(m) == m[k] + Sum(m - {k});
      SumOfMultiplicities(m - {k}, ms[k := 0]);
    }
  }

  ghost function DoneTypes(calls: seq<Call>, n: nat): (ms: multiset<string>)
    requires n <= |calls|
    ensures |ms| == CountOf(calls, FINISHED, n)
  {
    if n == 0 then multiset{}
    else DoneTypes(calls, n - 1) + if calls[n - 1].pc.Done? then multiset{calls[n - 1].ty} else multiset{}
  }

  lemma {:induction false} DoneTypesCount(calls: seq<Call>, k: string, n: nat)
    requires n <= |calls|
    ensures DoneTypes(calls, n)[k] == CountOf(calls, FinishedOf(k), n)
  {
    if n > 0 { DoneTypesCount(calls, k, n - 1); }
  }

  /**
   At every moment of every run the published counters are exactly the finished calls, counted by
   type, and they add up to their number.
   */
  lemma CountsAreFinishedCalls(ms: seq<Move>)
    ensures var s := Exec(FRESH, ms);
      && (forall k :: k in Counts(s) <==> Count(s, FinishedOf(k)) > 0)
      && (forall k | k in Counts(s) :: Counts(s)[k] == Count(s, FinishedOf(k)))
      && Sum(Counts(s)) == Count(s, FINISHED)
  {
    Reachable(ms);
    var s := Exec(FRESH, ms);
    var done := DoneTypes(s.calls, |s.calls|);
    forall k
      ensures done[k] == Count(s, FinishedOf(k))
    {
      DoneTypesCount(s.calls, k, |s.calls|);
    }
    SumOfMultiplicities(Counts(s), done);
  }

  /** Each step is invisible in the counters or counts one call, once: the race to create a key loses nothing. */
  lemma StepRefinesIncrement(ms: seq<Move>, i: nat)
    requires i < |Exec(FRESH, ms).calls|
    ensures var s := Exec(FRESH, ms);
      var (before, after, ty) := (Counts(s), Counts(Step(s, i)), s.calls[i].ty);
      after == if Finishes(s, i) then before[ty := if ty in before then before[ty] + 1 else 1] else before
  {
    Reachable(ms);
    IncrementFromInv(Exec(FRESH, ms), i);
  }

  ghost predicate OwnCells(count: map<string, nat>, cells: seq<nat>) {
    && (forall k | k in count :: count[k] < |cells|)
    && (forall k, k' | k in count && k' in count && count[k] == count[k'] :: k == k')
  }

  lemma ReportBump(count: map<string, nat>, cells: seq<nat>, ty: string)
    requires OwnCells(count, cells) && ty in count
    ensures Report(count, Bump(cells, count[ty])) == Report(count, cells)[ty := cells[count[ty]] + 1]
  {}

  lemma ReportPublish(count: map<string, nat>, cells: seq<nat>, ty: string, own: nat)
    requires OwnCells(count, cells) && ty !in count && own < |cells|
    ensures Report(count[ty := own], cells) == Report(count, cells)[ty := cells[own]]
  {}

  lemma ReportAllocate(count: map<string, nat>, cells: seq<nat>)
    requires OwnCells(count, cells)
    ensures Report(count, cells + [1]) == Report(count, cells)
  {}

  lemma IncrementFromInv(s: State, i: nat)
    requires Tallied(s) && Private(s) && Held(s) && i < |s.calls|
    ensures var (before, after, ty) := (Counts(s), Counts(Step(s, i)), s.calls[i].ty);
      after == if Finishes(s, i) then before[ty := if ty in before then before[ty] + 1 else 1] else before
  {
    var ty := s.calls[i].ty;
    match s.calls[i].pc
    case Found(n, cell) => ReportBump(s.count, s.cells, ty);
    case Missed(_, own) => if ty !in s.count { ReportPublish(s.count, s.cells, ty, own); }
    case Numbered(_) => ReportAllocate(s.count, s.cells);
    case _ =>
  }

  /** No two calls ever hold the same sequence number, and each lies in 1..seqNo. */
  lemma SequenceNumbersDistinct(ms: seq<Move>, i: nat, j: nat)
    requires i < j < |Exec(FRESH, ms).calls|
    requires !Exec(FRESH, ms).calls[i].pc.Entered? && !Exec(FRESH, ms).calls[j].pc.Entered?
    ensures var s := Exec(FRESH, ms);
      && s.calls[i].pc.seqNo != s.calls[j].pc.seqNo
      && 1 <= s.calls[i].pc.seqNo <= s.seqNo
  {
    Reachable(ms);
    var s := Exec(FRESH, ms);
    var p := WithNumber(s.calls[i].pc.seqNo);
    CountedOnce(s.calls, p, i, |s.calls|);
    if s.calls[i].pc.seqNo == s.calls[j].pc.seqNo {
      CountedTwice(s.calls, p, i, j, |s.calls|);
    }
  }

  lemma {:induction false} CountEveryCall(calls: seq<Call>, p: Call -> bool, q: Call -> bool, n: nat)
    requires n <= |calls| && forall c | c in calls :: p(c) <==> q(c)
    ensures CountOf(calls, p, n) == CountOf(calls, q, n)
    ensures (forall c | c in calls :: p(c)) ==> CountOf(calls, p, n) == n
  {
    if n > 0 { CountEveryCall(calls, p, q, n - 1); }
  }

  /**
   Once every call has finished, whatever the interleaving: each type's counter is the number of
   calls with that type, and the counters sum to `seq`, the number of calls.
   */
  lemma QuiescentCounts(ms: seq<Move>)
    requires forall c | c in Exec(FRESH, ms).calls :: c.pc.Done?
    ensures var s := Exec(FRESH, ms);
      && (forall k :: k in Counts(s) <==> Count(s, OfType(k)) > 0)
      && (forall k | k in Counts(s) :: Counts(s)[k] == Count(s, OfType(k)))
      && Sum(Counts(s)) == s.seqNo == |s.calls|
  {
    var s := Exec(FRESH, ms);
    Reachable(ms);
    CountsAreFinishedCalls(ms);
    forall k
      ensures Count(s, FinishedOf(k)) == Count(s, OfType(k))
    {
      CountEveryCall(s.calls, FinishedOf(k), OfType(k), |s.calls|);
    }
    CountEveryCall(s.calls, FINISHED, NUMBERED, |s.calls|);
    CountEveryCall(s.calls, NUMBERED, FINISHED, |s.calls|);
  }
}
