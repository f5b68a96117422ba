/**
 The shared SSE connection manager as a state machine over values.  One event is one turn of
 the JavaScript event loop: a component adds or removes a listener, the live EventSource
 opens, fails or delivers a message, or a pending timer fires.  A closed EventSource fires
 nothing (section 9.2 of the WHATWG HTML Living Standard) and a cleared timer never fires.
 */
module EventStream {
  import opened Wrappers

  type EventType = string
  type Listener = nat

  datatype Timer = Close | Reconnect(delay: nat)

  const BACKOFF_SEQUENCE_MS := [1000, 2000, 5000, 10000]

  function Delay(step: nat): nat {
    BACKOFF_SEQUENCE_MS[if step < |BACKOFF_SEQUENCE_MS| then step else |BACKOFF_SEQUENCE_MS| - 1]
  }

  datatype State = State(
    conn: Option<multiset<EventType>>,   // the handlers bound on the live EventSource, by type
    refCount: nat,
    closeTimer: Option<nat>,
    reconnectTimer: Option<nat>,
    backoffStep: nat,
    connected: bool,
    listeners: map<EventType, set<Listener>>,
    bound: set<EventType>,
    views: map<Listener, bool>,          // the connected flag as each subscribed hook last heard it
    pending: map<nat, Timer>,            // the browser's timers, by id
    nextTimer: nat,
    delays: seq<nat>,                    // reconnect delays since the backoff was last reset
    delivered: multiset<(EventType, Listener)>)

  const IDLE := State(None, 0, None, None, 0, false, map[], {}, map[], map[], 0, [], multiset{})

  datatype Event =
    | Add(ty: EventType, fn: Listener)
    | Remove(ty: EventType, fn: Listener)
    | Opened
    | Failed
    | Message(ty: EventType, wellFormed: bool)
    | Fire(id: nat)
    | Subscribe(fn: Listener)
    | Unsubscribe(fn: Listener)

  // ---- The module's functions ----

  ghost function SetConnected(s: State, next: bool): State {
    if s.connected == next then s
    else s.(connected := next, views := map fn | fn in s.views :: next)
  }

  ghost function ClearTimeout(s: State, id: Option<nat>): State {
    if id.Some? then s.(pending := s.pending - {id.value}) else s
  }

  ghost function SetTimeout(s: State, t: Timer): State {
    s.(pending := s.pending[s.nextTimer := t], nextTimer := s.nextTimer + 1)
  }

  ghost function ClearReconnect(s: State): State {
    ClearTimeout(s, s.reconnectTimer).(reconnectTimer := None)
  }

  ghost function ClearClose(s: State): State {
    ClearTimeout(s, s.closeTimer).(closeTimer := None)
  }

  ghost function BindTypes(s: State, tys: set<EventType>): State {
    if s.conn.None? then s
    else s.(conn := Some(s.conn.value + multiset(tys - s.bound)), bound := s.bound + tys)
  }

  ghost function OpenConnection(s: State): State {
    if s.conn.Some? then s
    else BindTypes(ClearReconnect(s).(conn := Some(multiset{})), s.listeners.Keys)
  }

  ghost function CloseConnection(s: State): State {
    SetConnected(ClearReconnect(s).(conn := None, bound := {}, backoffStep := 0, delays := []), false)
  }

  ghost function ScheduleClose(s: State): State {
    var s1 := ClearTimeout(s, s.closeTimer);
    SetTimeout(s1, Close).(closeTimer := Some(s1.nextTimer))
  }

  type Listeners = map<EventType, set<Listener>>

  ghost function WithListener(m: Listeners, ty: EventType, fn: Listener): Listeners {
    m[ty := (if ty in m then m[ty] else {}) + {fn}]
  }

  ghost function Register(s: State, ty: EventType, fn: Listener): State {
    ClearClose(s).(listeners := WithListener(s.listeners, ty, fn), refCount := s.refCount + 1)
  }

  ghost function AddListener(s: State, ty: EventType, fn: Listener): State {
    var s1 := Register(s, ty, fn);
    if s1.conn.None? then OpenConnection(s1) else BindTypes(s1, {ty})
  }

  ghost function WithoutListener(m: Listeners, ty: EventType, fn: Listener): Listeners {
    if ty !in m then m
    else if m[ty] - {fn} == {} then m - {ty}
    else m[ty := m[ty] - {fn}]
  }

  ghost function Deregister(s: State, ty: EventType, fn: Listener): State {
    s.(listeners := WithoutListener(s.listeners, ty, fn), refCount := if s.refCount > 0 then s.refCount - 1 else 0)
  }

  ghost function RemoveListener(s: State, ty: EventType, fn: Listener): State {
    var s1 := Deregister(s, ty, fn);
    if s1.refCount == 0 then ScheduleClose(s1) else s1
  }

  ghost function OnOpen(s: State): State {
    SetConnected(s.(backoffStep := 0, delays := []), true)
  }

  ghost function OnError(s: State): State {
    var s1 := SetConnected(s, false).(conn := None, bound := {});
    if s1.refCount == 0 then s1
    else
      var delay := Delay(s1.backoffStep);
      SetTimeout(s1, Reconnect(delay)).(reconnectTimer := Some(s1.nextTimer),
                                        backoffStep := s1.backoffStep + 1, delays := s1.delays + [delay])
  }

  ghost function CloseFired(s: State): State {
    var s1 := s.(closeTimer := None);
    if s1.refCount == 0 then CloseConnection(s1) else s1
  }

  ghost function ReconnectFired(s: State): State {
    var s1 := s.(reconnectTimer := None);
    if s1.refCount > 0 then OpenConnection(s1) else s1
  }

  ghost function OnTimer(s: State, id: nat): State
    requires id in s.pending
  {
    var s1 := s.(pending := s.pending - {id});
    match s.pending[id]
    case Close => CloseFired(s1)
    case Reconnect(_) => ReconnectFired(s1)
  }

  ghost function Targets(s: State, ty: EventType): multiset<(EventType, Listener)> {
    if ty in s.listeners then multiset(set fn | fn in s.listeners[ty] :: (ty, fn)) else multiset{}
  }

  ghost function Times<T>(n: nat, m: multiset<T>): multiset<T> {
    if n == 0 then multiset{} else Times(n - 1, m) + m
  }

  /** Each handler bound for the type dispatches the message to the type's listeners. */
  ghost function OnMessage(s: State, ty: EventType, wellFormed: bool): State
    requires s.conn.Some?
  {
    if wellFormed then s.(delivered := s.delivered + Times(s.conn.value[ty], Targets(s, ty))) else s
  }

  ghost function Step(s: State, e: Event): State {
    match e
    case Add(ty, fn) => AddListener(s, ty, fn)
    case Remove(ty, fn) => RemoveListener(s, ty, fn)
    case Opened => if s.conn.Some? then OnOpen(s) else s
    case Failed => if s.conn.Some? then OnError(s) else s
    case Message(ty, ok) => if s.conn.Some? then OnMessage(s, ty, ok) else s
    case Fire(id) => if id in s.pending then OnTimer(s, id) else s
    case Subscribe(fn) => s.(views := s.views[fn := s.connected])
    case Unsubscribe(fn) => s.(views := s.views - {fn})
  }

  ghost function Run(es: seq<Event>): State {
    if es == [] then IDLE else Step(Run(es[..|es| - 1]), es[|es| - 1])
  }

  // ---- The joint invariant ----

  /** What the connection, the two timers and the reference count say about each other. */
  ghost predicate Coherent(s: State) {
    && (s.conn.Some? ==> s.reconnectTimer.None?)
    && (s.closeTimer.Some? ==> s.refCount == 0)
    && (s.refCount > 0 ==> s.conn.Some? || s.reconnectTimer.Some?)
    && (s.refCount == 0 && s.closeTimer.None? ==> s.conn.None? && s.reconnectTimer.None?)
    && (s.connected ==> s.conn.Some?)
  }

  ghost predicate IsTimer(s: State, id: nat) {
    s.closeTimer == Some(id) || s.reconnectTimer == Some(id)
  }

  /** The pending timers are the ones the module still names: no timer is ever orphaned. */
  ghost predicate NoOrphanTimer(s: State) {
    && (forall id | id in s.pending :: IsTimer(s, id) && id < s.nextTimer)
    && (s.closeTimer.Some? ==> s.closeTimer.value in s.pending && s.pending[s.closeTimer.value] == Close)
    && (s.reconnectTimer.Some? ==> s.reconnectTimer.value in s.pending && s.pending[s.reconnectTimer.value].Reconnect?)
  }

  /** Each type in `bound` has one handler on the live source, and every type with a listener is bound. */
  ghost predicate BoundOnce(s: State) {
    && (forall ty | ty in s.listeners :: s.listeners[ty] != {})
    && match s.conn
       case None => s.bound == {}
       case Some(handlers) => handlers == multiset(s.bound) && s.listeners.Keys <= s.bound
  }

  ghost predicate BackedOff(s: State) {
    && |s.delays| == s.backoffStep
    && (forall i | 0 <= i < |s.delays| :: s.delays[i] == Delay(i))
    && (s.reconnectTimer.Some? && s.reconnectTimer.value in s.pending ==>
          s.delays != [] && s.pending[s.reconnectTimer.value] == Reconnect(s.delays[|s.delays| - 1]))
  }

  ghost predicate ViewsAgree(s: State) {
    forall fn | fn in s.views :: s.views[fn] == s.connected
  }

  ghost predicate Inv(s: State) {
    Coherent(s) && NoOrphanTimer(s) && BoundOnce(s) && BackedOff(s) && ViewsAgree(s)
  }

  /** Opening is sound from any unconnected state that someone still refers to. */
  lemma OpenConnectionKeepsInv(s: State)
    requires s.conn.None? && s.refCount > 0 && s.closeTimer.None? && !s.connected
    requires NoOrphanTimer(s) && BoundOnce(s) && ViewsAgree(s)
    requires |s.delays| == s.backoffStep && forall i | 0 <= i < |s.delays| :: s.delays[i] == Delay(i)
    ensures Inv(OpenConnection(s))
  {
    NoTimerLeft(s);
    assert multiset{} + multiset(s.listeners.Keys - {}) == multiset({} + s.listeners.Keys);
  }

  lemma NoTimerLeft(s: State)
    requires NoOrphanTimer(s) && s.closeTimer.None?
    ensures ClearReconnect(s).pending == map[]
  {
    assert forall id | id in s.pending :: IsTimer(s, id);
  }

  lemma RegisterKeeps(s: State, ty: EventType, fn: Listener)
    requires Inv(s)
    ensures var s1 := Register(s, ty, fn);
      && NoOrphanTimer(s1) && BackedOff(s1) && ViewsAgree(s1)
      && s1.closeTimer.None? && s1.connected == s.connected && s1.conn == s.conn && s1.bound == s.bound
      && s1.refCount > 0
  {}

  lemma AddKeepsInv(s: State, ty: EventType, fn: Listener)
    requires Inv(s)
    ensures Inv(AddListener(s, ty, fn))
  {
    RegisterKeeps(s, ty, fn);
    if s.conn.None? {
      OpenConnectionKeepsInv(Register(s, ty, fn));
    } else {
      BindKeepsInv(Register(s, ty, fn), ty);
    }
  }

  lemma BindKeepsInv(s: State, ty: EventType)
    requires Coherent(s) && NoOrphanTimer(s) && BackedOff(s) && ViewsAgree(s) && s.conn.Some?
    requires s.conn.value == multiset(s.bound) && s.listeners.Keys <= s.bound + {ty}
    requires forall ty | ty in s.listeners :: s.listeners[ty] != {}
    ensures Inv(BindTypes(s, {ty}))
  {}

  lemma RemoveKeepsInv(s: State, ty: EventType, fn: Listener)
    requires Inv(s)
    ensures Inv(RemoveListener(s, ty, fn))
  {
    var s1 := Deregister(s, ty, fn);
    assert NoOrphanTimer(s1) && BoundOnce(s1) && BackedOff(s1) && ViewsAgree(s1);
    if s1.refCount == 0 { ScheduleCloseKeeps(s1); }
  }

  lemma ScheduleCloseKeeps(s: State)
    requires NoOrphanTimer(s) && BoundOnce(s) && BackedOff(s) && ViewsAgree(s)
    requires s.refCount == 0 && (s.conn.Some? ==> s.reconnectTimer.None?) && (s.connected ==> s.conn.Some?)
    ensures Inv(ScheduleClose(s))
  {}

  lemma OpenedKeepsInv(s: State)
    requires Inv(s) && s.conn.Some?
    ensures Inv(OnOpen(s))
  {}

  lemma FailedKeepsInv(s: State)
    requires Inv(s) && s.conn.Some?
    ensures Inv(OnError(s))
  {}

  lemma CloseFiredKeepsInv(s: State)
    requires Inv(s) && s.closeTimer.Some?
    ensures Inv(OnTimer(s, s.closeTimer.value))
  {}

  lemma ReconnectFiredKeepsInv(s: State)
    requires Inv(s) && s.reconnectTimer.Some?
    ensures Inv(OnTimer(s, s.reconnectTimer.value))
  {
    var s2 := s.(pending := s.pending - {s.reconnectTimer.value}, reconnectTimer := None);
    if s2.refCount > 0 { OpenConnectionKeepsInv(s2); }
  }

  lemma StepKeepsInv(s: State, e: Event)
    requires Inv(s)
    ensures Inv(Step(s, e))
  {
    match e
    case Add(ty, fn) => AddKeepsInv(s, ty, fn);
    case Remove(ty, fn) => RemoveKeepsInv(s, ty, fn);
    case Opened => if s.conn.Some? { OpenedKeepsInv(s); }
    case Failed => if s.conn.Some? { FailedKeepsInv(s); }
    case Fire(id) =>
      if id in s.pending {
        assert IsTimer(s, id);
        if s.closeTimer == Some(id) { CloseFiredKeepsInv(s); } else { ReconnectFiredKeepsInv(s); }
      }
    case _ =>
  }

  /** The invariant holds after any events in any order. */
  lemma {:induction false} Reachable(es: seq<Event>)
    ensures Inv(Run(es))
  {
    if es != [] {
      Reachable(es[..|es| - 1]);
      StepKeepsInv(Run(es[..|es| - 1]), es[|es| - 1]);
    }
  }

  // ---- Theorems ----

  lemma {:induction false} TimesEmpty<T>(n: nat)
    ensures Times<T>(n, multiset{}) == multiset{}
  {
    if n > 0 { TimesEmpty<T>(n - 1); }
  }

  lemma HandlersOnce(s: State, ty: EventType)
    requires BoundOnce(s) && s.conn.Some? && ty in s.listeners
    ensures s.conn.value[ty] == 1
  {}

  lemma TimesOne<T>(m: multiset<T>)
    ensures Times(1, m) == m
  {
    assert Times(1, m) == Times(0, m) + m;
  }

  lemma MessageDelivers(s: State, ty: EventType)
    requires BoundOnce(s) && s.conn.Some?
    ensures Step(s, Message(ty, true)) == s.(delivered := s.delivered + Targets(s, ty))
  {
    if ty in s.listeners {
      HandlersOnce(s, ty);
      TimesOne(Targets(s, ty));
    } else {
      TimesEmpty<(EventType, Listener)>(s.conn.value[ty]);
    }
  }

  lemma TargetsAre(s: State, ty: EventType, p: (EventType, Listener))
    ensures Targets(s, ty)[p] == if p.0 == ty && ty in s.listeners && p.1 in s.listeners[ty] then 1 else 0
  {}

  /**
   After any run, however often types were dropped, re-added or rebound on a new source, one
   well-formed message reaches each listener registered for its type exactly once, and nobody
   else; a malformed one reaches nobody; and neither changes anything more.
   */
  lemma DeliveredExactlyOnce(es: seq<Event>, ty: EventType, p: (EventType, Listener))
    requires Run(es).conn.Some?
    ensures var (s, s') := (Run(es), Step(Run(es), Message(ty, true)));
      && s'.delivered[p] ==
           (if p.0 == ty && ty in s.listeners && p.1 in s.listeners[ty] then s.delivered[p] + 1 else s.delivered[p])
      && s'.(delivered := s.delivered) == s
    ensures Step(Run(es), Message(ty, false)) == Run(es)
  {
    Reachable(es);
    MessageDelivers(Run(es), ty);
    TargetsAre(Run(es), ty, p);
  }

  /** A scheduled reconnect that fires restores the source with every listened type bound. */
  lemma ReconnectRestores(es: seq<Event>)
    requires Run(es).reconnectTimer.Some? && Run(es).refCount > 0
    ensures var s := Run(es);
      var s' := Step(s, Fire(s.reconnectTimer.value));
      s'.conn == Some(multiset(s.listeners.Keys)) && s'.bound == s.listeners.Keys && s'.listeners == s.listeners
  {
    Reachable(es);
    var s := Run(es);
    var s2 := s.(pending := s.pending - {s.reconnectTimer.value}, reconnectTimer := None);
    assert multiset{} + multiset(s2.listeners.Keys - {}) == multiset(s2.listeners.Keys);
  }

  lemma CloseFires(s: State)
    requires Inv(s) && s.closeTimer.Some?
    ensures var s' := Step(s, Fire(s.closeTimer.value));
      && s'.conn.None? && s'.pending == map[] && s'.bound == {} && !s'.connected && s'.backoffStep == 0
      && s'.closeTimer.None? && s'.reconnectTimer.None?
  {
    assert forall id | id in s.pending :: IsTimer(s, id);
  }

  /** A debounced close that fires leaves nothing behind: no source, no timer, no binding. */
  lemma CloseReleases(es: seq<Event>)
    requires Run(es).closeTimer.Some?
    ensures var s' := Step(Run(es), Fire(Run(es).closeTimer.value));
      && s'.conn.None? && s'.pending == map[] && s'.bound == {} && !s'.connected && s'.backoffStep == 0
      && s'.closeTimer.None? && s'.reconnectTimer.None?
  {
    Reachable(es);
    CloseFires(Run(es));
  }

  /** The waits before the first, second and third reconnect, and every later one. */
  ghost predicate IsBackoff(delays: seq<nat>) {
    forall i | 0 <= i < |delays| ::
      delays[i] == if i == 0 then 1000 else if i == 1 then 2000 else if i == 2 then 5000 else 10000
  }

  lemma BackedOffDelays(s: State)
    requires BackedOff(s)
    ensures |s.delays| == s.backoffStep && IsBackoff(s.delays)
    ensures forall i, j | 0 <= i <= j < |s.delays| :: s.delays[i] <= s.delays[j]
  {}

  /** Between two resets of the backoff, delays come from the table in order and never shrink. */
  lemma DelaysNeverShrink(es: seq<Event>)
    ensures var d := Run(es).delays;
      |d| == Run(es).backoffStep && IsBackoff(d) && forall i, j | 0 <= i <= j < |d| :: d[i] <= d[j]
  {
    Reachable(es);
    BackedOffDelays(Run(es));
  }

  // ---- What opening and failing do ----

  /** A source that opens shows as connected everywhere, and the backoff starts over. */
  lemma OpeningConnects(es: seq<Event>)
    requires Run(es).conn.Some?
    ensures var (s, s') := (Run(es), Step(Run(es), Opened));
      && s'.connected && s'.views.Keys == s.views.Keys && (forall fn | fn in s'.views :: s'.views[fn])
      && s'.backoffStep == 0 && s'.delays == []
      && s'.conn == s.conn && s'.bound == s.bound && s'.listeners == s.listeners && s'.refCount == s.refCount
      && s'.pending == s.pending
  {
    Reachable(es);
  }

  /** A source that fails is gone everywhere; a reconnect is scheduled exactly when someone still listens. */
  lemma FailingDisconnects(es: seq<Event>)
    requires Run(es).conn.Some?
    ensures var (s, s') := (Run(es), Step(Run(es), Failed));
      && s'.conn.None? && s'.bound == {} && !s'.connected && (forall fn | fn in s'.views :: !s'.views[fn])
      && s'.listeners == s.listeners && s'.refCount == s.refCount && s'.closeTimer == s.closeTimer
      && (s'.reconnectTimer.Some? <==> s.refCount > 0)
  {
    Reachable(es);
  }

  /** Whatever happens, a source is opened only while someone refers to the connection. */
  lemma OpensOnlyForSomeone(es: seq<Event>, e: Event)
    requires Run(es).conn.None? && Step(Run(es), e).conn.Some?
    ensures Step(Run(es), e).refCount > 0
  {
    Reachable(es);
  }

  /** Whether the current source has opened. */
  ghost predicate SourceOpened(es: seq<Event>) {
    es != [] &&
    var init, e := es[..|es| - 1], es[|es| - 1];
    Run(es).conn.Some? && Run(init).conn.Some? && (e == Opened || SourceOpened(init))
  }

  /** What a step leaves of the connected flag: set by opening, kept while the source lives. */
  lemma ConnectedNext(s: State, e: Event)
    requires Inv(s)
    ensures Step(s, e).connected <==> Step(s, e).conn.Some? && s.conn.Some? && (e == Opened || s.connected)
  {
    StepKeepsInv(s, e);
  }

  /** The dashboard shows a connection exactly while the current source has opened and not failed since. */
  lemma {:induction false} ConnectedIff(es: seq<Event>)
    ensures Run(es).connected <==> SourceOpened(es)
    ensures forall fn | fn in Run(es).views :: Run(es).views[fn] == SourceOpened(es)
  {
    Reachable(es);
    if es != [] {
      var init, e := es[..|es| - 1], es[|es| - 1];
      ConnectedIff(init);
      Reachable(init);
      ConnectedNext(Run(init), e);
    }
  }

  /** How many times in a row the connection has failed under a listener, since it opened or was closed. */
  ghost function Failures(es: seq<Event>): nat {
    if es == [] then 0
    else
      var init, e := es[..|es| - 1], es[|es| - 1];
      var s, before := Run(init), Failures(init);
      match e
      case Opened => if s.conn.Some? then 0 else before
      case Failed => if s.conn.Some? && s.refCount > 0 then before + 1 else before
      case Fire(id) => if s.closeTimer == Some(id) then 0 else before
      case _ => before
  }

  lemma BackoffNext(s: State, e: Event)
    requires Inv(s)
    ensures Step(s, e).backoffStep ==
      match e
      case Opened => if s.conn.Some? then 0 else s.backoffStep
      case Failed => if s.conn.Some? && s.refCount > 0 then s.backoffStep + 1 else s.backoffStep
      case Fire(id) => if s.closeTimer == Some(id) then 0 else s.backoffStep
      case _ => s.backoffStep
  {
    if e.Fire? && e.id in s.pending { assert IsTimer(s, e.id); }
  }

  /** A pending reconnect waits as long as the table says for the failures so far in a row. */
  lemma {:induction false} BackoffIsFailures(es: seq<Event>)
    ensures Run(es).backoffStep == Failures(es)
    ensures var s := Run(es);
      s.reconnectTimer.Some? ==>
        && s.reconnectTimer.value in s.pending && Failures(es) > 0
        && var n := Failures(es);
           s.pending[s.reconnectTimer.value] ==
             Reconnect(if n == 1 then 1000 else if n == 2 then 2000 else if n == 3 then 5000 else 10000)
  {
    Reachable(es);
    BackedOffDelays(Run(es));
    if es != [] {
      var init, e := es[..|es| - 1], es[|es| - 1];
      BackoffIsFailures(init);
      Reachable(init);
      BackoffNext(Run(init), e);
    }
  }

  /** Who watches the flag: whoever has subscribed and not unsubscribed since. */
  ghost predicate Subscribed(es: seq<Event>, fn: Listener) {
    es != [] &&
    var init, e := es[..|es| - 1], es[|es| - 1];
    e == Subscribe(fn) || (e != Unsubscribe(fn) && Subscribed(init, fn))
  }

  lemma FlagKeepsViews(s: State, next: bool)
    ensures SetConnected(s, next).views.Keys == s.views.Keys
  {}

  lemma ClosingKeepsViews(s: State)
    ensures CloseConnection(s).views.Keys == s.views.Keys
  {
    FlagKeepsViews(ClearReconnect(s).(conn := None, bound := {}, backoffStep := 0, delays := []), false);
  }

  lemma OpeningKeepsViews(s: State)
    ensures OpenConnection(s).views == s.views
  {}

  lemma AddKeepsViews(s: State, ty: EventType, fn: Listener)
    ensures AddListener(s, ty, fn).views == s.views
  {
    OpeningKeepsViews(Register(s, ty, fn));
  }

  lemma FailureKeepsViews(s: State)
    ensures OnError(s).views.Keys == s.views.Keys
  {
    FlagKeepsViews(s, false);
  }

  lemma TimerKeepsViews(s: State, id: nat)
    requires id in s.pending
    ensures OnTimer(s, id).views.Keys == s.views.Keys
  {
    var s1 := s.(pending := s.pending - {id});
    match s.pending[id]
    case Close => ClosingKeepsViews(s1.(closeTimer := None));
    case Reconnect(_) => OpeningKeepsViews(s1.(reconnectTimer := None));
  }

  lemma ViewsNext(s: State, e: Event, fn: Listener)
    ensures fn in Step(s, e).views.Keys <==> e == Subscribe(fn) || (e != Unsubscribe(fn) && fn in s.views.Keys)
  {
    match e
    case Add(ty, f) => AddKeepsViews(s, ty, f);
    case Opened => FlagKeepsViews(s.(backoffStep := 0, delays := []), true);
    case Failed => FailureKeepsViews(s);
    case Fire(id) => if id in s.pending { TimerKeepsViews(s, id); }
    case _ =>
  }

  lemma {:induction false} WatchersIff(es: seq<Event>, fn: Listener)
    ensures fn in Run(es).views.Keys <==> Subscribed(es, fn)
  {
    if es != [] {
      WatchersIff(es[..|es| - 1], fn);
      ViewsNext(Run(es[..|es| - 1]), es[|es| - 1], fn);
    }
  }

  // ---- The reference count and the listeners ----

  ghost function Pairs(m: map<EventType, set<Listener>>): set<(EventType, Listener)> {
    set ty, fn | ty in m && fn in m[ty] :: (ty, fn)
  }

  ghost predicate Balanced(s: State) {
    s.refCount == |Pairs(s.listeners)|
  }

  lemma PairsWith(m: map<EventType, set<Listener>>, ty: EventType, fn: Listener)
    ensures Pairs(WithListener(m, ty, fn)) == Pairs(m) + {(ty, fn)}
  {
    var m' := WithListener(m, ty, fn);
    forall p | p in Pairs(m) + {(ty, fn)}
      ensures p in Pairs(m')
    {
      assert p.0 in m' && p.1 in m'[p.0];
    }
  }

  lemma PairsWithout(m: map<EventType, set<Listener>>, ty: EventType, fn: Listener)
    ensures Pairs(WithoutListener(m, ty, fn)) == Pairs(m) - {(ty, fn)}
  {
    var m' := WithoutListener(m, ty, fn);
    forall p | p in Pairs(m) - {(ty, fn)}
      ensures p in Pairs(m')
    {
      assert p.0 in m && p.1 in m[p.0];
      assert p.0 == ty ==> p.1 in m[ty] - {fn};
    }
    forall p | p in Pairs(m')
      ensures p in Pairs(m) - {(ty, fn)}
    {
      assert p.0 in m' && p.1 in m'[p.0];
    }
  }

  lemma AddOnListeners(s: State, ty: EventType, fn: Listener)
    ensures var s' := Step(s, Add(ty, fn));
      s'.listeners == WithListener(s.listeners, ty, fn) && s'.refCount == s.refCount + 1
  {}

  lemma RemoveOnListeners(s: State, ty: EventType, fn: Listener)
    ensures var s' := Step(s, Remove(ty, fn));
      && s'.listeners == WithoutListener(s.listeners, ty, fn)
      && s'.refCount == if s.refCount > 0 then s.refCount - 1 else 0
  {}

  lemma OpenOnListeners(s: State)
    ensures OpenConnection(s).listeners == s.listeners && OpenConnection(s).refCount == s.refCount
  {}

  lemma CloseOnListeners(s: State)
    ensures CloseConnection(s).listeners == s.listeners && CloseConnection(s).refCount == s.refCount
  {}

  lemma TimerOnListeners(s: State, id: nat)
    ensures var s' := Step(s, Fire(id)); s'.listeners == s.listeners && s'.refCount == s.refCount
  {
    if id in s.pending {
      var s1 := s.(pending := s.pending - {id});
      match s.pending[id]
      case Close => CloseOnListeners(s1.(closeTimer := None));
      case Reconnect(_) => OpenOnListeners(s1.(reconnectTimer := None));
    }
  }

  /** No other event touches the listeners or the count. */
  lemma OthersOnListeners(s: State, e: Event)
    requires !e.Add? && !e.Remove?
    ensures var s' := Step(s, e); s'.listeners == s.listeners && s'.refCount == s.refCount
  {
    if e.Fire? { TimerOnListeners(s, e.id); }
  }

  /** The last word on the pair in the run was its adding. */
  ghost predicate LastAdded(es: seq<Event>, ty: EventType, fn: Listener) {
    es != [] &&
    var init, e := es[..|es| - 1], es[|es| - 1];
    e == Add(ty, fn) || (e != Remove(ty, fn) && LastAdded(init, ty, fn))
  }

  /** A listener is registered exactly when it has been added and not removed since. */
  lemma {:induction false} RegisteredIff(es: seq<Event>, ty: EventType, fn: Listener)
    ensures (ty, fn) in Pairs(Run(es).listeners) <==> LastAdded(es, ty, fn)
  {
    if es != [] {
      var init, e := es[..|es| - 1], es[|es| - 1];
      RegisteredIff(init, ty, fn);
      match e
      case Add(t, f) => AddOnListeners(Run(init), t, f); PairsWith(Run(init).listeners, t, f);
      case Remove(t, f) => RemoveOnListeners(Run(init), t, f); PairsWithout(Run(init).listeners, t, f);
      case _ => OthersOnListeners(Run(init), e);
    }
  }

  /** Adding keeps the count equal to the number of registered listeners iff the listener is new. */
  lemma AddBalanceIff(s: State, ty: EventType, fn: Listener)
    requires Balanced(s)
    ensures Balanced(Step(s, Add(ty, fn))) <==> (ty, fn) !in Pairs(s.listeners)
  {
    AddOnListeners(s, ty, fn);
    PairsWith(s.listeners, ty, fn);
  }

  /** Removing keeps it iff the listener was registered, or nothing was left to count. */
  lemma RemoveBalanceIff(s: State, ty: EventType, fn: Listener)
    requires Balanced(s)
    ensures Balanced(Step(s, Remove(ty, fn))) <==> (ty, fn) in Pairs(s.listeners) || s.refCount == 0
  {
    RemoveOnListeners(s, ty, fn);
    PairsWithout(s.listeners, ty, fn);
  }

  /** Every add is of an unregistered listener and every remove of a registered one. */
  ghost predicate Matched(es: seq<Event>) {
    forall k | 0 <= k < |es| ::
      match es[k]
      case Add(ty, fn) => (ty, fn) !in Pairs(Run(es[..k]).listeners)
      case Remove(ty, fn) => (ty, fn) in Pairs(Run(es[..k]).listeners)
      case _ => true
  }

  lemma StepKeepsBalance(s: State, e: Event)
    requires Balanced(s)
    requires match e
      case Add(ty, fn) => (ty, fn) !in Pairs(s.listeners)
      case Remove(ty, fn) => (ty, fn) in Pairs(s.listeners)
      case _ => true
    ensures Balanced(Step(s, e))
  {
    match e
    case Add(ty, fn) => AddBalanceIff(s, ty, fn);
    case Remove(ty, fn) => RemoveBalanceIff(s, ty, fn);
    case _ => OthersOnListeners(s, e);
  }

  lemma {:induction false} MatchedIsBalanced(es: seq<Event>)
    requires Matched(es)
    ensures Balanced(Run(es))
  {
    if es == [] {
      assert Pairs(IDLE.listeners) == {};
    } else {
      var init, e := es[..|es| - 1], es[|es| - 1];
      assert forall k | 0 <= k < |init| :: init[..k] == es[..k] && init[k] == es[k];
      MatchedIsBalanced(init);
      StepKeepsBalance(Run(init), e);
    }
  }

  // ---- Adds and the removes that undo them ----

  /** The adds not yet undone, each as often as it was made. */
  ghost function Outstanding(es: seq<Event>): multiset<(EventType, Listener)> {
    if es == [] then multiset{}
    else
      var before := Outstanding(es[..|es| - 1]);
      match es[|es| - 1]
      case Add(ty, fn) => before + multiset{(ty, fn)}
      case Remove(ty, fn) => before - multiset{(ty, fn)}
      case _ => before
  }

  /** Every remove undoes an outstanding add, as the cleanup of each hook does. */
  ghost predicate Paired(es: seq<Event>) {
    es == [] || (
      var init := es[..|es| - 1];
      Paired(init)
      && match es[|es| - 1]
         case Remove(ty, fn) => (ty, fn) in Outstanding(init)
         case _ => true)
  }

  ghost predicate CountsOutstanding(s: State, out: multiset<(EventType, Listener)>) {
    s.refCount == |out| && forall p | p in Pairs(s.listeners) :: p in out
  }

  lemma StepCountsOutstanding(s: State, e: Event, out: multiset<(EventType, Listener)>)
    requires CountsOutstanding(s, out)
    requires match e
      case Remove(ty, fn) => (ty, fn) in out
      case _ => true
    ensures CountsOutstanding(Step(s, e), match e
      case Add(ty, fn) => out + multiset{(ty, fn)}
      case Remove(ty, fn) => out - multiset{(ty, fn)}
      case _ => out)
  {
    match e
    case Add(ty, fn) =>
      AddOnListeners(s, ty, fn);
      PairsWith(s.listeners, ty, fn);
    case Remove(ty, fn) =>
      RemoveOnListeners(s, ty, fn);
      PairsWithout(s.listeners, ty, fn);
    case _ => OthersOnListeners(s, e);
  }

  /** However often one listener is added, the count is that of the adds not yet undone. */
  lemma {:induction false} RefCountIsOutstanding(es: seq<Event>)
    requires Paired(es)
    ensures CountsOutstanding(Run(es), Outstanding(es))
  {
    if es == [] {
      assert Pairs(IDLE.listeners) == {};
    } else {
      var init, e := es[..|es| - 1], es[|es| - 1];
      RefCountIsOutstanding(init);
      StepCountsOutstanding(Run(init), e, Outstanding(init));
    }
  }

  /**
   While every remove undoes an add, a registered listener always has a connection or a reconnect
   under way and no close pending; and with nothing outstanding and the close timer gone there is
   neither connection nor timer.
   */
  lemma PairedRunsServeListeners(es: seq<Event>)
    requires Paired(es)
    ensures var s := Run(es);
      && s.refCount == |Outstanding(es)|
      && (forall p | p in Pairs(s.listeners) :: p in Outstanding(es))
      && (Pairs(s.listeners) != {} ==> s.closeTimer.None? && (s.conn.Some? || s.reconnectTimer.Some?))
      && (|Outstanding(es)| == 0 && s.closeTimer.None? ==> s.conn.None? && s.pending == map[])
  {
    Reachable(es);
    RefCountIsOutstanding(es);
    var s := Run(es);
    if p :| p in Pairs(s.listeners) {
      OneCounts(Outstanding(es), p);
    }
    assert forall id | id in s.pending :: IsTimer(s, id);
  }

  lemma OneCounts<T>(m: multiset<T>, x: T)
    requires x in m
    ensures |m| > 0
  {}

  lemma RunSnoc(es: seq<Event>, e: Event)
    ensures Run(es + [e]) == Step(Run(es), e)
    ensures Paired(es) && !e.Remove? ==> Paired(es + [e])
  {
    assert (es + [e])[..|es|] == es;
  }

  /** The imbalance a hook can cause: a type listed twice adds its listener twice, and counts it twice. */
  lemma DoubledAdd(es: seq<Event>, ty: EventType, fn: Listener)
    requires Paired(es) && (ty, fn) in Pairs(Run(es).listeners)
    ensures Paired(es + [Add(ty, fn)])
    ensures var s := Run(es + [Add(ty, fn)]);
      s.refCount == Run(es).refCount + 1 && Pairs(s.listeners) == Pairs(Run(es).listeners)
  {
    RunSnoc(es, Add(ty, fn));
    AddOnListeners(Run(es), ty, fn);
    PairsWith(Run(es).listeners, ty, fn);
  }

  /**
   With matched adds and removes, the count is the number of registered listeners; so a listener
   always has a connection or a reconnect under way, and with none left and the close timer gone
   there is neither.
   */
  lemma MatchedRunsServeListeners(es: seq<Event>)
    requires Matched(es)
    ensures var s := Run(es);
      && s.refCount == |Pairs(s.listeners)|
      && (Pairs(s.listeners) != {} ==> s.closeTimer.None? && (s.conn.Some? || s.reconnectTimer.Some?))
      && (Pairs(s.listeners) == {} && s.closeTimer.None? ==> s.conn.None? && s.pending == map[])
  {
    Reachable(es);
    MatchedIsBalanced(es);
    var s := Run(es);
    assert forall id | id in s.pending :: IsTimer(s, id);
  }

  lemma LastRemove(s: State, ty: EventType, fn: Listener)
    requires s.refCount == 1 && (ty, fn) !in Pairs(s.listeners)
    ensures var s1 := Step(s, Remove(ty, fn)); s1.closeTimer.Some? && Pairs(s1.listeners) == Pairs(s.listeners)
  {
    PairsWithout(s.listeners, ty, fn);
  }

  /**
   Why removes must undo adds: with a single add outstanding, one that does not brings the
   count to 0 and the debounced close then drops the source the listener still needs.
   */
  lemma UnmatchedRemoveStarves(es: seq<Event>, ty: EventType, fn: Listener)
    requires Run(es).refCount == 1 && (ty, fn) !in Pairs(Run(es).listeners)
    ensures var s1 := Step(Run(es), Remove(ty, fn));
      && s1.closeTimer.Some?
      && var s2 := Step(s1, Fire(s1.closeTimer.value));
      Pairs(s2.listeners) == Pairs(Run(es).listeners) && s2.conn.None? && s2.pending == map[]
  {
    Reachable(es);
    StepKeepsInv(Run(es), Remove(ty, fn));
    LastRemove(Run(es), ty, fn);
    var s1 := Step(Run(es), Remove(ty, fn));
    CloseFires(s1);
    OthersOnListeners(s1, Fire(s1.closeTimer.value));
  }
}
