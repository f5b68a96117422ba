/**
 The SSE module as written: module-level variables changed in place, EventSource objects
 and browser timers.  Every function is proved to move the abstract state as the state
 machine of EventStream does, so the theorems there hold of it; and no EventSource but the
 current one is ever left open.
 */
module EventStreamManager {
  import opened Wrappers
  import opened EventStream

  class EventSource {
    var open: bool
    var handlers: multiset<EventType>

    constructor ()
      ensures open && handlers == multiset{}
    {
      open, handlers := true, multiset{};
    }

    method AddEventListener(ty: EventType)
      modifies this
      ensures open == old(open) && handlers == old(handlers) + multiset{ty}
    {
      handlers := handlers + multiset{ty};
    }

    method CloseSource()
      modifies this
      ensures !open
    {
      open := false;
    }
  }

  /** The browser's timers. */
  class Timers {
    var pending: map<nat, Timer>
    var next: nat

    constructor ()
      ensures pending == map[] && next == 0
    {
      pending, next := map[], 0;
    }

    method Set(t: Timer) returns (id: nat)
      modifies this
      ensures id == old(next) && next == old(next) + 1 && pending == old(pending)[id := t]
    {
      id := next;
      pending, next := pending[id := t], next + 1;
    }

    method Clear(id: Option<nat>)
      modifies this
      ensures next == old(next)
      ensures pending == if id.Some? then old(pending) - {id.value} else old(pending)
    {
      if id.Some? { pending := pending - {id.value}; }
    }
  }

  class Manager {
    const timers: Timers
    var es: EventSource?
    var refCount: nat
    var closeTimer: Option<nat>
    var reconnectTimer: Option<nat>
    var backoffStep: nat
    var connected: bool
    var listeners: map<EventType, set<Listener>>
    var bound: set<EventType>
    var views: map<Listener, bool>
    var delivered: multiset<(EventType, Listener)>
    ghost var delays: seq<nat>
    ghost var sources: set<EventSource>   // every EventSource ever opened

    /** The only open source is the current one. */
    ghost predicate Valid()
      reads this, sources
    {
      && (es != null ==> es in sources && es.open)
      && forall e | e in sources && e != es :: !e.open
    }

    ghost function Abs(): State
      reads this, timers, es
    {
      State(if es == null then None else Some(es.handlers), refCount, closeTimer, reconnectTimer,
            backoffStep, connected, listeners, bound, views, timers.pending, timers.next, delays, delivered)
    }

    constructor ()
      ensures Valid() && Abs() == IDLE && fresh(timers) && sources == {}
    {
      timers := new Timers();
      es, refCount, closeTimer, reconnectTimer, backoffStep, connected := null, 0, None, None, 0, false;
      listeners, bound, views, delivered := map[], {}, map[], multiset{};
      delays, sources := [], {};
    }

    method SetConnected(next: bool)
      requires Valid()
      modifies this
      ensures Valid() && Abs() == EventStream.SetConnected(old(Abs()), next)
      ensures es == old(es) && sources == old(sources)
    {
      if connected == next { return; }
      connected := next;
      var todo := views.Keys;
      while todo != {}
        invariant todo <= views.Keys == old(views.Keys)
        invariant forall fn | fn in views && fn !in todo :: views[fn] == next
        invariant Abs() == old(Abs()).(connected := next, views := views)
        invariant es == old(es) && sources == old(sources)
        decreases todo
      {
        var fn :| fn in todo;
        todo := todo - {fn};
        views := views[fn := next];
      }
    }

    method BindType(ty: EventType)
      requires Valid()
      modifies this, es
      ensures Valid() && Abs() == EventStream.BindTypes(old(Abs()), {ty})
      ensures es == old(es) && sources == old(sources)
    {
      if es == null || ty in bound {
        if es != null { BindNothing(Abs(), {ty}); }
        return;
      }
      es.AddEventListener(ty);
      bound := bound + {ty};
      assert {ty} - old(bound) == {ty} && multiset({ty}) == multiset{ty};
    }

    method ClearReconnect()
      requires Valid()
      modifies this, timers
      ensures Valid() && Abs() == EventStream.ClearReconnect(old(Abs()))
      ensures es == old(es) && sources == old(sources)
    {
      if reconnectTimer.Some? {
        timers.Clear(reconnectTimer);
        reconnectTimer := None;
      }
    }

    method OpenConnection()
      requires Valid()
      modifies this, timers
      ensures Valid() && Abs() == EventStream.OpenConnection(old(Abs()))
      ensures old(es) != null ==> es == old(es)
      ensures fresh(sources - old(sources))
    {
      if es != null { return; }
      ClearReconnect();
      NewSource();
      BindAllTypes();
    }

    method NewSource()
      requires Valid() && es == null
      modifies this
      ensures Valid() && Abs() == old(Abs()).(conn := Some(multiset{}))
      ensures fresh(es) && sources == old(sources) + {es}
    {
      es := new EventSource();
      sources := sources + {es};
    }

    method BindAllTypes()
      requires Valid() && es != null
      modifies this, es
      ensures Valid() && Abs() == EventStream.BindTypes(old(Abs()), old(listeners.Keys))
      ensures es == old(es) && sources == old(sources)
    {
      var todo := listeners.Keys;
      BindNone(Abs(), todo);
      while todo != {}
        invariant es == old(es) && sources == old(sources) && Valid()
        invariant todo <= listeners.Keys == old(listeners.Keys)
        invariant Abs() == BindTypes(old(Abs()), listeners.Keys - todo)
        decreases todo
      {
        var ty :| ty in todo;
        BindNext(old(Abs()), listeners.Keys, todo, ty);
        BindType(ty);
        todo := todo - {ty};
      }
      assert listeners.Keys - todo == listeners.Keys;
    }

    method DropSource()
      requires Valid()
      modifies `es, es
      ensures Valid() && es == null && sources == old(sources)
      ensures Abs() == old(Abs()).(conn := None)
    {
      if es != null {
        es.CloseSource();
        es := null;
      }
    }

    method CloseConnection()
      requires Valid()
      modifies this, timers, es
      ensures Valid() && Abs() == EventStream.CloseConnection(old(Abs()))
      ensures sources == old(sources)
    {
      ClearReconnect();
      DropSource();
      bound, backoffStep, delays := {}, 0, [];
      assert Abs() ==
        EventStream.ClearReconnect(old(Abs())).(conn := None, bound := {}, backoffStep := 0, delays := []);
      SetConnected(false);
    }

    method ScheduleClose()
      requires Valid()
      modifies this, timers
      ensures Valid() && Abs() == EventStream.ScheduleClose(old(Abs()))
      ensures es == old(es) && sources == old(sources)
    {
      if closeTimer.Some? { timers.Clear(closeTimer); }
      var id := timers.Set(Close);
      closeTimer := Some(id);
    }

    /** The first half of addListener(): a pending close is called off and the listener counted. */
    method Register(ty: EventType, fn: Listener)
      requires Valid()
      modifies this, timers
      ensures Valid() && Abs() == EventStream.Register(old(Abs()), ty, fn)
      ensures es == old(es) && sources == old(sources)
    {
      if closeTimer.Some? {
        timers.Clear(closeTimer);
        closeTimer := None;
      }
      var fns := if ty in listeners then listeners[ty] else {};
      listeners := listeners[ty := fns + {fn}];
      refCount := refCount + 1;
    }

    method AddListener(ty: EventType, fn: Listener)
      requires Valid()
      modifies this, timers, es
      ensures Valid() && Abs() == EventStream.AddListener(old(Abs()), ty, fn)
      ensures fresh(sources - old(sources))
    {
      Register(ty, fn);
      if es == null { OpenConnection(); } else { BindType(ty); }
    }

    method RemoveListener(ty: EventType, fn: Listener)
      requires Valid()
      modifies this, timers
      ensures Valid() && Abs() == EventStream.RemoveListener(old(Abs()), ty, fn)
      ensures es == old(es) && sources == old(sources)
    {
      if ty in listeners {
        var fns := listeners[ty] - {fn};
        listeners := listeners[ty := fns];
        if fns == {} { listeners := listeners - {ty}; }
      }
      assert listeners == WithoutListener(old(listeners), ty, fn);
      refCount := if refCount > 0 then refCount - 1 else 0;
      if refCount == 0 { ScheduleClose(); }
    }

    method OnOpen()
      requires Valid() && es != null
      modifies this
      ensures Valid() && Abs() == EventStream.OnOpen(old(Abs()))
      ensures es == old(es) && sources == old(sources)
    {
      backoffStep, delays := 0, [];
      SetConnected(true);
    }

    method OnError()
      requires Valid() && es != null
      modifies this, timers, es
      ensures Valid() && Abs() == EventStream.OnError(old(Abs()))
      ensures sources == old(sources)
    {
      SetConnected(false);
      es.CloseSource();
      es, bound := null, {};
      if refCount == 0 { return; }
      var delay := Delay(backoffStep);
      backoffStep, delays := backoffStep + 1, delays + [delay];
      var id := timers.Set(Reconnect(delay));
      reconnectTimer := Some(id);
    }

    method CloseFired()
      requires Valid()
      modifies this, timers, es
      ensures Valid() && Abs() == EventStream.CloseFired(old(Abs()))
      ensures sources == old(sources)
    {
      closeTimer := None;
      if refCount == 0 { CloseConnection(); }
    }

    method ReconnectFired()
      requires Valid()
      modifies this, timers
      ensures Valid() && Abs() == EventStream.ReconnectFired(old(Abs()))
      ensures fresh(sources - old(sources))
    {
      reconnectTimer := None;
      assert Abs() == old(Abs()).(reconnectTimer := None);
      if refCount > 0 { OpenConnection(); }
    }

    /** A pending timer fires: the browser drops it and runs its callback. */
    method OnTimer(id: nat)
      requires Valid() && id in timers.pending
      modifies this, timers, es
      ensures Valid() && Abs() == EventStream.OnTimer(old(Abs()), id)
      ensures fresh(sources - old(sources))
    {
      var t := timers.pending[id];
      timers.Clear(Some(id));
      if t.Close? { CloseFired(); } else { ReconnectFired(); }
    }

    /** dispatch(): every listener of the type gets the event; one that throws stops no other. */
    method Dispatch(ty: EventType, wellFormed: bool)
      requires Valid()
      modifies this`delivered
      ensures delivered == old(delivered) + if wellFormed then Targets(old(Abs()), ty) else multiset{}
    {
      if ty !in listeners || !wellFormed { return; }
      var todo := listeners[ty];
      while todo != {}
        invariant todo <= listeners[ty]
        invariant delivered == old(delivered) + multiset(set fn | fn in listeners[ty] - todo :: (ty, fn))
        decreases todo
      {
        var fn :| fn in todo;
        ghost var done := listeners[ty] - todo;
        todo := todo - {fn};
        delivered := delivered + multiset{(ty, fn)};
        assert (set f | f in listeners[ty] - todo :: (ty, f)) == (set f | f in done :: (ty, f)) + {(ty, fn)};
      }
      assert listeners[ty] - todo == listeners[ty];
    }

    /** The browser calls each handler bound for the type, in turn. */
    method OnMessage(ty: EventType, wellFormed: bool)
      requires Valid() && es != null
      modifies this`delivered
      ensures Valid() && Abs() == EventStream.OnMessage(old(Abs()), ty, wellFormed)
    {
      var n := es.handlers[ty];
      ghost var targets := Targets(Abs(), ty);
      for k := 0 to n
        invariant Abs() == old(Abs()).(delivered := delivered)
        invariant delivered == old(delivered) + if wellFormed then Times(k, targets) else multiset{}
      {
        Dispatch(ty, wellFormed);
      }
    }

    method Subscribe(fn: Listener)
      requires Valid()
      modifies this`views
      ensures Valid() && Abs() == old(Abs()).(views := old(views)[fn := connected])
    {
      views := views[fn := connected];
    }

    method Unsubscribe(fn: Listener)
      requires Valid()
      modifies this`views
      ensures Valid() && Abs() == old(Abs()).(views := old(views) - {fn})
    {
      views := views - {fn};
    }
  }

  lemma BindNothing(s: State, tys: set<EventType>)
    requires s.conn.Some? && tys <= s.bound
    ensures BindTypes(s, tys) == s
  {
    assert tys - s.bound == {} && s.bound + tys == s.bound;
    assert s.conn.value + multiset(tys - s.bound) == s.conn.value;
  }

  lemma BindNone(s: State, all: set<EventType>)
    requires s.conn.Some?
    ensures BindTypes(s, all - all) == s
  {
    assert all - all == {};
    BindNothing(s, {});
  }

  lemma BindNext(s: State, all: set<EventType>, todo: set<EventType>, ty: EventType)
    requires s.conn.Some? && todo <= all && ty in todo
    ensures BindTypes(BindTypes(s, all - todo), {ty}) == BindTypes(s, all - (todo - {ty}))
  {
    BindStep(s, all - todo, ty);
    assert all - (todo - {ty}) == all - todo + {ty};
  }

  /** Binding one more type after the types in `tys`. */
  lemma BindStep(s: State, tys: set<EventType>, ty: EventType)
    requires s.conn.Some? && ty !in tys
    ensures BindTypes(BindTypes(s, tys), {ty}) == BindTypes(s, tys + {ty})
  {
    var a, b := tys - s.bound, {ty} - (s.bound + tys);
    assert (tys + {ty}) - s.bound == a + b;
    assert multiset(a + b) == multiset(a) + multiset(b);
    assert s.conn.value + multiset(a) + multiset(b) == s.conn.value + multiset(a + b);
    assert s.bound + tys + {ty} == s.bound + (tys + {ty});
  }
}
