/**
 The Discord watchers: which messages have been seen, what is written to disk, and which
 signals are posted, over ticks, exceptions, crashes and restarts.
 */
module DiscordWatcher {
  import opened Wrappers

  /** A message on screen; `signals` is what the parser makes of its content, none for a blank one. */
  datatype Message = Message(id: string, signals: seq<string>)

  /** A signal posted to the backend. */
  datatype Post = Post(id: string, index: nat, signal: string)

  /** How the calls to the emitter end: call number `at` of the tick raises, having reached the backend or not. */
  datatype Fault = Clean | RaisesAt(at: nat, delivered: bool)

  const KEPT: nat := 500

  // ---- One tick ----

  /** The first `n` signals of a message, posted. */
  function PostsTo(m: Message, n: nat): seq<Post>
    requires n <= |m.signals|
  {
    if n == 0 then [] else PostsTo(m, n - 1) + [Post(m.id, n - 1, m.signals[n - 1])]
  }

  /** Where a tick has got to: the ids seen, what it posted, and whether an exception ended it. */
  datatype Progress = Progress(seen: set<string>, posts: seq<Post>, fault: Fault, raised: bool)

  predicate Raises(m: Message, fault: Fault) {
    fault.RaisesAt? && fault.at < |m.signals|
  }

  /** How many of a message's signals reach the backend. */
  function Posted(m: Message, fault: Fault): (n: nat)
    ensures n <= |m.signals|
  {
    if !Raises(m, fault) then |m.signals| else if fault.delivered then fault.at + 1 else fault.at
  }

  predicate NotYet(fault: Fault, calls: nat) {
    fault.RaisesAt? ==> calls <= fault.at
  }

  /** How the calls after the first `calls` end. */
  function Left(fault: Fault, calls: nat): Fault
    requires NotYet(fault, calls)
  {
    match fault
    case Clean => Clean
    case RaisesAt(at, delivered) => RaisesAt(at - calls, delivered)
  }

  /** A message is marked as seen before its signals are posted. */
  function Handle(p: Progress, m: Message): Progress {
    if p.raised || m.id in p.seen then p
    else
      var posts := p.posts + PostsTo(m, Posted(m, p.fault));
      if Raises(m, p.fault) then Progress(p.seen + {m.id}, posts, p.fault, true)
      else Progress(p.seen + {m.id}, posts, Left(p.fault, |m.signals|), false)
  }

  /** The first `n` messages handled. */
  function HandleTo(p: Progress, msgs: seq<Message>, n: nat): Progress
    requires n <= |msgs|
  {
    if n == 0 then p else Handle(HandleTo(p, msgs, n - 1), msgs[n - 1])
  }

  function TickFrom(seen: set<string>, msgs: seq<Message>, fault: Fault): Progress {
    HandleTo(Progress(seen, [], fault, false), msgs, |msgs|)
  }

  /** Some 500 of the ids, in no particular order; all of them when there are no more. */
  ghost predicate Kept(seen: set<string>, kept: set<string>) {
    kept <= seen && |kept| == if |seen| <= KEPT then |seen| else KEPT
  }

  function Ids(msgs: seq<Message>): set<string> {
    set m | m in msgs :: m.id
  }

  /** The ids a run starts from: the file's, or those on screen when there are none. */
  function StartSeen(file: set<string>, loads: bool, initial: seq<Message>): set<string> {
    if Seeds(file, loads) then Ids(initial) else file
  }

  /** Whether a new process finds no ids to go on with. */
  predicate Seeds(file: set<string>, loads: bool) {
    !loads || file == {}
  }

  class Watcher {
    var seen: set<string>
    var file: set<string>
    var log: seq<Post>

    constructor ()
      ensures seen == {} && file == {} && log == []
    {
      seen, file, log := {}, {}, [];
    }

    method LoadSeen(loads: bool)
      modifies this`seen
      ensures seen == if loads then file else {}
    {
      seen := if loads then file else {};
    }

    /** `kept` is the slice the list of the set happens to give; None when the write raises. */
    method PersistSeen(kept: Option<set<string>>)
      requires kept.Some? ==> Kept(seen, kept.value)
      modifies this`file
      ensures file == if kept.Some? then kept.value else old(file)
    {
      if kept.Some? { file := kept.value; }
    }

    /** What a new process does before its first tick; a write that raises ends it there. */
    method Start(loads: bool, initial: seq<Message>, kept: Option<set<string>>) returns (raised: bool)
      requires kept.Some? ==> Kept(Ids(initial), kept.value)
      modifies this
      ensures raised == (Seeds(old(file), loads) && kept.None?)
      ensures seen == StartSeen(old(file), loads, initial) && log == old(log)
      ensures file == if Seeds(old(file), loads) && kept.Some? then kept.value else old(file)
    {
      LoadSeen(loads);
      raised := false;
      if seen == {} {
        seen := set m | m in initial :: m.id;
        PersistSeen(kept);
        raised := kept.None?;
      }
    }

    /** One tick; an exception skips the rest of the messages and the write. */
    method Tick(msgs: seq<Message>, fault: Fault, kept: Option<set<string>>) returns (raised: bool)
      requires kept.Some? ==> Kept(TickFrom(seen, msgs, fault).seen, kept.value)
      modifies this
      ensures var p := TickFrom(old(seen), msgs, fault);
        && raised == p.raised && seen == p.seen && log == old(log) + p.posts
        && file == if !raised && kept.Some? then kept.value else old(file)
    {
      var calls := 0;
      raised := false;
      ghost var start := Progress(seen, [], fault, false);
      ghost var before := log;
      for i := 0 to |msgs|
        invariant StandsAt(HandleTo(start, msgs, i), fault, calls, before) && file == old(file)
      {
        raised, calls := Receive(msgs[i], fault, calls, HandleTo(start, msgs, i), before);
        if raised {
          RaisedStays(start, msgs, i + 1, |msgs|);
          return;
        }
      }
      PersistSeen(kept);
    }

    /** `calls` calls into a tick that began with log `before`, the fields are those of `p`. */
    ghost predicate StandsAt(p: Progress, fault: Fault, calls: nat, before: seq<Post>)
      reads this
    {
      && !p.raised && NotYet(fault, calls) && p.fault == Left(fault, calls)
      && seen == p.seen && log == before + p.posts
    }

    /** The outer loop's turn for one message. */
    method Receive(m: Message, fault: Fault, calls: nat, ghost p: Progress, ghost before: seq<Post>)
      returns (raised: bool, made: nat)
      requires StandsAt(p, fault, calls, before)
      modifies this`seen, this`log
      ensures raised == Handle(p, m).raised && seen == Handle(p, m).seen && log == before + Handle(p, m).posts
      ensures !raised ==> StandsAt(Handle(p, m), fault, made, before)
    {
      raised, made := false, calls;
      if m.id !in seen {
        seen := seen + {m.id};
        raised, made := PostSignals(m, fault, calls);
        assert before + (p.posts + PostsTo(m, Posted(m, p.fault))) == log;
      }
    }

    /** The inner loop of a tick over one message's signals. */
    method PostSignals(m: Message, fault: Fault, calls: nat) returns (raised: bool, made: nat)
      requires NotYet(fault, calls)
      modifies this`log
      ensures raised == Raises(m, Left(fault, calls))
      ensures !raised ==> made == calls + |m.signals|
      ensures log == old(log) + PostsTo(m, Posted(m, Left(fault, calls)))
    {
      made := calls;
      for i := 0 to |m.signals|
        invariant made == calls + i && log == old(log) + PostsTo(m, i)
        invariant fault.RaisesAt? ==> made <= fault.at
      {
        if fault.RaisesAt? && fault.at == made {
          if fault.delivered { log := log + [Post(m.id, i, m.signals[i])]; }
          return true, made;
        }
        log := log + [Post(m.id, i, m.signals[i])];
        made := made + 1;
      }
      raised := false;
    }
  }

  /** Nothing is handled after an exception. */
  lemma {:induction false} RaisedStays(p: Progress, msgs: seq<Message>, i: nat, n: nat)
    requires i <= n <= |msgs| && HandleTo(p, msgs, i).raised
    ensures HandleTo(p, msgs, n) == HandleTo(p, msgs, i)
  {
    if i < n { RaisedStays(p, msgs, i, n - 1); }
  }

  // ---- What a tick posts ----

  /** Two posts carry the same signal id. */
  predicate SameSignal(p: Post, q: Post) {
    p.id == q.id && p.index == q.index
  }

  lemma {:induction false} PostsAre(m: Message, n: nat)
    requires n <= |m.signals|
    ensures |PostsTo(m, n)| == n && forall i | 0 <= i < n :: PostsTo(m, n)[i] == Post(m.id, i, m.signals[i])
  {
    if n > 0 { PostsAre(m, n - 1); }
  }

  /** No signal occurs twice, and the messages posted are among those seen since `seen`. */
  ghost predicate Once(seen: set<string>, p: Progress) {
    && seen <= p.seen
    && (forall i | 0 <= i < |p.posts| :: p.posts[i].id in p.seen && p.posts[i].id !in seen)
    && (forall i, j | 0 <= i < j < |p.posts| :: !SameSignal(p.posts[i], p.posts[j]))
  }

  lemma HandleOnce(seen: set<string>, p: Progress, m: Message)
    requires Once(seen, p)
    ensures Once(seen, Handle(p, m))
  {
    PostsAre(m, Posted(m, p.fault));
  }

  lemma {:induction false} TickOnce(seen: set<string>, msgs: seq<Message>, fault: Fault, n: nat)
    requires n <= |msgs|
    ensures Once(seen, HandleTo(Progress(seen, [], fault, false), msgs, n))
  {
    if n > 0 {
      TickOnce(seen, msgs, fault, n - 1);
      HandleOnce(seen, HandleTo(Progress(seen, [], fault, false), msgs, n - 1), msgs[n - 1]);
    }
  }

  /** Message `k` is the first of its id on screen, and new. */
  ghost predicate FirstFresh(seen: set<string>, msgs: seq<Message>, k: nat) {
    k < |msgs| && msgs[k].id !in seen && forall j | 0 <= j < k :: msgs[j].id != msgs[k].id
  }

  ghost predicate Owed(seen: set<string>, msgs: seq<Message>, k: nat, post: Post) {
    && FirstFresh(seen, msgs, k) && post.id == msgs[k].id
    && post.index < |msgs[k].signals| && post.signal == msgs[k].signals[post.index]
  }

  lemma PostedBy(m: Message, post: Post)
    ensures post in PostsTo(m, |m.signals|) <==>
      post.id == m.id && post.index < |m.signals| && post.signal == m.signals[post.index]
  {
    PostsAre(m, |m.signals|);
    if post.id == m.id && post.index < |m.signals| && post.signal == m.signals[post.index] {
      assert post == PostsTo(m, |m.signals|)[post.index];
    }
  }

  /** Without exceptions every signal of every new message is posted, and nothing else. */
  lemma {:induction false} CleanTick(seen: set<string>, msgs: seq<Message>, n: nat, post: Post)
    requires n <= |msgs|
    ensures var p := HandleTo(Progress(seen, [], Clean, false), msgs, n);
      && !p.raised && p.fault == Clean
      && (forall id :: id in p.seen <==> id in seen || exists k | 0 <= k < n :: msgs[k].id == id)
      && (post in p.posts <==> exists k: nat | k < n :: Owed(seen, msgs, k, post))
  {
    if n > 0 {
      CleanTick(seen, msgs, n - 1, post);
      var p, m := HandleTo(Progress(seen, [], Clean, false), msgs, n - 1), msgs[n - 1];
      PostedBy(m, post);
      if m.id !in p.seen {
        assert Owed(seen, msgs, n - 1, post) <==> post in PostsTo(m, |m.signals|);
        assert post in Handle(p, m).posts <==> post in p.posts || post in PostsTo(m, |m.signals|);
      }
    }
  }

  /** What an exception at call `at` leaves of the tick that `c` would have been. */
  ghost predicate CutAt(c: Progress, f: Progress, at: nat, delivered: bool) {
    if |c.posts| <= at then f == Progress(c.seen, c.posts, RaisesAt(at - |c.posts|, delivered), false)
    else f.raised && f.posts == c.posts[..if delivered then at + 1 else at] && f.seen <= c.seen
  }

  lemma PrefixOfJoin(a: seq<Post>, b: seq<Post>, k: nat)
    requires k <= |a| + |b|
    ensures (a + b)[..k] == if k <= |a| then a[..k] else a + b[..k - |a|]
  {}

  lemma PostsPrefix(m: Message, k: nat)
    requires k <= |m.signals|
    ensures |PostsTo(m, |m.signals|)| == |m.signals| && PostsTo(m, k) == PostsTo(m, |m.signals|)[..k]
  {
    PostsAre(m, |m.signals|);
    PostsAre(m, k);
  }

  lemma CutNext(c: Progress, f: Progress, m: Message, at: nat, delivered: bool)
    requires !c.raised && c.fault == Clean && CutAt(c, f, at, delivered)
    ensures CutAt(Handle(c, m), Handle(f, m), at, delivered)
  {
    if m.id !in c.seen {
      var n, k := |m.signals|, if delivered then at + 1 else at;
      PostsPrefix(m, n);
      if at < |c.posts| + n { PrefixOfJoin(c.posts, PostsTo(m, n), k); }
      if 0 <= at - |c.posts| < n { PostsPrefix(m, k - |c.posts|); }
    }
  }

  /** A tick in which a call raises posts what a clean one would have, up to that call. */
  lemma {:induction false} FaultCutsTick(seen: set<string>, msgs: seq<Message>, at: nat, delivered: bool, n: nat)
    requires n <= |msgs|
    ensures CutAt(HandleTo(Progress(seen, [], Clean, false), msgs, n),
                  HandleTo(Progress(seen, [], RaisesAt(at, delivered), false), msgs, n), at, delivered)
  {
    if n > 0 {
      var start := Progress(seen, [], Clean, false);
      FaultCutsTick(seen, msgs, at, delivered, n - 1);
      CleanStays(start, msgs, n - 1);
      CutNext(HandleTo(start, msgs, n - 1), HandleTo(start.(fault := RaisesAt(at, delivered)), msgs, n - 1),
              msgs[n - 1], at, delivered);
    }
  }

  lemma {:induction false} CleanStays(p: Progress, msgs: seq<Message>, n: nat)
    requires n <= |msgs| && p.fault == Clean && !p.raised
    ensures HandleTo(p, msgs, n).fault == Clean && !HandleTo(p, msgs, n).raised
  {
    if n > 0 { CleanStays(p, msgs, n - 1); }
  }

  // ---- Histories ----

  /** A tick of the running process, or the start of a new one after a crash. */
  datatype Event =
    | Ticked(msgs: seq<Message>, fault: Fault, kept: Option<set<string>>)
    | Started(loads: bool, initial: seq<Message>, slice: Option<set<string>>)

  /**
   The state, with what its history says: whether a process is running; the ids it began with
   and where its posts begin; the ids handled since the last write; the ids some restart has
   forgotten; and the ids that were unsaved at some restart.
   */
  datatype History = History(seen: set<string>, file: set<string>, log: seq<Post>, running: bool,
                             base: set<string>, from: nat, unsaved: set<string>,
                             lost: set<string>, dropped: set<string>)

  const BLANK := History({}, {}, [], false, {}, 0, {}, {}, {})

  /** Only a running process ticks, and a write keeps as many ids as it can. */
  ghost predicate Possible(h: History, e: Event) {
    match e
    case Ticked(msgs, fault, kept) => h.running && (kept.Some? ==> Kept(TickFrom(h.seen, msgs, fault).seen, kept.value))
    case Started(loads, initial, slice) => slice.Some? ==> Kept(Ids(initial), slice.value)
  }

  /** A process whose seeding write raises is gone before it posts anything. */
  function Step(h: History, e: Event): History {
    match e
    case Ticked(msgs, fault, kept) =>
      var p := TickFrom(h.seen, msgs, fault);
      var written := !p.raised && kept.Some?;
      h.(seen := p.seen, log := h.log + p.posts,
         file := if written then kept.value else h.file,
         unsaved := if written then {} else h.unsaved + (p.seen - h.seen))
    case Started(loads, initial, slice) =>
      if Seeds(h.file, loads) && slice.None? then h.(running := false)
      else
        var seen := StartSeen(h.file, loads, initial);
        History(seen, if Seeds(h.file, loads) then slice.value else h.file, h.log, true,
                seen, |h.log|, {}, h.lost + (h.seen - seen), h.dropped + h.unsaved)
  }

  function After(events: seq<Event>, n: nat): History
    requires n <= |events|
  {
    if n == 0 then BLANK else Step(After(events, n - 1), events[n - 1])
  }

  /** The process and its restarts, event by event, with one file and one backend: it lives the history. */
  method Live(events: seq<Event>) returns (w: Watcher)
    requires forall n | 0 <= n < |events| :: Possible(After(events, n), events[n])
    ensures var h := After(events, |events|); w.file == h.file && w.log == h.log && (h.running ==> w.seen == h.seen)
  {
    w := new Watcher();
    for n := 0 to |events|
      invariant fresh(w)
      invariant var h := After(events, n); w.file == h.file && w.log == h.log && (h.running ==> w.seen == h.seen)
    {
      assert Possible(After(events, n), events[n]);
      match events[n] {
        case Ticked(msgs, fault, kept) =>
          var _ := w.Tick(msgs, fault, kept);
        case Started(loads, initial, slice) =>
          var _ := w.Start(loads, initial, slice);
      }
    }
  }

  // ---- What the words of a history mean ----

  /** Event `m` is a start that goes on: it finds ids in the file, or its seeding write succeeds. */
  ghost predicate Starts(events: seq<Event>, m: nat)
    requires m < |events|
  {
    var e := events[m];
    e.Started? && (e.slice.Some? || (e.loads && After(events, m).file != {}))
  }

  /** Event `m` is a tick that ends with a write. */
  ghost predicate Writes(events: seq<Event>, m: nat)
    requires m < |events|
  {
    var e := events[m];
    e.Ticked? && e.kept.Some? && !TickFrom(After(events, m).seen, e.msgs, e.fault).raised
  }

  /** Event `m` is a tick in which a message of this id is handled first. */
  ghost predicate Handles(events: seq<Event>, m: nat, id: string)
    requires m < |events|
  {
    events[m].Ticked? && id !in After(events, m).seen && id in After(events, m + 1).seen
  }

  /** The id has been handled since the last write or start. */
  ghost predicate HandledSince(events: seq<Event>, n: nat, id: string)
    requires n <= |events|
  {
    exists m: nat | m < n :: Handles(events, m, id) && forall l | m <= l < n :: !Starts(events, l) && !Writes(events, l)
  }

  lemma NextIs(events: seq<Event>, m: nat, id: string)
    requires m < |events|
    ensures var (h, h') := (After(events, m), After(events, m + 1));
      && (id in h'.unsaved <==>
            !Starts(events, m) && !Writes(events, m) && (id in h.unsaved || Handles(events, m, id)))
      && (id in h'.dropped <==> id in h.dropped || (Starts(events, m) && id in h.unsaved))
      && (id in h'.lost <==> id in h.lost || (Starts(events, m) && id in h.seen && id !in h'.seen))
      && (h'.running <==> if events[m].Started? then Starts(events, m) else h.running)
  {}

  lemma {:induction false} UnsavedIff(events: seq<Event>, n: nat, id: string)
    requires n <= |events|
    ensures id in After(events, n).unsaved <==> HandledSince(events, n, id)
  {
    if n > 0 {
      var k := n - 1;
      UnsavedIff(events, k, id);
      NextIs(events, k, id);
      if Starts(events, k) || Writes(events, k) {
        assert !HandledSince(events, n, id);
      } else if HandledSince(events, k, id) {
        var m: nat :| m < k && Handles(events, m, id)
          && forall l | m <= l < k :: !Starts(events, l) && !Writes(events, l);
        assert Handles(events, m, id);
      } else if Handles(events, k, id) {
        assert HandledSince(events, n, id);
      }
    }
  }

  /** What the last write that succeeded put into the file: a tick's, or that of a start that found nothing to load. */
  ghost function LastWritten(events: seq<Event>, n: nat): set<string>
    requires n <= |events|
  {
    if n == 0 then {}
    else
      var e, before := events[n - 1], LastWritten(events, n - 1);
      if Writes(events, n - 1) then e.kept.value
      else if e.Started? && e.slice.Some? && !(e.loads && before != {}) then e.slice.value
      else before
  }

  lemma {:induction false} FileIsLastWritten(events: seq<Event>, n: nat)
    requires n <= |events|
    ensures After(events, n).file == LastWritten(events, n)
  {
    if n > 0 { FileIsLastWritten(events, n - 1); }
  }

  /** Dropped are the ids some start found unsaved, and lost those some start no longer knew. */
  lemma {:induction false} DroppedIff(events: seq<Event>, n: nat, id: string)
    requires n <= |events|
    ensures id in After(events, n).dropped <==>
      exists m: nat | m < n :: Starts(events, m) && HandledSince(events, m, id)
    ensures id in After(events, n).lost <==>
      exists m: nat | m < n :: Starts(events, m) && id in After(events, m).seen && id !in After(events, m + 1).seen
  {
    if n > 0 {
      var k := n - 1;
      DroppedIff(events, k, id);
      UnsavedIff(events, k, id);
      NextIs(events, k, id);
    }
  }

  /** A process runs exactly when the last start, of those there were, went on. */
  lemma {:induction false} RunningIff(events: seq<Event>, n: nat)
    requires n <= |events|
    ensures After(events, n).running <==>
      exists m: nat | m < n :: Starts(events, m) && forall l | m < l < n :: events[l].Ticked?
  {
    if n > 0 {
      var k := n - 1;
      RunningIff(events, k);
      NextIs(events, k, "");
      if events[k].Started? {
        forall m: nat | m < n && Starts(events, m) && forall l | m < l < n :: events[l].Ticked?
          ensures m == k
        {}
      }
    }
  }

  /** A signal is posted twice only if a restart in between forgot its message. */
  ghost predicate Inv(h: History) {
    && h.from <= |h.log| && h.base <= h.seen
    && (forall i | 0 <= i < |h.log| :: h.log[i].id in h.seen + h.lost)
    && (forall i | h.from <= i < |h.log| :: h.log[i].id in h.seen && h.log[i].id !in h.base)
    && (forall i, j | h.from <= i < j < |h.log| :: !SameSignal(h.log[i], h.log[j]))
    && (forall i, j | 0 <= i < j < |h.log| :: SameSignal(h.log[i], h.log[j]) ==> h.log[i].id in h.lost)
  }

  lemma StepKeepsInv(h: History, e: Event)
    requires Inv(h)
    ensures Inv(Step(h, e))
  {
    match e
    case Ticked(msgs, fault, kept) => TickOnce(h.seen, msgs, fault, |msgs|);
    case Started(loads, initial, slice) =>
  }

  lemma {:induction false} Reachable(events: seq<Event>, n: nat)
    requires n <= |events|
    ensures Inv(After(events, n))
  {
    if n > 0 {
      Reachable(events, n - 1);
      StepKeepsInv(After(events, n - 1), events[n - 1]);
    }
  }

  /** From event `k`, a start, to event `n` there are only ticks. */
  ghost predicate OneRun(events: seq<Event>, k: nat, n: nat) {
    k < n <= |events| && events[k].Started? && forall m | k < m < n :: events[m].Ticked?
  }

  lemma {:induction false} RunKeepsBase(events: seq<Event>, k: nat, n: nat)
    requires OneRun(events, k, n)
    ensures After(events, n).base == After(events, k + 1).base && After(events, n).from == After(events, k + 1).from
  {
    if n > k + 1 { RunKeepsBase(events, k, n - 1); }
  }

  /**
   Until the next start a process posts nothing of a message that its file named when it started or,
   if it found none there, that was on screen then.
   */
  lemma OldIsNotPosted(events: seq<Event>, k: nat, n: nat, i: nat)
    requires OneRun(events, k, n) && |After(events, k).log| <= i < |After(events, n).log|
    requires !(events[k].slice.None? && (!events[k].loads || After(events, k).file == {}))
    ensures var known := if events[k].loads && After(events, k).file != {} then After(events, k).file
                       else set m | m in events[k].initial :: m.id;
      After(events, n).log[i].id !in known
  {
    Reachable(events, n);
    RunKeepsBase(events, k, n);
    assert Ids(events[k].initial) == set m | m in events[k].initial :: m.id;
  }

  // ---- Restarts that lose nothing saved ----

  /** Every write fits in the file and every start reads it. */
  ghost predicate Healthy(h: History, e: Event) {
    match e
    case Ticked(msgs, fault, kept) => |TickFrom(h.seen, msgs, fault).seen| <= KEPT
    case Started(loads, initial, slice) => loads && |Ids(initial)| <= KEPT
  }

  /** What is seen is saved, or handled since the last write; nothing else has been forgotten. */
  ghost predicate Saved(h: History) {
    h.seen <= h.file + h.unsaved && h.lost <= h.dropped
  }

  ghost predicate HealthyTo(events: seq<Event>, n: nat)
    requires n <= |events|
  {
    n == 0 || (HealthyTo(events, n - 1) && GoesWell(After(events, n - 1), events[n - 1]))
  }

  ghost predicate GoesWell(h: History, e: Event) {
    Possible(h, e) && Healthy(h, e)
  }

  lemma FullSetKept(seen: set<string>, kept: set<string>)
    requires Kept(seen, kept)
    ensures kept == seen <==> |seen| <= 500
  {
    if |seen| <= KEPT {
      SubsetOfSize(kept, seen);
    }
  }

  lemma SubsetOfSize(a: set<string>, b: set<string>)
    requires a <= b && |a| == |b|
    ensures a == b
  {
    if x :| x in b && x !in a {
      SubsetSmaller(a, b - {x});
    }
  }

  lemma {:induction false} SubsetSmaller(a: set<string>, b: set<string>)
    requires a <= b
    ensures |a| <= |b|
  {
    if x :| x in a {
      SubsetSmaller(a - {x}, b - {x});
    }
  }

  lemma HealthyKeepsSaved(h: History, e: Event)
    requires Saved(h) && GoesWell(h, e)
    ensures Saved(Step(h, e))
  {
    match e
    case Ticked(msgs, fault, kept) =>
      if kept.Some? { FullSetKept(TickFrom(h.seen, msgs, fault).seen, kept.value); }
    case Started(loads, initial, slice) =>
      if slice.Some? { FullSetKept(Ids(initial), slice.value); }
  }

  lemma {:induction false} HealthyRun(events: seq<Event>, n: nat)
    requires n <= |events| && HealthyTo(events, n)
    ensures Saved(After(events, n))
  {
    if n > 0 {
      HealthyRun(events, n - 1);
      HealthyKeepsSaved(After(events, n - 1), events[n - 1]);
    }
  }

  /** A signal is posted twice only if its message was handled after the last write before some restart. */
  lemma OnlyUnsavedRepeat(events: seq<Event>, n: nat, i: nat, j: nat)
    requires n <= |events| && HealthyTo(events, n)
    requires i < j < |After(events, n).log| && SameSignal(After(events, n).log[i], After(events, n).log[j])
    ensures After(events, n).log[i].id in After(events, n).dropped
  {
    Reachable(events, n);
    HealthyRun(events, n);
  }

  /** A forgotten message that is still on screen is posted again by the next clean tick. */
  lemma ForgottenIsRepeated(h: History, initial: seq<Message>, slice: Option<set<string>>, msgs: seq<Message>,
                            kept: Option<set<string>>, k: nat, i: nat)
    requires h.file != {} && FirstFresh(h.file, msgs, k) && i < |msgs[k].signals|
    ensures var after := Step(Step(h, Started(true, initial, slice)), Ticked(msgs, Clean, kept));
      exists j :: |h.log| <= j < |after.log| && after.log[j] == Post(msgs[k].id, i, msgs[k].signals[i])
  {
    var post := Post(msgs[k].id, i, msgs[k].signals[i]);
    var p := TickFrom(h.file, msgs, Clean);
    CleanTick(h.file, msgs, |msgs|, post);
    assert Owed(h.file, msgs, k, post);
    var j :| 0 <= j < |p.posts| && p.posts[j] == post;
    var after := Step(Step(h, Started(true, initial, slice)), Ticked(msgs, Clean, kept));
    assert after.log == h.log + p.posts;
    assert after.log[|h.log| + j] == post;
  }

  /** What has been seen in this run is not posted again by it: an exception loses the rest of its message. */
  lemma SeenIsNotPosted(h: History, msgs: seq<Message>, fault: Fault, kept: Option<set<string>>, i: nat)
    requires |h.log| <= i < |Step(h, Ticked(msgs, fault, kept)).log|
    ensures Step(h, Ticked(msgs, fault, kept)).log[i].id !in h.seen
  {
    TickOnce(h.seen, msgs, fault, |msgs|);
    var p := TickFrom(h.seen, msgs, fault);
    assert (h.log + p.posts)[i] == p.posts[i - |h.log|];
  }

  // ---- Writes of more than 500 ids ----

  lemma {:induction false} SomeOf(s: set<string>, n: nat) returns (t: set<string>)
    requires n <= |s|
    ensures t <= s && |t| == n
    decreases |s| - n
  {
    if n == |s| {
      t := s;
    } else {
      var x :| x in s;
      t := SomeOf(s - {x}, n);
    }
  }

  /** A write can leave out any given id exactly when there are more than 500. */
  lemma CanLoseIff(seen: set<string>, id: string)
    requires id in seen
    ensures (exists kept :: Kept(seen, kept) && id !in kept) <==> |seen| > 500
  {
    if |seen| > KEPT {
      var kept := SomeOf(seen - {id}, KEPT);
      assert Kept(seen, kept);
    }
    forall kept | Kept(seen, kept) && id !in kept
      ensures |seen| > KEPT
    {
      FullSetKept(seen, kept);
    }
  }

  lemma {:induction false} SilentTo(seen: set<string>, msgs: seq<Message>, n: nat)
    requires n <= |msgs| && forall m | m in msgs :: m.signals == []
    ensures HandleTo(Progress(seen, [], Clean, false), msgs, n) == Progress(seen + Ids(msgs[..n]), [], Clean, false)
  {
    if n == 0 {
      assert seen + Ids(msgs[..n]) == seen;
    } else {
      SilentTo(seen, msgs, n - 1);
      assert msgs[..n] == msgs[..n - 1] + [msgs[n - 1]];
      assert seen + Ids(msgs[..n]) == seen + Ids(msgs[..n - 1]) + {msgs[n - 1].id};
    }
  }

  /** A tick over messages without signals only marks them as seen. */
  lemma SilentTick(seen: set<string>, msgs: seq<Message>)
    requires forall m | m in msgs :: m.signals == []
    ensures TickFrom(seen, msgs, Clean) == Progress(seen + Ids(msgs), [], Clean, false)
  {
    SilentTo(seen, msgs, |msgs|);
    assert msgs[..|msgs|] == msgs;
  }

  lemma HandleOne(seen: set<string>, m: Message, x: string)
    requires m.id !in seen && m.signals == [x]
    ensures Handle(Progress(seen, [], Clean, false), m) == Progress(seen + {m.id}, [Post(m.id, 0, x)], Clean, false)
  {
    PostsAre(m, 1);
    assert [] + PostsTo(m, 1) == [Post(m.id, 0, x)];
  }

  lemma {:induction false} HandlePrefix(p: Progress, a: seq<Message>, b: seq<Message>, n: nat)
    requires n <= |a| <= |b| && a == b[..|a|]
    ensures HandleTo(p, b, n) == HandleTo(p, a, n)
  {
    if n > 0 { HandlePrefix(p, a, b, n - 1); }
  }

  lemma TickSnoc(seen: set<string>, msgs: seq<Message>, m: Message)
    ensures TickFrom(seen, msgs + [m], Clean) == Handle(TickFrom(seen, msgs, Clean), m)
  {
    HandlePrefix(Progress(seen, [], Clean, false), msgs, msgs + [m], |msgs|);
  }

  lemma {:induction false} SeenTo(p: Progress, msgs: seq<Message>, n: nat)
    requires n <= |msgs| && Ids(msgs) <= p.seen
    ensures HandleTo(p, msgs, n) == p
  {
    if n > 0 {
      SeenTo(p, msgs, n - 1);
      assert msgs[n - 1].id in Ids(msgs);
    }
  }

  /** A screen of messages already seen but for the last. */
  lemma LastIsNew(seen: set<string>, msgs: seq<Message>, m: Message)
    requires Ids(msgs) <= seen
    ensures TickFrom(seen, msgs + [m], Clean) == Handle(Progress(seen, [], Clean, false), m)
  {
    SeenTo(Progress(seen, [], Clean, false), msgs, |msgs|);
    TickSnoc(seen, msgs, m);
  }

  // ---- A saved message posted again ----

  /** A poll reads at most 25 messages, the first one after a start at most 50, and waits until there is one. */
  ghost predicate OnScreen(e: Event) {
    match e
    case Ticked(msgs, _, _) => |msgs| <= 25
    case Started(_, initial, _) => 1 <= |initial| <= 50
  }

  ghost predicate Silent(msgs: seq<Message>) {
    forall m | m in msgs :: m.signals == []
  }

  /** Screens without signals, the first of them not empty. */
  ghost predicate Quiet(screens: seq<seq<Message>>) {
    && screens != [] && screens[0] != []
    && forall i | 0 <= i < |screens| :: |screens[i]| <= 25 && Silent(screens[i])
  }

  /** The ids on the first `n` screens. */
  ghost function SeenIn(screens: seq<seq<Message>>, n: nat): set<string>
    requires n <= |screens|
  {
    if n == 0 then {} else SeenIn(screens, n - 1) + Ids(screens[n - 1])
  }

  /** A first start on the first screen and a tick for each other one, all saved whole. */
  ghost function Watch(screens: seq<seq<Message>>, n: nat): seq<Event>
    requires n <= |screens|
  {
    if n == 0 then []
    else if n == 1 then [Started(true, screens[0], Some(Ids(screens[0])))]
    else Watch(screens, n - 1) + [Ticked(screens[n - 1], Clean, Some(SeenIn(screens, n)))]
  }

  /** Event `n` can happen where it does. */
  ghost predicate CanHappen(events: seq<Event>, n: nat)
    requires n < |events|
  {
    Possible(After(events, n), events[n]) && OnScreen(events[n])
  }

  ghost predicate CanRun(events: seq<Event>) {
    forall n | 0 <= n < |events| :: CanHappen(events, n)
  }

  lemma {:induction false} AfterPrefix(a: seq<Event>, b: seq<Event>, n: nat)
    requires n <= |a| <= |b| && a == b[..|a|]
    ensures After(b, n) == After(a, n)
  {
    if n > 0 { AfterPrefix(a, b, n - 1); }
  }

  lemma HappensToo(a: seq<Event>, b: seq<Event>, n: nat)
    requires n < |a| <= |b| && a == b[..|a|] && CanHappen(a, n)
    ensures CanHappen(b, n)
  {
    AfterPrefix(a, b, n);
  }

  /** The state after all of the events. */
  ghost function End(events: seq<Event>): History {
    After(events, |events|)
  }

  lemma AfterNext(events: seq<Event>, n: nat)
    requires n < |events|
    ensures After(events, n + 1) == Step(After(events, n), events[n])
  {}

  lemma EndSnoc(events: seq<Event>, e: Event)
    ensures After(events + [e], |events|) == End(events) && End(events + [e]) == Step(End(events), e)
  {
    var all, n := events + [e], |events|;
    AfterPrefix(events, all, n);
    AfterNext(all, n);
    assert all[n] == e && |all| == n + 1;
  }

  /** One more event. */
  lemma RunOn(events: seq<Event>, e: Event)
    requires CanRun(events) && Possible(End(events), e) && OnScreen(e)
    ensures CanRun(events + [e]) && End(events + [e]) == Step(End(events), e)
  {
    var all := events + [e];
    EndSnoc(events, e);
    forall n | 0 <= n < |all|
      ensures CanHappen(all, n)
    {
      if n < |events| { HappensToo(events, all, n); }
    }
  }

  /** A process that has saved all it has seen, posted `log` and forgotten nothing. */
  ghost function Watching(seen: set<string>, base: set<string>, log: seq<Post>): History {
    History(seen, seen, log, true, base, 0, {}, {}, {})
  }

  lemma WatchStarts(screens: seq<seq<Message>>)
    requires Quiet(screens) && |SeenIn(screens, 1)| <= KEPT
    ensures CanRun(Watch(screens, 1)) && End(Watch(screens, 1)) == Watching(SeenIn(screens, 1), Ids(screens[0]), [])
  {
    assert SeenIn(screens, 0) == {};
    assert SeenIn(screens, 1) == Ids(screens[0]);
    RunOn([], Started(true, screens[0], Some(Ids(screens[0]))));
    assert [] + Watch(screens, 1) == Watch(screens, 1);
  }

  lemma WatchGoesOn(h: History, base: set<string>, screen: seq<Message>)
    requires h == Watching(h.seen, base, []) && |screen| <= 25 && Silent(screen) && |h.seen + Ids(screen)| <= KEPT
    ensures var (seen, e) := (h.seen + Ids(screen), Ticked(screen, Clean, Some(h.seen + Ids(screen))));
      Possible(h, e) && OnScreen(e) && Step(h, e) == Watching(seen, base, [])
  {
    SilentTick(h.seen, screen);
  }

  lemma {:induction false} WatchSaves(screens: seq<seq<Message>>, n: nat)
    requires Quiet(screens) && 1 <= n <= |screens| && |SeenIn(screens, n)| <= KEPT
    ensures CanRun(Watch(screens, n)) && |Watch(screens, n)| == n
    ensures End(Watch(screens, n)) == Watching(SeenIn(screens, n), Ids(screens[0]), [])
  {
    if n == 1 {
      WatchStarts(screens);
    } else {
      SubsetSmaller(SeenIn(screens, n - 1), SeenIn(screens, n));
      WatchSaves(screens, n - 1);
      WatchGoesOn(End(Watch(screens, n - 1)), Ids(screens[0]), screens[n - 1]);
      RunOn(Watch(screens, n - 1), Ticked(screens[n - 1], Clean, Some(SeenIn(screens, n))));
    }
  }

  /** `m` carries the one signal `x`; `o` is another message, without signals. */
  ghost predicate Pair(seen: set<string>, m: Message, x: string, o: Message) {
    m.signals == [x] && o.signals == [] && m.id !in seen && o.id !in seen && m.id != o.id
  }

  /** The 500th message is posted and saved. */
  lemma PostedAndSaved(seen: set<string>, base: set<string>, rest: seq<Message>, m: Message, x: string)
    requires m.signals == [x] && m.id !in seen && |seen| < KEPT && Ids(rest) <= seen && |rest| < 25
    ensures var (h, e) := (Watching(seen, base, []), Ticked(rest + [m], Clean, Some(seen + {m.id})));
      Possible(h, e) && OnScreen(e) && Step(h, e) == Watching(seen + {m.id}, base, [Post(m.id, 0, x)])
  {
    LastIsNew(seen, rest, m);
    HandleOne(seen, m, x);
  }

  /** The 501st may push it out of the file. */
  lemma PushedOut(seen: set<string>, base: set<string>, rest: seq<Message>, m: Message, x: string, o: Message)
    requires Pair(seen, m, x, o) && |seen| + 1 == KEPT && Ids(rest) <= seen && |rest| < 24
    ensures var (h, e) := (Watching(seen + {m.id}, base, [Post(m.id, 0, x)]),
                           Ticked(rest + [m, o], Clean, Some(seen + {o.id})));
      && Possible(h, e) && OnScreen(e)
      && Step(h, e) == h.(seen := seen + {m.id} + {o.id}, file := seen + {o.id})
  {
    assert Ids(rest + [m]) <= seen + {m.id};
    assert rest + [m] + [o] == rest + [m, o];
    LastIsNew(seen + {m.id}, rest + [m], o);
  }

  lemma Restarts(h: History, initial: seq<Message>)
    requires h.file != {} && 1 <= |initial| <= 50
    ensures Possible(h, Started(true, initial, None)) && OnScreen(Started(true, initial, None))
    ensures var h' := Step(h, Started(true, initial, None));
      h'.running && h'.seen == h.file && h'.log == h.log && h'.dropped == h.dropped + h.unsaved
  {}

  /** A new process that has not heard of `m` posts it. */
  lemma PostedAgain(h: History, rest: seq<Message>, m: Message, x: string, o: Message)
    requires h.running && m.signals == [x] && m.id !in h.seen && o.id in h.seen && Ids(rest) <= h.seen && |rest| < 24
    ensures var e := Ticked(rest + [m, o], Clean, None);
      Possible(h, e) && OnScreen(e) && Step(h, e).log == h.log + [Post(m.id, 0, x)] && Step(h, e).dropped == h.dropped
  {
    assert rest + [m] + [o] == rest + [m, o];
    LastIsNew(h.seen, rest, m);
    HandleOne(h.seen, m, x);
    TickSnoc(h.seen, rest + [m], o);
  }

  /** Some screens with 499 ids, then one with `m` and one with `m` and `o`, all three new. */
  ghost predicate Overflows(screens: seq<seq<Message>>, before: seq<Message>, rest: seq<Message>,
                            m: Message, x: string, o: Message) {
    var seen := SeenIn(screens, |screens|);
    && Quiet(screens) && |seen| + 1 == KEPT && Pair(seen, m, x, o)
    && Ids(before) <= seen && |before| < 25 && Ids(rest) <= seen && |rest| < 24
  }

  lemma SavedOnce(screens: seq<seq<Message>>, before: seq<Message>, rest: seq<Message>,
                  m: Message, x: string, o: Message)
    returns (events: seq<Event>)
    requires Overflows(screens, before, rest, m, x, o)
    ensures |events| == |screens| + 1 && CanRun(events)
    ensures End(events) == Watching(SeenIn(screens, |screens|) + {m.id}, Ids(screens[0]), [Post(m.id, 0, x)])
  {
    var seen := SeenIn(screens, |screens|);
    WatchSaves(screens, |screens|);
    PostedAndSaved(seen, Ids(screens[0]), before, m, x);
    var e := Ticked(before + [m], Clean, Some(seen + {m.id}));
    RunOn(Watch(screens, |screens|), e);
    events := Watch(screens, |screens|) + [e];
  }

  lemma ThenLost(saved: seq<Event>, seen: set<string>, base: set<string>, rest: seq<Message>,
                 m: Message, x: string, o: Message)
    returns (events: seq<Event>)
    requires CanRun(saved) && End(saved) == Watching(seen + {m.id}, base, [Post(m.id, 0, x)])
    requires Pair(seen, m, x, o) && |seen| + 1 == KEPT && Ids(rest) <= seen && |rest| < 24
    ensures |events| == |saved| + 2 && saved == events[..|saved|] && CanRun(events)
    ensures var h := End(events);
      h.running && h.seen == seen + {o.id} && h.log == [Post(m.id, 0, x)] && h.dropped == {}
  {
    var e := Ticked(rest + [m, o], Clean, Some(seen + {o.id}));
    PushedOut(seen, base, rest, m, x, o);
    RunOn(saved, e);
    var start := Started(true, rest + [m, o], None);
    assert o.id in End(saved + [e]).file;
    Restarts(End(saved + [e]), rest + [m, o]);
    RunOn(saved + [e], start);
    events := saved + [e] + [start];
  }

  /**
   Some screens show 499 messages without signals, then `m` comes, then `o`.  The run can happen
   as it is, every write keeps 500 ids or all of them, and `m` is in the file once; yet after a
   restart that finds nothing unsaved its signal is posted again.
   */
  lemma SavedIsRepeated(screens: seq<seq<Message>>, before: seq<Message>, rest: seq<Message>,
                        m: Message, x: string, o: Message)
    returns (events: seq<Event>)
    requires Overflows(screens, before, rest, m, x, o)
    ensures |events| == |screens| + 4 && CanRun(events)
    ensures m.id in After(events, |screens| + 1).file
    ensures End(events).log == [Post(m.id, 0, x), Post(m.id, 0, x)] && End(events).dropped == {}
  {
    var saved := SavedOnce(screens, before, rest, m, x, o);
    var lost := ThenLost(saved, SeenIn(screens, |screens|), Ids(screens[0]), rest, m, x, o);
    var again := Ticked(rest + [m, o], Clean, None);
    PostedAgain(End(lost), rest, m, x, o);
    RunOn(lost, again);
    events := lost + [again];
    AfterPrefix(saved, events, |saved|);
    assert [Post(m.id, 0, x)] + [Post(m.id, 0, x)] == [Post(m.id, 0, x), Post(m.id, 0, x)];
  }

  // ---- Signal ids ----

  function Digit(n: nat): char
    requires n < 10
  {
    '0' + n as char
  }

  function Decimal(n: nat): string {
    if n < 10 then [Digit(n)] else Decimal(n / 10) + [Digit(n % 10)]
  }

  /** The number a text of digits names. */
  ghost function Value(s: string): int {
    if s == "" then 0 else 10 * Value(s[..|s| - 1]) + (s[|s| - 1] as int - 48)
  }

  /** The text names the number, without a leading zero. */
  lemma {:induction false} DecimalIs(n: nat)
    ensures Value(Decimal(n)) == n && (n > 0 ==> Decimal(n)[0] != '0')
  {
    var s := Decimal(n);
    if n < 10 {
      assert s[..0] == "" && Value("") == 0;
    } else {
      DecimalIs(n / 10);
      DecimalDigits(n / 10);
      assert s[..|s| - 1] == Decimal(n / 10);
    }
  }

  function SignalId(prefix: string, p: Post): string {
    prefix + p.id + [':'] + Decimal(p.index)
  }

  lemma {:induction false} DecimalDigits(n: nat)
    ensures |Decimal(n)| > 0 && forall i | 0 <= i < |Decimal(n)| :: '0' <= Decimal(n)[i] <= '9'
  {
    if n >= 10 { DecimalDigits(n / 10); }
  }

  lemma {:induction false} DecimalInjective(m: nat, n: nat)
    requires Decimal(m) == Decimal(n)
    ensures m == n
  {
    DecimalDigits(m / 10);
    DecimalDigits(n / 10);
    var dm, dn := Decimal(m), Decimal(n);
    assert dm[|dm| - 1] == Digit(m % 10) && dn[|dn| - 1] == Digit(n % 10);
    if m >= 10 && n >= 10 {
      assert dm[..|dm| - 1] == Decimal(m / 10) && dn[..|dn| - 1] == Decimal(n / 10);
      DecimalInjective(m / 10, n / 10);
    }
  }

  /** The id sent to the backend tells every two signals apart, whatever characters a message id has. */
  lemma SignalIdIff(prefix: string, p: Post, q: Post)
    ensures SignalId(prefix, p) == SignalId(prefix, q) <==> SameSignal(p, q)
  {
    if SignalId(prefix, p) == SignalId(prefix, q) {
      var dp, dq := Decimal(p.index), Decimal(q.index);
      DecimalDigits(p.index);
      DecimalDigits(q.index);
      SplitAtColon(prefix + p.id, dp, prefix + q.id, dq);
      DecimalInjective(p.index, q.index);
      assert p.id == (prefix + p.id)[|prefix|..] && q.id == (prefix + q.id)[|prefix|..];
    }
  }

  lemma SplitAtColon(a: string, d: string, b: string, e: string)
    requires a + [':'] + d == b + [':'] + e
    requires (forall i | 0 <= i < |d| :: d[i] != ':') && forall i | 0 <= i < |e| :: e[i] != ':'
    ensures a == b && d == e
  {
    var s := a + [':'] + d;
    assert s[|a|] == ':' && s[|b|] == ':';
    assert a == s[..|a|] && b == s[..|b|] && d == s[|a| + 1..] && e == s[|b| + 1..];
  }

  // ---- A channel in which that happens ----

  /** Messages 1 to `n`, without signals. */
  function Numbered(n: nat): seq<Message> {
    if n == 0 then [] else Numbered(n - 1) + [Message(Decimal(n), [])]
  }

  lemma {:induction false} NumberedAre(n: nat)
    ensures |Numbered(n)| == n && Silent(Numbered(n))
  {
    if n > 0 { NumberedAre(n - 1); }
  }

  lemma IdsSnoc(msgs: seq<Message>, m: Message)
    ensures Ids(msgs + [m]) == Ids(msgs) + {m.id}
  {
    var all := msgs + [m];
    assert m in all && forall x | x in msgs :: x in all;
  }

  lemma {:induction false} NumberedIds(n: nat)
    ensures |Ids(Numbered(n))| == n && forall k: nat | k == 0 || k > n :: Decimal(k) !in Ids(Numbered(n))
  {
    if n > 0 {
      NumberedIds(n - 1);
      IdsSnoc(Numbered(n - 1), Message(Decimal(n), []));
      forall k: nat | k == 0 || k > n
        ensures Decimal(k) != Decimal(n)
      {
        if Decimal(k) == Decimal(n) { DecimalInjective(k, n); }
      }
    }
  }

  /** The last `k` of a list of messages. */
  function Last(msgs: seq<Message>, k: nat): seq<Message> {
    if |msgs| <= k then msgs else msgs[|msgs| - k..]
  }

  lemma LastSome(msgs: seq<Message>, k: nat)
    ensures |Last(msgs, k)| <= k && Ids(Last(msgs, k)) <= Ids(msgs)
    ensures Silent(msgs) ==> Silent(Last(msgs, k))
    ensures k > 0 && msgs != [] ==> msgs[|msgs| - 1] in Last(msgs, k)
  {
    assert forall m | m in Last(msgs, k) :: m in msgs;
    if k > 0 && msgs != [] {
      var last := Last(msgs, k);
      assert last[|last| - 1] == msgs[|msgs| - 1];
    }
  }

  /** The screens of a channel whose messages come one by one. */
  function Screens(n: nat): seq<seq<Message>> {
    if n == 0 then [] else Screens(n - 1) + [Last(Numbered(n), 25)]
  }

  lemma {:induction false} SeenInPrefix(a: seq<seq<Message>>, b: seq<seq<Message>>, n: nat)
    requires n <= |a| <= |b| && a == b[..|a|]
    ensures SeenIn(b, n) == SeenIn(a, n)
  {
    if n > 0 { SeenInPrefix(a, b, n - 1); }
  }

  /** The screen after message `n` shows it, and only messages up to it. */
  lemma ScreenIs(n: nat)
    requires n > 0
    ensures var screen := Last(Numbered(n), 25);
      && 0 < |screen| <= 25 && Silent(screen)
      && Ids(Numbered(n - 1)) + Ids(screen) == Ids(Numbered(n))
  {
    var m, screen := Message(Decimal(n), []), Last(Numbered(n), 25);
    NumberedAre(n);
    LastSome(Numbered(n), 25);
    IdsSnoc(Numbered(n - 1), m);
    assert Numbered(n)[|Numbered(n)| - 1] == m && m.id in Ids(screen);
  }

  lemma {:induction false} ScreensAre(n: nat)
    ensures |Screens(n)| == n && SeenIn(Screens(n), n) == Ids(Numbered(n)) && (n > 0 ==> Quiet(Screens(n)))
  {
    if n > 0 {
      var screens, before := Screens(n), Screens(n - 1);
      ScreensAre(n - 1);
      ScreenIs(n);
      assert screens == before + [Last(Numbered(n), 25)];
      SeenInPrefix(before, screens, n - 1);
      assert SeenIn(screens, n) == SeenIn(screens, n - 1) + Ids(screens[n - 1]);
    }
  }

  /** Messages come one by one, a poll after each; only the 500th carries a signal, and it is posted twice. */
  lemma ChannelRepeats(n: nat, x: string) returns (events: seq<Event>)
    requires n == KEPT
    ensures CanRun(events) && |events| == n + 3
    ensures End(events).log == [Post(Decimal(n), 0, x), Post(Decimal(n), 0, x)] && End(events).dropped == {}
  {
    var k := n - 1;
    ScreensAre(k);
    NumberedIds(k);
    LastSome(Numbered(k), 24);
    LastSome(Numbered(k), 23);
    var m, o := Message(Decimal(n), [x]), Message(Decimal(n + 1), []);
    if m.id == o.id { DecimalInjective(n, n + 1); }
    events := SavedIsRepeated(Screens(k), Last(Numbered(k), 24), Last(Numbered(k), 23), m, x, o);
  }

  // ---- Unchanged content ----

  /** Every snapshot shows the content on record for its messages. */
  ghost predicate Unchanged(e: Event, content: map<string, seq<string>>) {
    e.Ticked? ==> forall m | m in e.msgs :: m.id in content && content[m.id] == m.signals
  }

  ghost predicate FromContent(posts: seq<Post>, content: map<string, seq<string>>) {
    forall p | p in posts :: p.id in content && p.index < |content[p.id]| && p.signal == content[p.id][p.index]
  }

  lemma {:induction false} TickContent(p: Progress, msgs: seq<Message>, n: nat, content: map<string, seq<string>>)
    requires n <= |msgs| && FromContent(p.posts, content)
    requires forall m | m in msgs :: m.id in content && content[m.id] == m.signals
    ensures FromContent(HandleTo(p, msgs, n).posts, content)
  {
    if n > 0 {
      TickContent(p, msgs, n - 1, content);
      HandleContent(HandleTo(p, msgs, n - 1), msgs[n - 1], content);
    }
  }

  lemma HandleContent(p: Progress, m: Message, content: map<string, seq<string>>)
    requires FromContent(p.posts, content) && m.id in content && content[m.id] == m.signals
    ensures FromContent(Handle(p, m).posts, content)
  {
    PostsAre(m, Posted(m, p.fault));
  }

  lemma {:induction false} RunContent(events: seq<Event>, n: nat, content: map<string, seq<string>>)
    requires n <= |events| && forall e | e in events :: Unchanged(e, content)
    ensures FromContent(After(events, n).log, content)
  {
    if n > 0 {
      RunContent(events, n - 1, content);
      var e, h := events[n - 1], After(events, n - 1);
      assert Unchanged(e, content);
      if e.Ticked? { TickContent(Progress(h.seen, [], e.fault, false), e.msgs, |e.msgs|, content); }
    }
  }

  /** With unchanged content, whatever is posted twice under one id is the same signal. */
  lemma RepeatsAreIdentical(events: seq<Event>, n: nat, content: map<string, seq<string>>, prefix: string,
                            i: nat, j: nat)
    requires n <= |events| && forall e | e in events :: Unchanged(e, content)
    requires var log := After(events, n).log;
      i < j < |log| && SignalId(prefix, log[i]) == SignalId(prefix, log[j])
    ensures After(events, n).log[i] == After(events, n).log[j]
  {
    RunContent(events, n, content);
    SignalIdIff(prefix, After(events, n).log[i], After(events, n).log[j]);
  }
}
