/** Wakes from end to end: wakeUnit's lookup and its send (pkg/systemd/unit.go), with which StopUnit, KillUnit and
    the dispatch loop end, as steps among those of the lifecycle protocol, down to the poll loop of the task whose
    unit they name. Here a handler is woken by a send on its channel and by nothing else. */
module WakeDelivery {
  import opened Options
  import opened Lifecycle
  import opened LifecycleProofs
  import opened LifecycleRegistration
  import H = TaskHandler

  // What a lookup found: a channel that manager mgr made, or none.
  datatype Target = Target(mgr: nat, ch: Option<nat>)

  // wakes: the wakeUnit calls between their lookup and their send.
  datatype System = System(s: State, wakes: map<nat, Target>)

  datatype Event =
    | OfDriver(e: Lifecycle.Event)
    | LookUp(k: nat, mgr: nat, unit: string)
    | Send(k: nat)

  const Start := System(Lifecycle.Init, map[])

  predicate CanDo(x: System, e: Event) {
    match e
    case OfDriver(le) => Enabled(x.s, le) && !(le.HandlerMoves? && le.he == H.Wake)
    case LookUp(k, mgr, _) => k !in x.wakes && mgr < |x.s.w.mgrs|
    case Send(k) => k in x.wakes
  }

  predicate Polls(t: Handler, target: Target) {
    target.ch.Some? && t.mgr == target.mgr && t.wake == target.ch
  }

  function Woken(t: Handler): Handler {
    t.(h := H.Step(t.h, H.Wake))
  }

  // The send reaches whoever polls the channel, among the first n handlers.
  function WakeFirst(w: World, target: Target, n: nat): World
    requires n <= |w.handlers|
  {
    w.(handlers := seq(|w.handlers|, i requires 0 <= i < |w.handlers| =>
      if i < n && Polls(w.handlers[i], target) then Woken(w.handlers[i]) else w.handlers[i]))
  }

  function Do(x: System, e: Event): System
    requires CanDo(x, e)
  {
    match e
    case OfDriver(le) => x.(s := Step(x.s, le))
    case LookUp(k, mgr, unit) => x.(wakes := x.wakes[k := Target(mgr, x.s.w.mgrs[mgr].Lookup(unit))])
    case Send(k) =>
      System(x.s.(w := WakeFirst(x.s.w, x.wakes[k], |x.s.w.handlers|)), x.wakes - {k})
  }

  // Runs under the hypotheses of CalmRun.
  predicate InOrder(x: System, e: Event) {
    e.OfDriver? ==> Disciplined(x.s, e.e) && SwapsWhenIdle(x.s, e.e)
  }

  ghost predicate Goes(x: System, es: seq<Event>, x': System)
    decreases |es|
  {
    if es == [] then x' == x
    else CanDo(x, es[0]) && InOrder(x, es[0]) && Goes(Do(x, es[0]), es[1..], x')
  }

  ghost predicate Sound(x: System) {
    OwnInv(x.s) && RegInv(x.s)
  }

  // ---- A send is the Wake of every handler that polls the channel ----

  lemma {:induction false} WakingKeeps(s: State, target: Target, n: nat)
    requires OwnInv(s) && RegInv(s) && n <= |s.w.handlers|
    ensures OwnInv(s.(w := WakeFirst(s.w, target, n))) && RegInv(s.(w := WakeFirst(s.w, target, n)))
  {
    if n == 0 {
      assert WakeFirst(s.w, target, 0).handlers == s.w.handlers;
      assert s.(w := WakeFirst(s.w, target, 0)) == s;
    } else {
      WakingKeeps(s, target, n - 1);
      var before, wake := s.(w := WakeFirst(s.w, target, n - 1)), HandlerMoves(n - 1, H.Wake);
      if Polls(s.w.handlers[n - 1], target) {
        assert Step(before, wake).w.handlers == WakeFirst(s.w, target, n).handlers;
        assert Step(before, wake) == s.(w := WakeFirst(s.w, target, n));
        StepKeepsOwn(before, wake);
        StepKeepsReg(before, wake);
      } else {
        assert WakeFirst(s.w, target, n).handlers == before.w.handlers;
      }
    }
  }

  lemma DoKeepsSound(x: System, e: Event)
    requires Sound(x) && CanDo(x, e) && InOrder(x, e)
    ensures Sound(Do(x, e))
  {
    match e
    case OfDriver(le) =>
      StepKeepsOwn(x.s, le);
      StepKeepsReg(x.s, le);
    case LookUp(_, _, _) =>
    case Send(k) => WakingKeeps(x.s, x.wakes[k], |x.s.w.handlers|);
  }

  lemma {:induction false} GoingKeepsSound(x: System, es: seq<Event>, x': System)
    requires Sound(x) && Goes(x, es, x')
    ensures Sound(x')
    decreases |es|
  {
    if es != [] {
      DoKeepsSound(x, es[0]);
      hide Sound, Do, CanDo, InOrder;
      GoingKeepsSound(Do(x, es[0]), es[1..], x');
    }
  }

  // ---- What stays while others run ----

  // Handler h is who it was, and has begun no read and forgotten no wake since.
  predicate Follows(w: World, w': World, h: nat)
    requires h < |w.handlers|
  {
    && h < |w'.handlers| && w'.handlers[h].(h := w.handlers[h].h) == w.handlers[h]
    && w'.handlers[h].h.readAt == w.handlers[h].h.readAt && w.handlers[h].h.wakes <= w'.handlers[h].h.wakes
    && (w.handlers[h].h.started ==> w'.handlers[h].h.started)
  }

  lemma HandlerFollows(t: H.State, he: H.Event)
    requires H.Enabled(t, he) && he != H.PollBeginRead
    ensures H.Step(t, he).readAt == t.readAt && t.wakes <= H.Step(t, he).wakes && (t.started ==> H.Step(t, he).started)
  {
    H.WithoutReadStep(t, he);
    H.FlagsStay(t, he);
  }

  predicate Reads(e: Event, h: nat) {
    e == OfDriver(HandlerMoves(h, H.PollBeginRead))
  }

  lemma DriverFollows(s: State, e: Lifecycle.Event, h: nat)
    requires Enabled(s, e) && h < |s.w.handlers| && e != HandlerMoves(h, H.PollBeginRead)
    ensures Follows(s.w, Step(s, e).w, h)
  {
    if e.HandlerMoves? && e.i == h {
      HandlerFollows(s.w.handlers[h].h, e.he);
    } else if e.Advance? && EffectOf(s.w, s.calls[e.c], e.a).OnHandler? && EffectOf(s.w, s.calls[e.c], e.a).i == h {
      HandlerFollows(s.w.handlers[h].h, EffectOf(s.w, s.calls[e.c], e.a).he);
    }
    hide H.Step, H.Enabled, H.New, NextCall;
  }

  lemma SystemFollows(x: System, e: Event, h: nat)
    requires CanDo(x, e) && h < |x.s.w.handlers| && !Reads(e, h)
    ensures Follows(x.s.w, Do(x, e).s.w, h)
  {
    if e.OfDriver? {
      DriverFollows(x.s, e.e, h);
    } else if e.Send? {
      HandlerFollows(x.s.w.handlers[h].h, H.Wake);
    }
    hide H.Step, H.Enabled, Step, Enabled;
  }

  lemma {:induction false} RunFollows(x: System, es: seq<Event>, x': System, h: nat)
    requires Goes(x, es, x') && h < |x.s.w.handlers| && forall j | 0 <= j < |es| :: !Reads(es[j], h)
    ensures Follows(x.s.w, x'.s.w, h)
    decreases |es|
  {
    if es != [] {
      SystemFollows(x, es[0], h);
      assert forall j | 0 <= j < |es| - 1 :: es[1..][j] == es[j + 1];
      hide Do, CanDo, InOrder;
      RunFollows(Do(x, es[0]), es[1..], x', h);
    }
  }

  // A handler never changes hands, managers or channels.
  predicate Same(w: World, w': World, h: nat)
    requires h < |w.handlers|
  {
    h < |w'.handlers| && w'.handlers[h].(h := w.handlers[h].h) == w.handlers[h]
        && (w.handlers[h].h.started ==> w'.handlers[h].h.started)
  }

  lemma SystemKeepsSame(x: System, e: Event, h: nat)
    requires CanDo(x, e) && h < |x.s.w.handlers|
    ensures Same(x.s.w, Do(x, e).s.w, h)
  {
    if Reads(e, h) {
      H.FlagsStay(x.s.w.handlers[h].h, H.PollBeginRead);
      hide H.Step, H.Enabled;
    } else {
      SystemFollows(x, e, h);
      hide Do, CanDo;
    }
  }

  // A lookup keeps what it found until its send.
  lemma {:induction false} TargetStays(x: System, es: seq<Event>, x': System, k: nat, h: nat)
    requires Goes(x, es, x') && k in x.wakes && h < |x.s.w.handlers| && forall j | 0 <= j < |es| :: es[j] != Send(k)
    ensures k in x'.wakes && x'.wakes[k] == x.wakes[k] && Same(x.s.w, x'.s.w, h)
    decreases |es|
  {
    if es != [] {
      SystemKeepsSame(x, es[0], h);
      assert es[0] != Send(k);
      assert k in Do(x, es[0]).wakes && Do(x, es[0]).wakes[k] == x.wakes[k];
      assert forall j | 0 <= j < |es| - 1 :: es[1..][j] == es[j + 1];
      hide Do, CanDo, InOrder;
      TargetStays(Do(x, es[0]), es[1..], x', k, h);
    }
  }

  lemma {:induction false} RunKeepsSame(x: System, es: seq<Event>, x': System, h: nat)
    requires Goes(x, es, x') && h < |x.s.w.handlers|
    ensures Same(x.s.w, x'.s.w, h)
    decreases |es|
  {
    if es != [] {
      SystemKeepsSame(x, es[0], h);
      hide Do, CanDo, InOrder;
      RunKeepsSame(Do(x, es[0]), es[1..], x', h);
    }
  }

  // ---- The promise ----

  // In x, wakeUnit call k looks the unit of tracked task id up, which the task's destroy has not unregistered.
  ghost predicate LooksUp(x: System, id: string, k: nat, x': System) {
    && id in x.s.w.tasks && x.s.w.tasks[id] < |x.s.w.handlers| && (forall c :: !UnregisteredBy(x.s, c, id))
    && k !in x.wakes && x.s.w.mgrs != []
    && x' == Do(x, LookUp(k, |x.s.w.mgrs| - 1, x.s.w.handlers[x.s.w.tasks[id]].unit))
  }

  /** The lookup of a wakeUnit for the unit of a tracked task finds the channel that the task's handler polls; and
      whatever runs until the send, the send wakes that handler. */
  lemma SendWakesTheTask(es0: seq<Event>, x: System, id: string, k: nat, x1: System, es: seq<Event>, y: System)
    requires Goes(Start, es0, x) && LooksUp(x, id, k, x1) && Goes(x1, es, y)
    requires forall j | 0 <= j < |es| :: es[j] != Send(k)
    ensures Sound(y) && CanDo(y, Send(k))
    ensures var h := x.s.w.tasks[id];
            && h < |y.s.w.handlers| && y.s.w.handlers[h].id == id && y.s.w.handlers[h].h.started
            && Do(y, Send(k)).s.w.handlers[h] == Woken(y.s.w.handlers[h])
  {
    var h := x.s.w.tasks[id];
    hide Sound, Do, CanDo, LooksUp, Goes, Woken;
    StartIsSound();
    GoingKeepsSound(Start, es0, x);
    LookUpFindsTheChannel(x, id, k, x1);
    GoingKeepsSound(x1, es, y);
    TargetStays(x1, es, y, k, h);
    SendReaches(y, k, h);
  }

  lemma StartIsSound()
    ensures Sound(Start)
  {
  }

  lemma LookUpFindsTheChannel(x: System, id: string, k: nat, x': System)
    requires Sound(x) && LooksUp(x, id, k, x')
    ensures Sound(x') && x'.s == x.s && k in x'.wakes && x.s.w.tasks[id] < |x.s.w.handlers|
    ensures var t := x.s.w.handlers[x.s.w.tasks[id]];
            Polls(t, x'.wakes[k]) && t.id == id && t.h.started
  {
    assert TrackedOk(x.s.w, id) && TrackedReg(x.s.w, id);
  }

  lemma SendReaches(y: System, k: nat, h: nat)
    requires k in y.wakes && h < |y.s.w.handlers| && Polls(y.s.w.handlers[h], y.wakes[k])
    ensures CanDo(y, Send(k)) && Do(y, Send(k)).s.w.handlers[h] == Woken(y.s.w.handlers[h])
  {
  }

  predicate Ended(t: H.State) {
    t.poll == H.Finished && (t.HasExited() || t.cancelled)
  }

  // The poll loop can go no further but for a tick.
  ghost predicate Rests(t: H.State) {
    forall e | H.PollerStep(e) && !H.IsTick(e) :: !H.Enabled(t, e)
  }

  /** End to end. After the send of a StopUnit, a KillUnit or a change notification for a tracked task's unit, on
      every run, the task's handler has a token pending, is about to read the unit's state, has begun a read since,
      or has finished, for an exit or for Stop; and once its loop can go no further but for a tick, it has read or
      finished. */
  lemma StopUnitsWakeIsServed(es0: seq<Event>, x: System, id: string, k: nat, x1: System, es1: seq<Event>, y: System,
                              es2: seq<Event>, z: System)
    requires Goes(Start, es0, x) && LooksUp(x, id, k, x1) && Goes(x1, es1, y)
    requires forall j | 0 <= j < |es1| :: es1[j] != Send(k)
    requires CanDo(y, Send(k)) && Goes(Do(y, Send(k)), es2, z)
    ensures x.s.w.tasks[id] < |z.s.w.handlers|
    ensures var h := x.s.w.tasks[id];
            var t := z.s.w.handlers[h].h;
            || (exists j :: 0 <= j < |es2| && Reads(es2[j], h))
            || Ended(t)
            || ((t.token || H.AboutToRead(t)) && !Rests(t))
  {
    SendWakesTheTask(es0, x, id, k, x1, es1, y);
    hide Sound, Do, CanDo, Goes, LooksUp;
    WokenIsServed(y, k, x.s.w.tasks[id], es2, z);
  }

  lemma WokenIsServed(y: System, k: nat, h: nat, es: seq<Event>, z: System)
    requires Sound(y) && CanDo(y, Send(k)) && h < |y.s.w.handlers| && y.s.w.handlers[h].h.started
    requires Do(y, Send(k)).s.w.handlers[h] == Woken(y.s.w.handlers[h]) && Goes(Do(y, Send(k)), es, z)
    ensures h < |z.s.w.handlers|
    ensures var t := z.s.w.handlers[h].h;
            || (exists j :: 0 <= j < |es| && Reads(es[j], h))
            || Ended(t)
            || ((t.token || H.AboutToRead(t)) && !Rests(t))
  {
    var sent := Do(y, Send(k));
    DoKeepsSound(y, Send(k));
    GoingKeepsSound(sent, es, z);
    assert |sent.s.w.handlers| == |y.s.w.handlers|;
    RunKeepsSame(sent, es, z, h);
    SoundHandler(y, h);
    SoundHandler(z, h);
    hide Sound, Do, CanDo, Goes, InOrder, Rests;
    if forall j | 0 <= j < |es| :: !Reads(es[j], h) {
      RunFollows(sent, es, z, h);
      NothingToWaitFor(z.s.w.handlers[h].h);
    }
  }

  lemma SoundHandler(x: System, h: nat)
    requires Sound(x) && h < |x.s.w.handlers|
    ensures H.Inv(x.s.w.handlers[h].h)
  {
  }

  lemma NothingToWaitFor(t: H.State)
    requires H.Inv(t) && t.started && t.readAt < t.wakes
    ensures Ended(t) || ((t.token || H.AboutToRead(t)) && !Rests(t))
  {
    if t.token && t.poll != H.Finished {
      H.PendingWakeKeepsTheLoopGoing(t, None, None, 0);
    }
    assert H.PollerStep(H.PollCheckFirst) && H.PollerStep(H.PollBeginRead);
  }
}
