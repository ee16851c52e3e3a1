/** The handler's methods in program order (pkg/task/state.go). Between any two critical sections, and
    across every request to systemd, Interfere lets everything else about the handler happen. */
module HandlerObjects {
  import opened Options
  import opened Systemd
  import opened TaskHandler
  import opened Schedules

  ghost predicate Reaches(s: State, s': State) {
    exists es :: Path(s, es, s')
  }

  lemma {:induction false} PathsCompose(s: State, es: seq<Event>, mid: State, fs: seq<Event>, s': State)
    requires Path(s, es, mid) && Path(mid, fs, s')
    ensures Path(s, es + fs, s')
    decreases |es|
  {
    if es == [] {
      assert es + fs == fs;
    } else {
      PathsCompose(Step(s, es[0]), es[1..], mid, fs, s');
      assert (es + fs)[1..] == es[1..] + fs;
    }
  }

  lemma ReachesOn(s: State, mid: State, s': State)
    requires Reaches(s, mid) && Reaches(mid, s')
    ensures Reaches(s, s')
  {
    var es :| Path(s, es, mid);
    var fs :| Path(mid, fs, s');
    PathsCompose(s, es, mid, fs, s');
  }

  lemma OneStep(s: State, e: Event)
    requires Inv(s) && Enabled(s, e) && Orderly(s, e)
    ensures Inv(Step(s, e)) && Reaches(s, Step(s, e))
  {
    StepKeepsInv(s, e);
    assert Path(Step(s, e), [], Step(s, e));
    assert [e][1..] == [];
    assert Path(s, [e], Step(s, e));
  }

  lemma ExitStays(s: State, s': State)
    requires Inv(s) && s.started && Reaches(s, s')
    ensures s'.started
    ensures s.HasExited() ==> s'.HasExited() && TaskStatus(s') == TaskStatus(s)
  {
    var es :| Path(s, es, s');
    if s.HasExited() {
      ExitIsFinal(s, es, s');
    } else {
      FlagsStayOnRuns(s, es, s');
    }
  }

  lemma {:induction false} FlagsStayOnRuns(s: State, es: seq<Event>, s': State)
    requires Path(s, es, s')
    ensures (s.started ==> s'.started) && (s.cancelled ==> s'.cancelled)
    decreases |es|
  {
    if es != [] {
      FlagsStay(s, es[0]);
      hide Step, Enabled, Orderly;
      FlagsStayOnRuns(Step(s, es[0]), es[1..], s');
    }
  }

  lemma CancelledStays(s: State, s': State)
    requires Reaches(s, s')
    ensures s.cancelled ==> s'.cancelled
  {
    var es :| Path(s, es, s');
    FlagsStayOnRuns(s, es, s');
  }

  // What an interfering event may not be: a step of the handleStateChange call o, or of the poll loop when
  // o is its own.
  predicate Mine(e: Event, o: nat) {
    if o == POLLER then PollerStep(e) else (e.Observe? || e.Inspect? || e.Resolve? || e.Publish?) && e.o == o
  }

  // What a call finds again after others have run.
  predicate StillThere(s: State, s': State, o: nat) {
    && s'.started
    && (o in s'.observers <==> o in s.observers)
    && (o in s.observers && o in s'.observers ==> s'.observers[o] == s.observers[o])
    && (o == POLLER ==> s'.poll == s.poll && (s.token ==> s'.token))
    && (s.cancelled ==> s'.cancelled)
    && (s.HasExited() ==> s'.HasExited())
  }

  lemma OthersStep(s: State, e: Event, o: nat)
    requires s.started && Enabled(s, e) && !Mine(e, o)
    ensures StillThere(s, Step(s, e), o)
  {
  }

  // One turn of the poll loop: what goes on while its select waits, what it hears then, what systemd answers
  // if it looks, and what goes on meanwhile.
  datatype Turn = Turn(
    wait: seq<Event>, heard: Event, reading: Option<UnitState>, status: Option<ExitStatus>, at: int,
        env: seq<seq<Event>>)

  predicate FindsItDown(turn: Turn) {
    turn.reading.Some? && turn.reading.value.IsTerminal()
  }

  // A turn that finds the unit down on a tick, or on a wake that came while it waited.
  predicate Exits(turn: Turn) {
    FindsItDown(turn) && (turn.heard.PollTick? || (turn.heard.PollWoken? && Wake in turn.wait))
  }

  // The i-th turn hears that the loop has been cancelled: before the loop began, or during a wait since.
  predicate Stops(script: seq<Turn>, i: nat, cancelled: bool)
    requires i < |script|
  {
    script[i].heard.PollStopped? && (cancelled || exists k | 1 <= k <= i :: Cancel in script[k].wait)
  }

  // A turn that ends the loop when nothing else goes on and no wake is pending.
  predicate Ends(turn: Turn, cancelled: bool) {
    (turn.heard.PollTick? && FindsItDown(turn)) || (turn.heard.PollStopped? && cancelled)
  }

  predicate Quiet(script: seq<Turn>) {
    forall i | 0 <= i < |script| :: script[i].wait == [] && NobodyElse(script[i].env)
  }

  // What a look at the unit makes of a task's state, if nobody else looks.
  function StateAfter(state: TaskState, reading: Option<UnitState>): TaskState {
    if state == TaskExited || reading == None then state
    else if reading.value == Active then TaskRunning
    else if reading.value == Inactive || reading.value == Failed then TaskExited
    else TaskUnknown
  }

  class Handler {
    // The handler's own fields.
    var state: TaskState
    var exitResult: Option<ExitResult>
    var completedAt: Option<int>
    var waitClosed: bool
    var wakePending: bool
    var cancelled: bool
    // Where its goroutines are, and the histories the promises are about.
    var started: bool
    var poll: PollPc
    var writing: bool
    var observers: map<nat, Observer>
    var closeCalls: nat
    var wakes: nat
    var readAt: nat

    function View(): State
      reads this
    {
      State(state, exitResult, completedAt, waitClosed, closeCalls, started, cancelled, poll, writing, observers,
          wakePending, wakes, readAt)
    }

    ghost predicate Valid()
      reads this
    {
      Inv(View())
    }

    constructor (initialState: TaskState)
      ensures Valid() && View() == New(initialState)
    {
      state, exitResult, completedAt, wakePending, cancelled := initialState, None, None, false, false;
      started, poll, writing, observers, wakes, readAt := false, Idle, false, map[], 0, 0;
      waitClosed := initialState == TaskExited;
      closeCalls := if initialState == TaskExited then 1 else 0;
    }

    /** SetExitResult. It may be called at any time; it keeps what the handler promises when it is called as
        meant, for an exited task before Start. */
    method SetExitResult(result: ExitResult, at: int)
      modifies this
      ensures old(Valid()) && !started && state == TaskExited ==> Valid() && Reaches(old(View()), View())
      ensures View() == old(View()).(exitResult := Some(result), completedAt := Some(at))
    {
      ghost var s := View();
      if Inv(s) && !started && state == TaskExited {
        OneStep(s, SetResult(result, at));
      }
      exitResult, completedAt := Some(result), Some(at);
    }

    method Start()
      requires Valid() && !started && MayLaunch(View())
      modifies this
      ensures Valid() && Reaches(old(View()), View()) && started && poll == CheckFirst && writing
      ensures TaskStatus(View()) == TaskStatus(old(View()))
    {
      OneStep(View(), Launch);
      started, poll, writing := true, CheckFirst, true;
    }

    method Become(s: State)
      modifies this
      ensures View() == s
    {
      state, exitResult, completedAt, waitClosed, wakePending :=
          s.state, s.exitResult, s.completedAt, s.closed, s.token;
      BecomeAt(s);
    }

    method BecomeAt(s: State)
      modifies this`cancelled, this`started, this`poll, this`writing, this`observers, this`closeCalls, this`wakes,
          this`readAt
      ensures cancelled == s.cancelled && started == s.started && poll == s.poll && writing == s.writing
      ensures observers == s.observers && closeCalls == s.closeCalls && wakes == s.wakes && readAt == s.readAt
    {
      cancelled, started, poll, writing := s.cancelled, s.started, s.poll, s.writing;
      observers, closeCalls, wakes, readAt := s.observers, s.closeCalls, s.wakes, s.readAt;
    }

    // Everything but call o, in the order of schedule es. What cannot happen, or is not asked for in order,
    // does not.
    method Interfere(o: nat, es: seq<Event>)
      requires Valid() && started
      modifies this
      ensures Valid() && Reaches(old(View()), View()) && StillThere(old(View()), View(), o)
      ensures es == [] ==> View() == old(View())
      ensures o == POLLER && Wake in es ==> wakePending
      ensures Cancel in es ==> cancelled
    {
      assert Path(View(), [], View());
      for i := 0 to |es|
        invariant Valid() && Reaches(old(View()), View()) && StillThere(old(View()), View(), o)
        invariant i == 0 ==> View() == old(View())
        invariant o == POLLER && Wake in es[..i] ==> wakePending
        invariant Cancel in es[..i] ==> cancelled
      {
        var s, e := View(), es[i];
        if !Mine(e, o) && Enabled(s, e) && Orderly(s, e) {
          OneStep(s, e);
          OthersStep(s, e, o);
          ReachesOn(old(View()), s, Step(s, e));
          hide Inv, Step, Enabled, Reaches;
          Become(Step(s, e));
        }
      }
    }

    method CloseWaitCh()
      modifies this`waitClosed, this`closeCalls
      ensures waitClosed && closeCalls == old(closeCalls) + 1
    {
      closeCalls := closeCalls + 1;
      if !waitClosed {
        waitClosed := true;
      }
    }

    method HasExited() returns (exited: bool)
      ensures exited == View().HasExited()
    {
      exited := state == TaskExited;
    }

    /** handleStateChange, run as call o. However many others race with it, once it returns a terminal
        reading has become an exit with a result and a closed wait channel; and what was published before
        it is untouched. */
    method HandleStateChange(o: nat, status: Option<ExitStatus>, at: int, env: seq<seq<Event>>)
      requires Valid() && started && o in observers && observers[o].Entered? && |env| == 2
      modifies this
      ensures Valid() && Reaches(old(View()), View()) && started && o !in observers
      ensures (o == POLLER ==> poll == old(poll))
      ensures old(observers[o]).seen.IsTerminal() ==> state == TaskExited && exitResult.Some? && waitClosed
      ensures old(state) == TaskExited ==> TaskStatus(View()) == TaskStatus(old(View()))
      ensures old(state) != TaskExited && !old(observers[o]).seen.IsTerminal() ==>
                View() == old(View()).(state := ToTaskState(old(observers[o]).seen), observers := observers)
      ensures env == [[], []] ==> wakePending == old(wakePending) && cancelled == old(cancelled)
      ensures old(state) != TaskExited && old(observers[o]).seen.IsTerminal() && env == [[], []] ==>
                state == TaskExited && completedAt == Some(at)
                && ResultFits(exitResult.value, old(observers[o]).seen, status)
    {
      ghost var s0 := View();
      var activeState := observers[o].seen;
      var cst := ToTaskState(activeState);
      // First critical section.
      OneStep(s0, Inspect(o));
      if state == TaskExited {
        observers := observers - {o};
        ExitStays(s0, View());
        return;
      }
      if cst != TaskExited {
        state := cst;
        observers := observers - {o};
        return;
      }
      observers := observers[o := Fetching(activeState)];
      ghost var s1 := View();
      assert s1 == Step(s0, Inspect(o));
      // No lock is held while systemd is asked for the exit status.
      Interfere(o, env[0]);
      ReachesOn(s0, s1, View());
      ghost var s2 := View();
      ResolveAndPublish(o, status, at, env[1]);
      ReachesOn(s0, s2, View());
    }

    // buildExitResult and the second critical section.
    method ResolveAndPublish(o: nat, status: Option<ExitStatus>, at: int, env: seq<Event>)
      requires Valid() && started && o in observers && observers[o].Fetching?
      modifies this
      ensures Valid() && Reaches(old(View()), View()) && started && o !in observers
      ensures (o == POLLER ==> poll == old(poll))
      ensures state == TaskExited && exitResult.Some? && waitClosed
      ensures env == [] ==> wakePending == old(wakePending) && cancelled == old(cancelled)
      ensures old(state) != TaskExited && env == [] ==>
                state == TaskExited && completedAt == Some(at)
                && ResultFits(exitResult.value, old(observers[o]).seen, status)
    {
      ghost var s0 := View();
      var activeState := observers[o].seen;
      OneStep(s0, Resolve(o, status));
      var result := BuildExitResult(activeState, status);
      observers := observers[o := Resolved(activeState, result)];
      ghost var s1 := View();
      assert s1 == Step(s0, Resolve(o, status));
      hide Step, Enabled;
      Interfere(o, env);
      ReachesOn(s0, s1, View());
      ghost var s2 := View();
      PublishResult(o, at);
      ReachesOn(s0, s2, View());
    }

    // The second critical section: the first result to get here wins.
    method PublishResult(o: nat, at: int)
      requires Valid() && started && o in observers && observers[o].Resolved?
      modifies this
      ensures Valid() && Reaches(old(View()), View()) && started && o !in observers
      ensures (o == POLLER ==> poll == old(poll))
      ensures state == TaskExited && exitResult.Some? && waitClosed
      ensures wakePending == old(wakePending) && cancelled == old(cancelled)
      ensures TaskStatus(View()) ==
                if old(state) == TaskExited then TaskStatus(old(View()))
                    else Status(TaskExited, Some(old(observers[o]).result), Some(at))
    {
      ghost var s := View();
      OneStep(s, TaskHandler.Publish(o, at));
      assert s.HasExited() ==> s.exitResult.Some? && s.closed;
      hide Inv, Reaches;
      SetExited(o, at);
    }

    method SetExited(o: nat, at: int)
      requires o in observers && observers[o].Resolved?
      modifies this`observers, this`state, this`completedAt, this`exitResult, this`waitClosed, this`closeCalls
      ensures View() == PublishSection(old(View()), o, at)
    {
      var result := observers[o].result;
      observers := observers - {o};
      if state != TaskExited {
        state := TaskExited;
        completedAt := Some(at);
        exitResult := Some(result);
        CloseWaitCh();
      }
    }

    /** checkTaskState. It reports an exit exactly when there is one to report, and a terminal reading makes
        one. */
    method CheckTaskState(turn: Turn) returns (exited: bool)
      requires Valid() && started && poll == CheckFirst && |turn.env| == 7
      modifies this
      ensures Valid() && Reaches(old(View()), View()) && started
      ensures if exited then poll == Finished && state == TaskExited else poll == Selecting
      ensures FindsItDown(turn) ==> exited
      ensures NobodyElse(turn.env) ==>
                state == StateAfter(old(state), turn.reading) && (exited <==> state == TaskExited)
      ensures NobodyElse(turn.env) ==> wakePending == old(wakePending) && cancelled == old(cancelled)
      ensures NobodyElse(turn.env) && old(state) != TaskExited && FindsItDown(turn) ==>
                exitResult.Some? && completedAt == Some(turn.at)
                && ResultFits(exitResult.value, turn.reading.value, turn.status)
    {
      hide Inv, Reaches;
      ghost var s0 := View();
      Interfere(POLLER, turn.env[6]);
      ghost var s1 := View();
      exited := LookFirst();
      ReachesOn(s0, s1, View());
      if !exited {
        s1 := View();
        Interfere(POLLER, turn.env[0]);
        ReachesOn(s0, s1, View());
        s1 := View();
        exited := Look(turn);
        ReachesOn(s0, s1, View());
      }
    }

    method LookFirst() returns (exited: bool)
      requires Valid() && started && poll == CheckFirst
      modifies this`poll
      ensures Valid() && Reaches(old(View()), View()) && POLLER !in observers
      ensures exited <==> state == TaskExited
      ensures poll == if exited then Finished else ToRead
    {
      OneStep(View(), PollCheckFirst);
      exited := HasExited();
      poll := if exited then Finished else ToRead;
    }

    // The read itself and what follows from it.
    method Look(turn: Turn) returns (exited: bool)
      requires Valid() && started && poll == ToRead && POLLER !in observers && |turn.env| == 7
      modifies this
      ensures Valid() && Reaches(old(View()), View()) && started
      ensures if exited then poll == Finished && state == TaskExited else poll == Selecting
      ensures FindsItDown(turn) ==> exited
      ensures NobodyElse(turn.env) ==> state == StateAfter(old(state), turn.reading)
      ensures NobodyElse(turn.env) && old(state) != TaskExited ==> (exited <==> state == TaskExited)
      ensures NobodyElse(turn.env) ==> wakePending == old(wakePending) && cancelled == old(cancelled)
      ensures NobodyElse(turn.env) && old(state) != TaskExited && FindsItDown(turn) ==>
                exitResult.Some? && completedAt == Some(turn.at)
                && ResultFits(exitResult.value, turn.reading.value, turn.status)
    {
      hide Inv, Reaches;
      ghost var s0 := View();
      BeginRead(turn.env[1]);
      ghost var s1 := View();
      ReceiveReading(turn.reading);
      ReachesOn(s0, s1, View());
      exited := false;
      if turn.reading.Some? {
        s1 := View();
        exited := Handle(turn);
        ReachesOn(s0, s1, View());
      }
    }

    method ReceiveReading(reading: Option<UnitState>)
      requires Valid() && started && poll == Reading && POLLER !in observers
      modifies this`poll, this`observers
      ensures Valid() && Reaches(old(View()), View())
      ensures if reading.None? then poll == Selecting
              else poll == Handling && POLLER in observers && observers[POLLER] == Entered(reading.value)
    {
      ghost var s := View();
      OneStep(s, PollRead(reading));
      hide Inv, Reaches;
      if reading.None? {
        poll := Selecting;
      } else {
        poll, observers := Handling, observers[POLLER := Entered(reading.value)];
      }
      assert View() == Step(s, PollRead(reading));
    }

    // What the poll loop does with a reading.
    method Handle(turn: Turn) returns (exited: bool)
      requires Valid() && started && poll == Handling && POLLER in observers && observers[POLLER].Entered?
      requires |turn.env| == 7
      modifies this
      ensures Valid() && Reaches(old(View()), View()) && started
      ensures if exited then poll == Finished && state == TaskExited else poll == Selecting
      ensures old(observers[POLLER]).seen.IsTerminal() ==> exited
      ensures NobodyElse(turn.env) ==> state == StateAfter(old(state), Some(old(observers[POLLER]).seen))
      ensures NobodyElse(turn.env) ==>
                wakePending == old(wakePending) && cancelled == old(cancelled) && (exited <==> state == TaskExited)
      ensures NobodyElse(turn.env) && old(state) != TaskExited && old(observers[POLLER]).seen.IsTerminal() ==>
                exitResult.Some? && completedAt == Some(turn.at)
                && ResultFits(exitResult.value, old(observers[POLLER]).seen, turn.status)
    {
      hide Inv, Step, Enabled, Reaches;
      ghost var s0 := View();
      Interfere(POLLER, turn.env[2]);
      ghost var s1 := View();
      HandleStateChange(POLLER, turn.status, turn.at, turn.env[3..5]);
      ReachesOn(s0, s1, View());
      s1 := View();
      exited := LookAgain(turn.env[5]);
      ReachesOn(s0, s1, View());
    }

    method BeginRead(env: seq<Event>)
      requires Valid() && started && poll == ToRead && POLLER !in observers
      modifies this
      ensures Valid() && Reaches(old(View()), View()) && started && poll == Reading && POLLER !in observers
      ensures env == [] ==> state == old(state) && wakePending == old(wakePending) && cancelled == old(cancelled)
    {
      ghost var s0 := View();
      OneStep(s0, PollBeginRead);
      poll, readAt := Reading, wakes;
      ghost var s1 := View();
      Interfere(POLLER, env);
      ReachesOn(s0, s1, View());
    }

    method LookAgain(env: seq<Event>) returns (exited: bool)
      requires Valid() && started && poll == Handling && POLLER !in observers
      modifies this
      ensures Valid() && Reaches(old(View()), View()) && started
      ensures if exited then poll == Finished && state == TaskExited else poll == Selecting
      ensures old(state) == TaskExited ==> exited
      ensures env == [] ==> TaskStatus(View()) == TaskStatus(old(View())) && (exited <==> old(state) == TaskExited)
      ensures env == [] ==> wakePending == old(wakePending) && cancelled == old(cancelled)
    {
      ghost var s0 := View();
      OneStep(s0, PollHandled);
      poll := CheckLast;
      ghost var s1 := View();
      assert s1 == Step(s0, PollHandled);
      Interfere(POLLER, env);
      ReachesOn(s0, s1, View());
      ghost var s2 := View();
      OneStep(s2, PollCheckLast);
      exited := HasExited();
      poll := if exited then Finished else Selecting;
      assert View() == Step(s2, PollCheckLast);
      ReachesOn(s0, s2, View());
    }

    /** pollTaskState over any script of what goes on while its selects wait, what they hear and what systemd
        answers. It ends only for an exit or for Stop; and it always ends when it looks, for a tick or a wake
        that came while it waited, and finds the unit down, or hears that it has been cancelled, whenever that was.
        When nothing else goes on and no wake is pending, that is exactly when it ends. */
    method PollTaskState(script: seq<Turn>) returns (finished: bool)
      requires Valid() && started && poll == CheckFirst && |script| > 0
      requires forall i | 0 <= i < |script| :: |script[i].env| == 7
      modifies this
      ensures Valid() && Reaches(old(View()), View())
      ensures finished <==> poll == Finished
      ensures finished ==> state == TaskExited || cancelled
      ensures !finished ==> !FindsItDown(script[0])
      ensures !finished ==> forall i | 1 <= i < |script| :: !Exits(script[i]) && !Stops(script, i, old(cancelled))
      ensures Quiet(script) && !old(wakePending) ==>
                (finished <==> || old(state) == TaskExited || FindsItDown(script[0])
                               || exists i | 1 <= i < |script| :: Ends(script[i], old(cancelled)))
    {
      hide Reaches;
      ghost var s0 := View();
      finished := CheckTaskState(script[0]);
      CancelledStays(s0, View());
      for i := 1 to |script|
        invariant Valid() && Reaches(s0, View()) && started
        invariant if finished then poll == Finished && (state == TaskExited || cancelled) else poll == Selecting
        invariant !finished ==> !FindsItDown(script[0])
        invariant !finished ==> forall k | 1 <= k < i :: !Exits(script[k]) && !Stops(script, k, s0.cancelled)
        invariant s0.cancelled || (exists k | 1 <= k < i :: Cancel in script[k].wait) ==> cancelled
        invariant Quiet(script) && !s0.token ==>
                    && !wakePending && cancelled == s0.cancelled && (!finished ==> state != TaskExited)
                    && (finished <==> || s0.HasExited() || FindsItDown(script[0])
                                      || exists k | 1 <= k < i :: Ends(script[k], s0.cancelled))
      {
        if finished {
          return;
        }
        ghost var s1 := View();
        var go := Hear(script[i]);
        ReachesOn(s0, s1, View());
        CancelledStays(s1, View());
        if poll == Finished {
          finished := true;
        } else if go {
          s1 := View();
          finished := CheckTaskState(script[i]);
          ReachesOn(s0, s1, View());
          CancelledStays(s1, View());
        }
      }
    }

    /** The select, with whatever goes on while it waits: a wake, which is there if one was pending or comes in;
        the ticker; or the cancelled context. A turn that hears anything else is a turn spent waiting. */
    method Hear(turn: Turn) returns (go: bool)
      requires Valid() && started && poll == Selecting && |turn.env| == 7
      modifies this
      ensures Valid() && Reaches(old(View()), View()) && started
      ensures if go then poll == CheckFirst else poll == Selecting || (poll == Finished && cancelled)
      ensures Cancel in turn.wait ==> cancelled
      ensures turn.heard.PollStopped? && (old(cancelled) || Cancel in turn.wait) ==> poll == Finished
      ensures turn.heard.PollTick? || (turn.heard.PollWoken? && (old(wakePending) || Wake in turn.wait)) ==> go
      ensures !go && poll == Selecting && (old(wakePending) || Wake in turn.wait) ==> wakePending
      ensures turn.wait == [] ==>
                && (go <==> turn.heard.PollTick? || (turn.heard.PollWoken? && old(wakePending)))
                && (poll == Finished <==> turn.heard.PollStopped? && old(cancelled))
                && state == old(state) && cancelled == old(cancelled) && (wakePending ==> old(wakePending))
    {
      ghost var s0 := View();
      hide Inv, Reaches;
      Interfere(POLLER, turn.wait);
      ghost var s1 := View();
      go := Choose(turn.heard);
      ReachesOn(s0, s1, View());
    }

    method Choose(heard: Event) returns (go: bool)
      requires Valid() && started && poll == Selecting
      modifies this`wakePending, this`poll
      ensures Valid() && Reaches(old(View()), View())
      ensures go <==> heard.PollTick? || (heard.PollWoken? && old(wakePending))
      ensures poll == if go then CheckFirst else if heard.PollStopped? && cancelled then Finished else Selecting
      ensures !go ==> wakePending == old(wakePending)
      ensures wakePending ==> old(wakePending)
    {
      ghost var s0 := View();
      assert Path(s0, [], s0);
      if heard.PollWoken? && wakePending {
        OneStep(s0, PollWoken);
        wakePending, poll := false, CheckFirst;
        return true;
      }
      if heard.PollTick? {
        OneStep(s0, PollTick);
        poll := CheckFirst;
        return true;
      }
      if heard.PollStopped? && cancelled {
        OneStep(s0, PollStopped);
        poll := Finished;
      }
      return false;
    }
  }
}
