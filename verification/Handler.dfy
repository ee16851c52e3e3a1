/** The task handler's state machine (pkg/task/task.go and pkg/task/state.go): any number of
    handleStateChange calls, the poll loop, and the one-slot wake channel the loop listens on,
    interleaved at every critical section and channel operation. */
module TaskHandler {
  import opened Options
  import opened Systemd

  // The observer that the poll loop runs.
  const POLLER: nat := 0

  // Where pollTaskState stands. ToRead: about to ask systemd. Handling: inside handleStateChange.
  datatype PollPc = Idle | CheckFirst | ToRead | Reading | Handling | CheckLast | Selecting | Finished

  // Where one handleStateChange call stands. Fetching is the window in which no lock is held.
  datatype Observer =
    | Entered(seen: UnitState)
    | Fetching(seen: UnitState)
    | Resolved(seen: UnitState, result: ExitResult)

  datatype State = State(
    state: TaskState,
    exitResult: Option<ExitResult>,
    completedAt: Option<int>,
    closed: bool,                    // waitCh
    closeCalls: nat,                 // how often closeWaitCh was called
    started: bool,
    cancelled: bool,
    poll: PollPc,
    writing: bool,                   // streamLogs, the other goroutine that Start spawns
    observers: map<nat, Observer>,
    token: bool,                     // the wake channel's single slot
    wakes: nat,                      // history: wakeUnit sends so far
    readAt: nat)                     // history: wakes when the latest state read began
  {
    predicate HasExited() { state == TaskExited }
  }

  datatype Event =
    | SetResult(result: ExitResult, at: int) | Launch | Cancel | Wake
    | PollCheckFirst | PollBeginRead | PollRead(answer: Option<UnitState>) | PollHandled | PollCheckLast
    | PollWoken | PollTick | PollStopped
    | WriterGivesUp | WriterEnds
    | Observe(o: nat, what: UnitState) | Inspect(o: nat) | Resolve(o: nat, status: Option<ExitStatus>)
    | Publish(o: nat, at: int)

  function New(initial: TaskState): State {
    var s := State(initial, None, None, false, 0, false, false, Idle, false, map[], false, 0, 0);
    if initial == TaskExited then CloseWaitCh(s) else s
  }

  // exitOnce lets only the first call close the channel.
  function CloseWaitCh(s: State): State {
    s.(closed := true, closeCalls := s.closeCalls + 1)
  }

  predicate Enabled(s: State, e: Event) {
    match e
    case SetResult(_, _) => true
    case Launch => !s.started
    case Cancel => true
    case Wake => true
    case PollCheckFirst => s.poll == CheckFirst
    case PollBeginRead => s.poll == ToRead
    case PollRead(_) => s.poll == Reading
    case PollHandled => s.poll == Handling && POLLER !in s.observers
    case PollCheckLast => s.poll == CheckLast
    case PollWoken => s.poll == Selecting && s.token
    case PollTick => s.poll == Selecting
    case PollStopped => s.poll == Selecting && s.cancelled
    // streamLogs returns if it cannot open stdout, and otherwise once it hears the cancelled context.
    case WriterGivesUp => s.writing
    case WriterEnds => s.writing && s.cancelled
    case Observe(o, _) => s.started && o != POLLER && o !in s.observers
    case Inspect(o) => o in s.observers && s.observers[o].Entered?
    case Resolve(o, _) => o in s.observers && s.observers[o].Fetching?
    case Publish(o, _) => o in s.observers && s.observers[o].Resolved?
  }

  function Step(s: State, e: Event): State
    requires Enabled(s, e)
  {
    match e
    case SetResult(r, at) => s.(exitResult := Some(r), completedAt := Some(at))
    case Launch => s.(started := true, poll := CheckFirst, writing := true)
    case Cancel => s.(cancelled := true)
    case Wake => s.(token := true, wakes := s.wakes + 1)
    case PollCheckFirst => s.(poll := if s.HasExited() then Finished else ToRead)
    case PollBeginRead => s.(poll := Reading, readAt := s.wakes)
    case PollRead(answer) =>
      if answer.None? then s.(poll := Selecting)
      else s.(poll := Handling, observers := s.observers[POLLER := Entered(answer.value)])
    case PollHandled => s.(poll := CheckLast)
    case PollCheckLast => s.(poll := if s.HasExited() then Finished else Selecting)
    case PollWoken => s.(poll := CheckFirst, token := false)
    case PollTick => s.(poll := CheckFirst)
    case PollStopped => s.(poll := Finished)
    case WriterGivesUp => s.(writing := false)
    case WriterEnds => s.(writing := false)
    case Observe(o, what) => s.(observers := s.observers[o := Entered(what)])
    case Inspect(o) => InspectSection(s, o)
    case Resolve(o, status) =>
      var seen := s.observers[o].seen;
      s.(observers := s.observers[o := Resolved(seen, BuildExitResult(seen, status))])
    case Publish(o, at) => PublishSection(s, o, at)
  }

  // handleStateChange up to the first unlock.
  function InspectSection(s: State, o: nat): State
    requires o in s.observers && s.observers[o].Entered?
  {
    var seen := s.observers[o].seen;
    var left := s.(observers := s.observers - {o});
    if s.HasExited() then left
    else if ToTaskState(seen) != TaskExited then left.(state := ToTaskState(seen))
    else s.(observers := s.observers[o := Fetching(seen)])
  }

  // handleStateChange from the second lock on.
  function PublishSection(s: State, o: nat, at: int): State
    requires o in s.observers && s.observers[o].Resolved?
  {
    var left := s.(observers := s.observers - {o});
    if s.HasExited() then left
    else CloseWaitCh(left.(state := TaskExited, completedAt := Some(at), exitResult := Some(s.observers[o].result)))
  }

  // ---- What every step keeps ----

  ghost predicate Inv(s: State) {
    && (s.closed <==> s.HasExited())
    && s.closeCalls == (if s.closed then 1 else 0)
    && (s.started && s.HasExited() ==> s.exitResult.Some?)
    && (s.exitResult.Some? ==> s.HasExited())
    && (s.exitResult.Some? <==> s.completedAt.Some?)
    && (s.poll == Idle <==> !s.started)
    && (!s.started ==> s.observers == map[] && !s.writing)
    && (POLLER in s.observers ==> s.poll == Handling)
    && (forall o | o in s.observers && !s.observers[o].Entered? :: s.observers[o].seen.IsTerminal())
    && (s.poll == Finished ==> s.HasExited() || s.cancelled)
    && s.readAt <= s.wakes
    && (s.readAt < s.wakes ==> s.token || AboutToRead(s) || s.poll == Finished)
  }

  // The poll loop reads the unit's state before it listens again.
  predicate AboutToRead(s: State) {
    s.poll in {Idle, CheckFirst, ToRead}
  }

  // Recovering an exited task sets the result before the handler starts.
  predicate MayLaunch(s: State) {
    s.HasExited() ==> s.exitResult.Some?
  }

  // What the handler asks of its users: SetExitResult only for an exited task, before Start; and the other
  // way round.
  predicate Orderly(s: State, e: Event) {
    && (e.Launch? ==> MayLaunch(s))
    && (e.SetResult? ==> !s.started && s.HasExited())
  }

  // The steps of handleStateChange.
  predicate ObserverStep(e: Event) {
    e.Observe? || e.Inspect? || e.Resolve? || e.Publish?
  }

  lemma ObserverKeepsInv(s: State, e: Event)
    requires Inv(s) && Enabled(s, e) && ObserverStep(e)
    ensures Inv(Step(s, e))
  {
  }

  lemma OtherKeepsInv(s: State, e: Event)
    requires Inv(s) && Enabled(s, e) && Orderly(s, e) && !ObserverStep(e)
    ensures Inv(Step(s, e))
  {
  }

  lemma StepKeepsInv(s: State, e: Event)
    requires Inv(s) && Enabled(s, e) && Orderly(s, e)
    ensures Inv(Step(s, e))
  {
    if ObserverStep(e) {
      ObserverKeepsInv(s, e);
    } else {
      OtherKeepsInv(s, e);
    }
    hide Inv, Step, Enabled;
  }

  // ---- Runs ----

  // es is a run from s to s': the calls of the handler's users and goroutines in any interleaving.
  ghost predicate Path(s: State, es: seq<Event>, s': State)
    decreases |es|
  {
    if es == [] then s' == s
    else Enabled(s, es[0]) && Orderly(s, es[0]) && Path(Step(s, es[0]), es[1..], s')
  }

  lemma {:induction false} RunKeepsInv(s: State, es: seq<Event>, s': State)
    requires Inv(s) && Path(s, es, s')
    ensures Inv(s')
    decreases |es|
  {
    if es != [] {
      StepKeepsInv(s, es[0]);
      RunKeepsInv(Step(s, es[0]), es[1..], s');
    }
  }

  lemma {:induction false} SplitRun(s: State, es: seq<Event>, s': State, i: nat) returns (mid: State)
    requires Path(s, es, s') && i <= |es|
    ensures Path(s, es[..i], mid) && Path(mid, es[i..], s')
    decreases i
  {
    if i == 0 {
      mid := s;
    } else {
      mid := SplitRun(Step(s, es[0]), es[1..], s', i - 1);
      assert es[..i] == [es[0]] + es[1..][..i - 1];
      assert es[i..] == es[1..][i - 1..];
    }
  }

  // What TaskStatus reports, taken under one lock.
  datatype Status = Status(state: TaskState, exitResult: Option<ExitResult>, completedAt: Option<int>)

  function TaskStatus(s: State): Status {
    Status(s.state, s.exitResult, s.completedAt)
  }

  /** Every handler reachable from NewHandler, however many observers interleave: waitCh is open
      until the task exits and closed at most once, closeWaitCh is never even called twice, and once
      the handler watches the unit a status is never half-transitioned. */
  lemma {:induction false} StatusIsConsistent(initial: TaskState, es: seq<Event>, s: State)
    requires Path(New(initial), es, s)
    ensures s.closed <==> s.HasExited()
    ensures s.closeCalls == if s.closed then 1 else 0
    ensures s.started && s.closed ==> TaskStatus(s).exitResult.Some? && TaskStatus(s).completedAt.Some?
    ensures !s.closed ==> TaskStatus(s).exitResult.None? && TaskStatus(s).completedAt.None?
    ensures s.poll == Finished ==> s.HasExited() || s.cancelled
  {
    RunKeepsInv(New(initial), es, s);
  }

  /** The one way to see an exit without a result: a handler made for an exited task whose result nobody
      has set yet. */
  lemma {:induction false} ResultIsMissingIff(initial: TaskState, es: seq<Event>, s: State)
    requires Path(New(initial), es, s)
    ensures s.HasExited() && TaskStatus(s).exitResult.None? <==>
              initial == TaskExited && !exists k :: 0 <= k < |es| && es[k].SetResult?
  {
    RunKeepsInv(New(initial), es, s);
    if initial == TaskExited {
      ResultOnlyFromSetResult(New(initial), es, s);
    } else {
      ExitsWithResult(New(initial), es, s);
    }
  }

  /** Such a handler: fresh, exited, its wait channel closed, and no result. */
  lemma FreshExitedHandlerHasNoResult() returns (s: State)
    ensures Path(New(TaskExited), [], s) && s.closed && s.HasExited() && TaskStatus(s).exitResult.None?
  {
    s := New(TaskExited);
  }

  /** Why SetExitResult has to come before Start: later, it replaces a result that is already published. */
  lemma LateResultReplacesThePublished(s: State, result: ExitResult, at: int)
    requires Inv(s) && s.started && s.HasExited() && s.exitResult != Some(result)
    ensures Enabled(s, SetResult(result, at)) && !Orderly(s, SetResult(result, at))
    ensures s.closed && TaskStatus(s).exitResult.Some?
    ensures TaskStatus(Step(s, SetResult(result, at))).exitResult != TaskStatus(s).exitResult
  {
  }

  lemma {:induction false} ResultOnlyFromSetResult(s: State, es: seq<Event>, s': State)
    requires Inv(s) && s.HasExited() && Path(s, es, s')
    ensures s'.HasExited()
    ensures s'.exitResult.Some? <==> s.exitResult.Some? || exists k :: 0 <= k < |es| && es[k].SetResult?
    decreases |es|
  {
    if es != [] {
      StepKeepsInv(s, es[0]);
      ResultOnlyFromSetResult(Step(s, es[0]), es[1..], s');
      assert forall k | 1 <= k < |es| :: es[k] == es[1..][k - 1];
      assert forall k | 0 <= k < |es| - 1 :: es[1..][k] == es[k + 1];
    }
  }

  lemma {:induction false} ExitsWithResult(s: State, es: seq<Event>, s': State)
    requires Inv(s) && (s.HasExited() ==> s.exitResult.Some?) && Path(s, es, s')
    ensures s'.HasExited() ==> s'.exitResult.Some?
    decreases |es|
  {
    if es != [] {
      StepKeepsInv(s, es[0]);
      ExitsWithResult(Step(s, es[0]), es[1..], s');
    }
  }

  lemma ExitStep(s: State, e: Event)
    requires s.started && s.HasExited() && Enabled(s, e) && Orderly(s, e)
    ensures Step(s, e).started && Step(s, e).HasExited() && TaskStatus(Step(s, e)) == TaskStatus(s)
  {
  }

  /** Exited is never left, and nothing published with it ever changes. */
  lemma {:induction false} ExitIsFinal(s: State, es: seq<Event>, s': State)
    requires Inv(s) && s.started && s.HasExited() && Path(s, es, s')
    ensures s'.started && s'.HasExited() && s'.closed && s'.closeCalls == 1
    ensures TaskStatus(s') == TaskStatus(s)
    decreases |es|
  {
    if es != [] {
      StepKeepsInv(s, es[0]);
      ExitStep(s, es[0]);
      hide Step, Enabled, Orderly;
      ExitIsFinal(Step(s, es[0]), es[1..], s');
    }
  }

  /** Of all the calls racing through the unlocked window, the first to reach its second critical
      section decides the result, and no later event of the run overrides it. */
  lemma {:induction false} FirstResultWins(s: State, o: nat, at: int, es: seq<Event>, s': State)
    requires Inv(s) && !s.HasExited() && o in s.observers && s.observers[o].Resolved?
    requires Path(s, [Publish(o, at)] + es, s')
    ensures TaskStatus(s') == Status(TaskExited, Some(s.observers[o].result), Some(at))
  {
    var e := Publish(o, at);
    assert ([e] + es)[1..] == es;
    StepKeepsInv(s, e);
    assert s.started;
    ExitIsFinal(Step(s, e), es, s');
  }

  // Event e starts a new handleStateChange call o.
  predicate Enters(e: Event, o: nat) {
    (e.Observe? && e.o == o) || (o == POLLER && e.PollRead?)
  }

  // What a step leaves of another call, or of its own, in observers.
  lemma OwnSeenStep(s: State, e: Event, o: nat)
    requires Enabled(s, e) && ObserverStep(e) && e.o == o && !Enters(e, o)
    ensures o in Step(s, e).observers ==>
              && o in s.observers && Step(s, e).observers[o].seen == s.observers[o].seen
              && (s.observers[o].Resolved? ==> Step(s, e).observers[o] == s.observers[o])
  {
    hide BuildExitResult, ToTaskState, ResultFits;
  }

  lemma OtherSeenStep(s: State, e: Event, o: nat)
    requires Enabled(s, e) && ObserverStep(e) && e.o != o
    ensures o in Step(s, e).observers ==> o in s.observers && Step(s, e).observers[o] == s.observers[o]
  {
    var s' := Step(s, e);
    assert e.Observe? ==> s'.observers == s.observers[e.o := Entered(e.what)];
    assert e.Publish? ==> s'.observers == s.observers - {e.o};
    hide BuildExitResult, ToTaskState, PublishSection;
  }

  lemma NoSeenStep(s: State, e: Event, o: nat)
    requires Enabled(s, e) && !ObserverStep(e) && !Enters(e, o)
    ensures o in Step(s, e).observers ==> o in s.observers && Step(s, e).observers[o] == s.observers[o]
  {
  }

  // A call keeps the state it saw, and the result it has worked out, until it ends.
  lemma {:induction false} SeenIsKept(s: State, es: seq<Event>, s': State, o: nat)
    requires Path(s, es, s') && o in s'.observers && forall k | 0 <= k < |es| :: !Enters(es[k], o)
    ensures o in s.observers && s'.observers[o].seen == s.observers[o].seen
    ensures s.observers[o].Resolved? ==> s'.observers[o] == s.observers[o]
    decreases |es|
  {
    if es != [] {
      assert !Enters(es[0], o);
      assert forall k | 0 <= k < |es| - 1 :: es[1..][k] == es[k + 1];
      SeenIsKept(Step(s, es[0]), es[1..], s', o);
      if ObserverStep(es[0]) && es[0].o == o {
        OwnSeenStep(s, es[0], o);
      } else if ObserverStep(es[0]) {
        OtherSeenStep(s, es[0], o);
      } else {
        NoSeenStep(s, es[0], o);
      }
      hide Step, Enabled, Orderly, Enters;
    }
  }

  /** What is published is what was seen and told: the result of the call that gets to publish fits the state with
      which it was entered and the exit status that it was told, whatever runs between, and it stands for good. */
  lemma PublishedResultFits(s: State, o: nat, es: seq<Event>, x: State, status: Option<ExitStatus>,
                            fs: seq<Event>, y: State, at: int, gs: seq<Event>, z: State)
    requires Inv(s) && o in s.observers && s.observers[o].Entered?
    requires Path(s, es, x) && o in x.observers && x.observers[o].Fetching? && forall k | 0 <= k < |es| ::
               !Enters(es[k], o)
    requires Path(Step(x, Resolve(o, status)), fs, y) && forall k | 0 <= k < |fs| :: !Enters(fs[k], o)
    requires o in y.observers && !y.HasExited() && Path(y, [Publish(o, at)] + gs, z)
    ensures z.HasExited() && TaskStatus(z).completedAt == Some(at)
    ensures TaskStatus(z).exitResult.Some? && ResultFits(TaskStatus(z).exitResult.value, s.observers[o].seen, status)
  {
    SeenIsKept(s, es, x, o);
    var told := Step(x, Resolve(o, status));
    RunKeepsInv(s, es, x);
    ToldResultFits(x, o, status);
    hide Inv, Step, Enabled, ResultFits;
    SeenIsKept(told, fs, y, o);
    RunKeepsInv(told, fs, y);
    FirstResultWins(y, o, at, gs, z);
  }

  lemma ToldResultFits(x: State, o: nat, status: Option<ExitStatus>)
    requires Inv(x) && o in x.observers && x.observers[o].Fetching?
    ensures var told := Step(x, Resolve(o, status));
            && Inv(told) && o in told.observers && told.observers[o].Resolved?
            && ResultFits(told.observers[o].result, x.observers[o].seen, status)
  {
    StepKeepsInv(x, Resolve(o, status));
  }

  // ---- Wakes ----

  lemma WithoutReadStep(s: State, e: Event)
    requires Enabled(s, e) && e != PollBeginRead
    ensures Step(s, e).readAt == s.readAt && s.wakes <= Step(s, e).wakes
  {
    if e.Inspect? {
      InspectReadsNothing(s, e.o);
    }
    hide InspectSection;
  }

  lemma InspectReadsNothing(s: State, o: nat)
    requires o in s.observers && s.observers[o].Entered?
    ensures InspectSection(s, o).readAt == s.readAt && InspectSection(s, o).wakes == s.wakes
  {
  }

  lemma {:induction false} WithoutReadReadAtStays(s: State, es: seq<Event>, s': State)
    requires Path(s, es, s') && forall k | 0 <= k < |es| :: es[k] != PollBeginRead
    ensures s'.readAt == s.readAt && s.wakes <= s'.wakes
    decreases |es|
  {
    if es != [] {
      assert forall k | 0 <= k < |es| - 1 :: es[1..][k] == es[k + 1];
      WithoutReadStep(s, es[0]);
      hide Step, Enabled, Orderly;
      WithoutReadReadAtStays(Step(s, es[0]), es[1..], s');
    }
  }

  // A wake sent in state s is not lost on whatever run follows.
  lemma WakeIsKept(s: State, es: seq<Event>, s': State)
    requires Inv(s) && Path(Step(s, Wake), es, s')
    ensures || s'.token
            || AboutToRead(s')
            || (exists k :: 0 <= k < |es| && es[k] == PollBeginRead)
            || (s'.poll == Finished && (s'.HasExited() || s'.cancelled))
  {
    StepKeepsInv(s, Wake);
    RunKeepsInv(Step(s, Wake), es, s');
    if forall k | 0 <= k < |es| :: es[k] != PollBeginRead {
      WithoutReadReadAtStays(Step(s, Wake), es, s');
    }
  }

  /** No wake is lost. Whatever happened since a send on the channel the handler polls, either the
      token is still pending, or the loop is on its way to a read, or it began one after the send -
      unless it has finished, which it does only on an exit or on Stop. */
  lemma {:induction false} NoLostWakeup(initial: TaskState, es: seq<Event>, s: State, i: nat)
    requires Path(New(initial), es, s)
    requires i < |es| && es[i] == Wake
    ensures || s.token
            || AboutToRead(s)
            || (exists k :: i < k < |es| && es[k] == PollBeginRead)
            || (s.poll == Finished && (s.HasExited() || s.cancelled))
  {
    var before := SplitRun(New(initial), es, s, i);
    assert es[i..][0] == Wake;
    var rest := es[i + 1..];
    assert es[i..][1..] == rest;
    RunKeepsInv(New(initial), es[..i], before);
    WakeIsKept(before, rest, s);
    if k :| 0 <= k < |rest| && rest[k] == PollBeginRead {
      assert es[i + 1 + k] == PollBeginRead;
    }
  }

  // A step of the poll loop itself.
  predicate PollerStep(e: Event) {
    || e in {PollCheckFirst, PollBeginRead, PollHandled, PollCheckLast, PollWoken, PollTick, PollStopped}
    || e.PollRead?
    || ((e.Inspect? || e.Resolve? || e.Publish?) && e.o == POLLER)
  }

  // The loop's next step, given what systemd answers if it is asked. A loop that listens hears the cancelled
  // context rather than anything else.
  function NextPollerStep(s: State, reading: Option<UnitState>, status: Option<ExitStatus>, at: int): Event {
    match s.poll
    case CheckFirst => PollCheckFirst
    case ToRead => PollBeginRead
    case Reading => PollRead(reading)
    case CheckLast => PollCheckLast
    case Selecting => if s.cancelled then PollStopped else if s.token then PollWoken else PollTick
    case _ =>
      if POLLER !in s.observers then PollHandled
      else match s.observers[POLLER]
        case Entered(_) => Inspect(POLLER)
        case Fetching(_) => Resolve(POLLER, status)
        case Resolved(_, _) => Publish(POLLER, at)
  }

  // How often something that satisfies p happens.
  function Count(es: seq<Event>, p: Event -> bool): nat {
    if es == [] then 0 else (if p(es[0]) then 1 else 0) + Count(es[1..], p)
  }

  predicate IsRead(e: Event) { e == PollBeginRead }

  predicate IsWake(e: Event) { e == Wake }

  predicate IsTick(e: Event) { e == PollTick }

  // The most of the loop's own steps that can separate it from its next read.
  function StepsToRead(s: State): (n: nat)
    ensures n <= 9
  {
    match s.poll
    case Idle => 3
    case Finished => 0
    case ToRead => 1
    case CheckFirst => 2
    case Selecting => 3
    case CheckLast => 4
    case Reading => 9
    case Handling =>
      if POLLER !in s.observers then 5
      else match s.observers[POLLER]
        case Resolved(_, _) => 6
        case Fetching(_) => 7
        case Entered(_) => 8
  }

  // What the counts below need of Inv.
  predicate PollerOk(s: State) {
    s.started && s.poll != Idle && (POLLER in s.observers ==> s.poll == Handling)
  }

  lemma OthersLeaveThePoller(s: State, e: Event)
    requires PollerOk(s) && Enabled(s, e) && !PollerStep(e)
    ensures StepsToRead(Step(s, e)) == StepsToRead(s) && StepsToStop(Step(s, e)) == StepsToStop(s)
  {
    var s' := Step(s, e);
    assert e != Launch ==> s'.poll == s.poll;
    assert (POLLER in s.observers <==> POLLER in s'.observers)
        && (POLLER in s.observers ==> s'.observers[POLLER] == s.observers[POLLER]);
    hide Step, Enabled;
  }

  lemma FlagsStay(s: State, e: Event)
    requires Enabled(s, e)
    ensures (s.started ==> Step(s, e).started) && (s.cancelled ==> Step(s, e).cancelled)
    ensures (s.closed ==> Step(s, e).closed) && (s.HasExited() ==> Step(s, e).HasExited())
  {
  }

  lemma StepTowardsRead(s: State, e: Event)
    requires PollerOk(s) && Enabled(s, e) && PollerStep(e) && e != PollBeginRead
    ensures StepsToRead(Step(s, e)) < StepsToRead(s)
  {
  }

  /** On every run, whoever interleaves and whatever systemd answers, the loop takes at most nine steps of its
      own before it reads the unit's state again, unless it finishes. */
  lemma {:induction false} ReadsKeepComing(s: State, es: seq<Event>, s': State)
    requires Inv(s) && s.started && Path(s, es, s') && Count(es, IsRead) == 0
    ensures s'.started && Count(es, PollerStep) + StepsToRead(s') <= StepsToRead(s) <= 9
    decreases |es|
  {
    if es != [] {
      StepKeepsInv(s, es[0]);
      assert PollerOk(s);
      if PollerStep(es[0]) {
        StepTowardsRead(s, es[0]);
      } else {
        OthersLeaveThePoller(s, es[0]);
      }
      FlagsStay(s, es[0]);
      hide Inv, Step, Enabled, Orderly, PollerStep, StepsToRead;
      ReadsKeepComing(Step(s, es[0]), es[1..], s');
    }
  }

  /** Nor does it ever wait on that way while a token is pending: whatever systemd is about to answer, it has a
      step of its own, which no step of anybody else takes away. */
  lemma PendingWakeKeepsTheLoopGoing(s: State, reading: Option<UnitState>, status: Option<ExitStatus>, at: int)
    requires Inv(s) && s.started && s.token && s.poll != Finished
    ensures var e := NextPollerStep(s, reading, status, at);
            PollerStep(e) && Enabled(s, e) && !IsTick(e)
    ensures forall e | Enabled(s, e) && !PollerStep(e) :: Step(s, e).poll == s.poll && Step(s, e).token
  {
  }

  // A pending token keeps the loop on its way to a read until it begins one.
  lemma {:induction false} TokenLeadsToRead(s: State, es: seq<Event>, s': State)
    requires Inv(s) && s.started && (s.token || AboutToRead(s) || s.poll == Finished) && Path(s, es, s')
    requires forall k | 0 <= k < |es| :: es[k] != PollBeginRead
    ensures Inv(s') && s'.started && (s'.token || AboutToRead(s') || s'.poll == Finished)
    decreases |es|
  {
    if es != [] {
      StepKeepsInv(s, es[0]);
      FlagsStay(s, es[0]);
      assert es[0] != PollBeginRead;
      assert forall k | 0 <= k < |es| - 1 :: es[1..][k] == es[k + 1];
      TokenStep(s, es[0]);
      hide Inv, Step, Enabled, Orderly;
      TokenLeadsToRead(Step(s, es[0]), es[1..], s');
    }
  }

  lemma TokenStep(s: State, e: Event)
    requires s.started && (s.token || AboutToRead(s) || s.poll == Finished) && Enabled(s, e) && e != PollBeginRead
    ensures var s' := Step(s, e);
            s'.token || AboutToRead(s') || s'.poll == Finished
  {
  }

  /** So a pending wake is served: on every run from it that goes on until the loop can take no step of its own
      but for a tick, it has begun a fresh read of the unit's state, or has finished, for an exit or for Stop. */
  lemma PendingWakeIsServed(s: State, es: seq<Event>, s': State)
    requires Inv(s) && s.started && s.token && Path(s, es, s')
    requires forall e | PollerStep(e) && !IsTick(e) :: !Enabled(s', e)
    ensures (exists k :: 0 <= k < |es| && es[k] == PollBeginRead)
              || (s'.poll == Finished && (s'.HasExited() || s'.cancelled))
  {
    if forall k | 0 <= k < |es| :: es[k] != PollBeginRead {
      TokenLeadsToRead(s, es, s');
      if s'.token && s'.poll != Finished {
        PendingWakeKeepsTheLoopGoing(s', None, None, 0);
      }
      assert PollerStep(PollCheckFirst) && PollerStep(PollBeginRead);
    }
  }

  // ---- Stopping ----

  // How many of its own steps a loop is from its end if its select hears no more ticks or wakes.
  function StepsToStop(s: State): (n: nat)
    ensures n <= 9
  {
    match s.poll
    case Idle => 9
    case Finished => 0
    case Selecting => 1
    case CheckLast => 2
    case Reading => 7
    case ToRead => 8
    case CheckFirst => 9
    case Handling =>
      if POLLER !in s.observers then 3
      else match s.observers[POLLER]
        case Resolved(_, _) => 4
        case Fetching(_) => 5
        case Entered(_) => 6
  }

  function Token(s: State): nat {
    if s.token then 1 else 0
  }

  predicate Hears(e: Event) { e == PollTick || e == PollWoken }

  lemma StepTowardsStop(s: State, e: Event)
    requires PollerOk(s) && Enabled(s, e) && PollerStep(e)
    ensures StepsToStop(Step(s, e)) + 1 <= StepsToStop(s) + if Hears(e) then 9 else 0
  {
  }

  lemma TokensAreWakes(s: State, e: Event)
    requires Enabled(s, e)
    ensures var s' := Step(s, e);
            (if e == PollWoken then 1 else 0) + Token(s') <= Token(s) + (if e == Wake then 1 else 0)
  {
  }

  predicate IsWoken(e: Event) { e == PollWoken }

  /** On every run, whoever interleaves and whatever systemd answers, the loop's own steps are bounded by nine
      and nine more for each tick it hears and each wake: the one pending and those sent since. */
  lemma {:induction false} LoopRunsOut(s: State, es: seq<Event>, s': State)
    requires Inv(s) && s.started && Path(s, es, s')
    ensures s'.started && (s.cancelled ==> s'.cancelled)
    ensures Count(es, PollerStep) + StepsToStop(s') <= StepsToStop(s) + 9 * (Count(es, IsTick) + Count(es, IsWoken))
    ensures Count(es, IsWoken) + Token(s') <= Token(s) + Count(es, IsWake)
    decreases |es|
  {
    if es != [] {
      StepKeepsInv(s, es[0]);
      assert PollerOk(s);
      if PollerStep(es[0]) {
        StepTowardsStop(s, es[0]);
      } else {
        OthersLeaveThePoller(s, es[0]);
      }
      FlagsStay(s, es[0]);
      TokensAreWakes(s, es[0]);
      hide Inv, Step, Enabled, Orderly, PollerStep, StepsToStop, Token;
      LoopRunsOut(Step(s, es[0]), es[1..], s');
    }
  }

  /** A cancelled loop always has a step towards its end, whatever systemd is about to answer. */
  lemma CancelledLoopGoesOn(s: State, reading: Option<UnitState>, status: Option<ExitStatus>, at: int)
    requires Inv(s) && s.started && s.cancelled && s.poll != Finished
    ensures var e := NextPollerStep(s, reading, status, at);
            && PollerStep(e) && Enabled(s, e) && !Hears(e)
            && StepsToStop(Step(s, e)) < StepsToStop(s) && Step(s, e).started && Step(s, e).cancelled
            && Step(s, e).writing == s.writing
    ensures forall e | Enabled(s, e) && !PollerStep(e) :: Step(s, e).poll == s.poll && Step(s, e).cancelled
  {
  }

  predicate WriterStep(e: Event) { e == WriterGivesUp || e == WriterEnds }

  function Writers(s: State): nat {
    if s.writing then 1 else 0
  }

  // Both goroutines that Start spawned have returned: Stop's wait group is empty.
  predicate Joined(s: State) {
    s.poll == Finished && !s.writing
  }

  lemma WriterCounts(s: State, e: Event)
    requires s.started && Enabled(s, e)
    ensures (if WriterStep(e) then 1 else 0) + Writers(Step(s, e)) == Writers(s)
  {
  }

  lemma {:induction false} WriterEndsOnce(s: State, es: seq<Event>, s': State)
    requires s.started && Path(s, es, s')
    ensures s'.started && Count(es, WriterStep) + Writers(s') == Writers(s)
    decreases |es|
  {
    if es != [] {
      FlagsStay(s, es[0]);
      WriterCounts(s, es[0]);
      hide Step, Enabled, Orderly, WriterStep, Writers;
      WriterEndsOnce(Step(s, es[0]), es[1..], s');
    }
  }

  /** What the two goroutines of a started handler can still do is bounded on every run: the poll loop takes at
      most nine steps and nine for each tick it hears and each wake, the writer one. And while a cancelled
      handler has not been joined, one of them has a step towards that, which is not a tick or a wake. */
  lemma JoiningIsBounded(s: State, es: seq<Event>, s': State)
    requires Inv(s) && s.started && s.cancelled && Path(s, es, s')
    ensures Count(es, PollerStep) <= 9 + 9 * (Count(es, IsTick) + Token(s) + Count(es, IsWake))
    ensures Count(es, WriterStep) <= 1
    ensures || Joined(s')
            || Enabled(s', WriterEnds)
            || exists e :: PollerStep(e) && !Hears(e) && Enabled(s', e) && StepsToStop(Step(s', e)) < StepsToStop(s')
  {
    LoopRunsOut(s, es, s');
    WriterEndsOnce(s, es, s');
    RunKeepsInv(s, es, s');
    if s'.poll != Finished {
      CancelledLoopGoesOn(s', None, None, 0);
    }
  }

  /** So the wait in Handler.Stop ends: every run from a cancelled handler that goes on until its goroutines can
      take no further step, ticks and wakes aside, has joined both. */
  lemma StopIsJoined(s: State, es: seq<Event>, s': State)
    requires Inv(s) && s.started && s.cancelled && Path(s, es, s')
    requires forall e | WriterStep(e) || (PollerStep(e) && !Hears(e)) :: !Enabled(s', e)
    ensures Joined(s')
  {
    JoiningIsBounded(s, es, s');
    assert WriterStep(WriterEnds);
  }
}
