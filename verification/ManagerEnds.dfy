/** Stop's two waits end: for every run, how much the loops and the readers can still do. */
module ManagerEnds {
  import opened Managers
  import opened ManagerProofs

  // ---- The loops ----

  // How many steps the reconnect loop is from its end if it does not tick again.
  function LoopLeft(loop: LoopPc): (n: nat)
    ensures n == 0 <==> loop == LoopExited
    ensures n <= 6
  {
    match loop
    case LoopExited => 0
    case Sleeping => 1
    case Refreshing => 2
    case ClosingOld(_) => 3
    case Adopting(_) => 4
    case Dialing => 5
    case Checking => 6
  }

  predicate LoopStep(e: Event) {
    TouchesConn(e) && !e.CloseConn?
  }

  function Steps(es: seq<Event>, p: Event -> bool): nat {
    if es == [] then 0 else (if p(es[0]) then 1 else 0) + Steps(es[1..], p)
  }

  predicate IsTick(e: Event) { e == LoopTick }

  predicate IsDispatchExit(e: Event) { e == DispatchExits }

  function Dispatchers(s: State): nat {
    if s.dispatching then 1 else 0
  }

  // The loops' next step towards their end, given what the health check and the dial come to.
  function NextLoopStep(s: State, healthy: bool, up: bool): Event
    requires s.dispatching || s.loop != LoopExited
  {
    if s.dispatching then DispatchExits
    else match s.loop
      case Sleeping => LoopExits
      case Refreshing => Refreshed
      case ClosingOld(_) => CloseOld
      case Adopting(_) => SwapConn
      case Dialing => Dialed(up)
      case Checking => Checked(healthy)
  }

  // What an event does to the loops, whoever's it is.
  lemma LoopsStep(s: State, e: Event)
    requires Enabled(s, e)
    ensures var s' := Step(s, e);
            && (if LoopStep(e) then LoopLeft(s'.loop) + 1 <= LoopLeft(s.loop) + (if IsTick(e) then 6 else 0)
                else s'.loop == s.loop)
            && Dispatchers(s') + (if IsDispatchExit(e) then 1 else 0) == Dispatchers(s)
            && (s.ctxDone ==> s'.ctxDone)
  {
    hide WithCancelled;
  }

  /** On every run, whoever interleaves and whatever the health checks and dials come to, the reconnect loop
      takes at most six steps more than six for each tick its timer wins over the cancelled context; and the
      dispatch loop leaves once. */
  lemma {:induction false} LoopsRunOut(s: State, es: seq<Event>, s': State)
    requires Path(s, es, s')
    ensures Steps(es, LoopStep) + LoopLeft(s'.loop) <= LoopLeft(s.loop) + 6 * Steps(es, IsTick)
    ensures Steps(es, IsDispatchExit) + Dispatchers(s') == Dispatchers(s)
    ensures s.ctxDone ==> s'.ctxDone
    decreases |es|
  {
    if es != [] {
      LoopsStep(s, es[0]);
      hide Step, Enabled, LoopStep;
      LoopsRunOut(Step(s, es[0]), es[1..], s');
    }
  }

  /** Wherever the loops stand while Stop waits for them, one of them has a step of its own towards its end,
      whatever it is told, and nobody else's step takes that away. */
  lemma LoopsCanLeave(s: State, healthy: bool, up: bool)
    requires Inv(s) && s.stop == AwaitingLoops && (s.dispatching || s.loop != LoopExited)
    ensures var e := NextLoopStep(s, healthy, up);
            && Enabled(s, e) && !IsTick(e)
            && LoopLeft(Step(s, e).loop) + Dispatchers(Step(s, e)) < LoopLeft(s.loop) + Dispatchers(s)
            && Step(s, e).stop == s.stop
    ensures forall other | Enabled(s, other) && !LoopStep(other) && !IsDispatchExit(other) && other != LoopsJoined ::
              Step(s, other).loop == s.loop && Step(s, other).dispatching == s.dispatching
  {
    hide WithCancelled, ReaderInv;
  }

  lemma {:induction false} StopGoesOn(s: State, es: seq<Event>, s': State)
    requires s.stop != NotStopping && Path(s, es, s')
    ensures s'.stop != NotStopping
    decreases |es|
  {
    if es != [] {
      StopStep(s, es[0]);
      hide Step, Enabled;
      StopGoesOn(Step(s, es[0]), es[1..], s');
    }
  }

  lemma StopStep(s: State, e: Event)
    requires s.stop != NotStopping && Enabled(s, e)
    ensures Step(s, e).stop != NotStopping
  {
  }

  /** ... so the wait for the loops ends: every run from it that goes on until neither loop can take a further
      step, ticks aside, has left both, and Stop has gone on already or may. */
  lemma LoopsWaitEnds(s: State, es: seq<Event>, s': State)
    requires Inv(s) && s.stop == AwaitingLoops && Path(s, es, s')
    requires forall e | IsDispatchExit(e) || (LoopStep(e) && !IsTick(e)) :: !Enabled(s', e)
    ensures s'.loop == LoopExited && !s'.dispatching
    ensures s'.stop == AwaitingLoops ==> Enabled(s', LoopsJoined)
  {
    RunKeepsInv(s, es, s');
    StopGoesOn(s, es, s');
    if s'.stop == AwaitingLoops && (s'.dispatching || s'.loop != LoopExited) {
      LoopsCanLeave(s', false, false);
    }
  }

  // ---- The readers ----

  predicate IsExit(e: Event) { e.ReaderExits? }

  lemma SealedStepCounts(s: State, e: Event)
    requires StopInv(s) && s.stopping && Enabled(s, e)
    ensures Step(s, e).stopping && Step(s, e).journalWg + (if IsExit(e) then 1 else 0) == s.journalWg
  {
    hide WithCancelled;
  }

  /** Once the manager is sealed the wait group only counts down, by one for each reader that leaves. */
  lemma {:induction false} ReadersCountDown(s: State, es: seq<Event>, s': State)
    requires Inv(s) && s.stopping && Path(s, es, s')
    ensures s'.journalWg + Steps(es, IsExit) == s.journalWg
    decreases |es|
  {
    if es != [] {
      StepKeepsInv(s, es[0]);
      SealedStepCounts(s, es[0]);
      hide Inv, Enabled, Step;
      ReadersCountDown(Step(s, es[0]), es[1..], s');
    }
  }

  lemma {:induction false} SomeoneRuns(readers: seq<Reader>) returns (r: nat)
    requires ManagerProofs.Running(readers) > 0
    ensures r < |readers| && readers[r].status.Running?
  {
    var n := |readers| - 1;
    if readers[n].status.Running? {
      r := n;
    } else {
      r := SomeoneRuns(readers[..n]);
    }
  }
}
