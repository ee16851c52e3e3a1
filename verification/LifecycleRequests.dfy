/** What the calls ask of systemd and what they make of its answers (plugin/task.go), for every run. */
module LifecycleRequests {
  import opened Options
  import opened Systemd
  import opened Lifecycle
  import opened LifecycleProofs
  import opened LifecycleTheorems
  import H = TaskHandler

  /** StartTask asks for a start at most, and for a stop exactly after a start that failed; RecoverTask asks for
      nothing. DestroyTask and StopTask ask for a stop, and for a kill exactly if they did not go on for an exit or
      for a stop job that was done; and a destroy asks for anything only by force. */
  lemma RequestsAreInOrder(es: seq<Event>, s: State, c: nat)
    requires Run(Init, es, s) && c in s.calls && Finished(s.calls[c])
    ensures match s.calls[c]
            case Acquire(_, _, recovering, apc, _, _, _, _, asked) =>
              asked == [] || (!recovering && asked == if apc.ok then [StartJob] else [StartJob, StopJob])
            case Destroy(_, _, force, dpc, _, asked, why) =>
              if dpc.Destroyed? then
                || (asked == [] && why == ExitSeen)
                || (force && asked == [StopJob] && why in {ExitSeen, StopJobDone})
                || (force && asked == [StopJob, Kill] && why in {KillDelivered, KillFailed, FoundTerminal})
              else asked == []
            case Stop(_, grace, spc, _, asked, why) =>
              || (asked == [] && why == NoReason && !spc.ok)
              || (grace && asked == [StopJob] && why in {ExitSeen, StopJobDone} && spc.ok)
              || (asked == [StopJob, Kill] && why in {KillDelivered, FoundTerminal} && spc.ok)
              || (asked == [StopJob, Kill] && why == KillFailed && !spc.ok)
            case Wait(_, _, _) => true
  {
    ReachableIsOwn(es, s);
    assert CallOk(s.w, s.calls[c]);
  }

  // ---- A failed start is rolled back ----

  predicate AcquiresAt(s: State, c: nat, apc: AcquirePc) {
    c in s.calls && s.calls[c].Acquire? && s.calls[c].apc == apc
  }

  // Between a start that failed and its rollback.
  lemma {:induction false} RollsBackFirst(s: State, es: seq<Event>, s': State, c: nat) returns (j: nat, mid: State)
    requires AcquiresAt(s, c, RollingBack) && Run(s, es, s')
    requires c in s'.calls && s'.calls[c] != s.calls[c]
    ensures j < |es| && es[j].Advance? && es[j].c == c && Run(s, es[..j], mid) && AcquiresAt(mid, c, RollingBack)
    decreases |es|
  {
    if es[0].Advance? && es[0].c == c {
      j, mid := 0, s;
    } else {
      assert Step(s, es[0]).calls[c] == s.calls[c];
      j, mid := RollsBackFirst(Step(s, es[0]), es[1..], s', c);
      assert es[..j + 1][1..] == es[1..][..j];
      j := j + 1;
    }
  }

  /** A start that failed is rolled back before anything else: on every run from it, until the call's rollback step
      the call stands there, owning its unit; so none gets to the release, or to its end, past the rollback. */
  lemma FailedStartsAreRolledBack(es0: seq<Event>, s: State, c: nat, es: seq<Event>, s': State)
      returns (j: nat, mid: State)
    requires Run(Init, es0, s) && AcquiresAt(s, c, Starting) && Enabled(s, Advance(c, Refused))
    requires Run(Step(s, Advance(c, Refused)), es, s')
    requires AcquiresAt(s', c, Releasing) || (c in s'.calls && Finished(s'.calls[c]))
    ensures j < |es| && es[j].Advance? && es[j].c == c && Run(Step(s, Advance(c, Refused)), es[..j], mid)
    ensures AcquiresAt(mid, c, RollingBack) && mid.calls[c].asked == [StartJob]
    ensures Owns(mid.w, mid.calls[c].id, mid.calls[c].unit)
  {
    ReachableIsOwn(es0, s);
    var failed := Step(s, Advance(c, Refused));
    StepKeepsOwn(s, Advance(c, Refused));
    assert AcquiresAt(failed, c, RollingBack);
    j, mid := RollsBackFirst(failed, es, s', c);
    RunKeepsOwn(failed, es[..j], mid);
    assert CallOk(mid.w, mid.calls[c]);
  }

  // ---- An exited task is destroyed without a request ----

  // Call c is a destroy, past its lookup, of a handler that has exited, and has asked for nothing.
  predicate DestroysExited(s: State, c: nat) {
    && c in s.calls && s.calls[c].Destroy? && HasHandler(s.calls[c])
    && s.calls[c].h < |s.w.handlers| && s.w.handlers[s.calls[c].h].h.HasExited()
    && s.calls[c].asked == [] && !s.calls[c].dpc.Selecting? && !s.calls[c].dpc.Killing? && !s.calls[c].dpc.Confirming?
  }

  lemma ExitsStay(s: State, e: Event, h: nat)
    requires Enabled(s, e) && h < |s.w.handlers| && s.w.handlers[h].h.HasExited()
    ensures h < |Step(s, e).w.handlers| && Step(s, e).w.handlers[h].h.HasExited()
  {
    if e.HandlerMoves? && e.i == h {
      H.FlagsStay(s.w.handlers[h].h, e.he);
    } else if e.Advance? && EffectOf(s.w, s.calls[e.c], e.a).OnHandler? && EffectOf(s.w, s.calls[e.c], e.a).i == h {
      H.FlagsStay(s.w.handlers[h].h, EffectOf(s.w, s.calls[e.c], e.a).he);
    }
    hide H.Step, H.Enabled, H.New, NextCall;
  }

  lemma DestroyStaysQuiet(s: State, e: Event, c: nat)
    requires DestroysExited(s, c) && Enabled(s, e)
    ensures DestroysExited(Step(s, e), c)
  {
    ExitsStay(s, e, s.calls[c].h);
    hide Apply, EffectOf, NextAcquire, NextStop, NextWait;
  }

  /** A destroy, forced or not, of a task whose exit its handler has seen asks systemd for nothing, whenever it
      happens to look and whatever else runs. */
  lemma {:induction false} ExitedTasksAreDestroyedQuietly(s: State, c: nat, es: seq<Event>, s': State)
    requires c in s.calls && s.calls[c].Destroy? && (s.calls[c].dpc.Guarding? || s.calls[c].dpc.Checking?)
    requires s.calls[c].asked == [] && s.calls[c].h < |s.w.handlers| && s.w.handlers[s.calls[c].h].h.HasExited()
    requires Run(s, es, s')
    ensures DestroysExited(s', c) && s'.calls[c].asked == []
  {
    QuietRun(s, c, es, s');
  }

  lemma {:induction false} QuietRun(s: State, c: nat, es: seq<Event>, s': State)
    requires DestroysExited(s, c) && Run(s, es, s')
    ensures DestroysExited(s', c)
    decreases |es|
  {
    if es != [] {
      DestroyStaysQuiet(s, es[0], c);
      hide Step, Enabled, DestroysExited;
      QuietRun(Step(s, es[0]), c, es[1..], s');
    }
  }

  // ---- A recovered task is what systemd said ----

  // Call c recovers its task from reading st.
  predicate RecoversFrom(s: State, c: nat, st: UnitState) {
    && c in s.calls && s.calls[c].Acquire? && s.calls[c].recovering && s.calls[c].seen == st
    && (s.calls[c].apc in {Registering, Building, Resulting, Launching, Publishing, Acquired(true)})
  }

  // What the exit status lookup of an answer came to.
  function Told(a: Answer): Option<ExitStatus> {
    if a.ExitStatusIs? then Some(a.status) else None
  }

  lemma RecoveryGoesOn(s: State, e: Event, c: nat, st: UnitState)
    requires RecoversFrom(s, c, st) && Enabled(s, e)
    ensures RecoversFrom(Step(s, e), c, st)
  {
    hide Apply, EffectOf, NextDestroy, NextStop, NextWait;
  }

  lemma {:induction false} RecoveryRun(s: State, c: nat, st: UnitState, es: seq<Event>, s': State)
    requires RecoversFrom(s, c, st) && Run(s, es, s')
    ensures RecoversFrom(s', c, st)
    decreases |es|
  {
    if es != [] {
      RecoveryGoesOn(s, es[0], c, st);
      hide Step, Enabled, RecoversFrom;
      RecoveryRun(Step(s, es[0]), c, st, es[1..], s');
    }
  }

  /** The handler of a recovered task starts exited exactly if the reading that RecoverTask was given is terminal,
      and running otherwise, transitional states included. */
  lemma RecoveredAsRead(es0: seq<Event>, s: State, c: nat, st: UnitState, es: seq<Event>, s': State)
    requires Run(Init, es0, s) && AcquiresAt(s, c, Querying) && s.calls[c].recovering
    requires Enabled(s, Advance(c, Reported(st))) && Run(Step(s, Advance(c, Reported(st))), es, s')
    ensures RecoversFrom(s', c, st)
    ensures s'.calls[c].apc.Resulting? || s'.calls[c].apc.Launching? ==>
              && s'.calls[c].h < |s'.w.handlers|
              && var t := s'.w.handlers[s'.calls[c].h].h;
                 !t.started && (t.HasExited() <==> st.IsTerminal()) && (!st.IsTerminal() ==> t.state == TaskRunning)
  {
    ReachableIsOwn(es0, s);
    StepKeepsOwn(s, Advance(c, Reported(st)));
    RunKeepsOwn(Step(s, Advance(c, Reported(st))), es, s');
    RecoveryRun(Step(s, Advance(c, Reported(st))), c, st, es, s');
    assert CallOk(s'.w, s'.calls[c]);
  }

  // Handler h shows an exit with result r.
  predicate Shows(s: State, h: nat, r: ExitResult) {
    h < |s.w.handlers| && s.w.handlers[h].h.HasExited() && s.w.handlers[h].h.exitResult == Some(r)
  }

  // Call c has built and filled in the handler that shows r.
  predicate HasFilledIn(s: State, c: nat, r: ExitResult) {
    && c in s.calls && s.calls[c].Acquire? && s.calls[c].apc in {Launching, Publishing, Acquired(true)}
    && Shows(s, s.calls[c].h, r)
    && (!s.calls[c].apc.Launching? ==> s.w.handlers[s.calls[c].h].h.started)
  }

  lemma OwnStepKeepsResult(s: State, c: nat, a: Answer, r: ExitResult)
    requires OwnInv(s) && HasFilledIn(s, c, r) && Enabled(s, Advance(c, a))
    ensures HasFilledIn(Step(s, Advance(c, a)), c, r)
  {
    assert CallOk(s.w, s.calls[c]);
    hide OwnInv;
  }

  lemma OtherCallKeepsResult(s: State, e: Event, c: nat, r: ExitResult)
    requires OwnInv(s) && HasFilledIn(s, c, r) && Enabled(s, e) && e.Advance? && e.c != c
    ensures HasFilledIn(Step(s, e), c, r)
  {
    var h := s.calls[c].h;
    assert CallOk(s.w, s.calls[c]) && CallOk(s.w, s.calls[e.c]) && H.Inv(s.w.handlers[h].h);
    hide OwnInv, H.Inv, H.Step, H.Enabled, H.New;
    if EffectOf(s.w, s.calls[e.c], e.a).OnHandler? && EffectOf(s.w, s.calls[e.c], e.a).i == h {
      HandlerEvolves(s.w.handlers[h].h, EffectOf(s.w, s.calls[e.c], e.a).he);
      assert Busy(s.calls[e.c]);
    }
  }

  lemma OthersKeepResult(s: State, e: Event, c: nat, r: ExitResult)
    requires OwnInv(s) && HasFilledIn(s, c, r) && Enabled(s, e) && Disciplined(s, e) && !e.Advance?
    ensures HasFilledIn(Step(s, e), c, r)
  {
    var h := s.calls[c].h;
    assert CallOk(s.w, s.calls[c]) && H.Inv(s.w.handlers[h].h);
    hide OwnInv, H.Inv, H.Step, H.Enabled, H.New;
    if e.HandlerMoves? && e.i == h {
      HandlerEvolves(s.w.handlers[h].h, e.he);
    }
  }

  lemma {:induction false} ResultRun(s: State, c: nat, r: ExitResult, es: seq<Event>, s': State)
    requires OwnInv(s) && HasFilledIn(s, c, r) && Run(s, es, s')
    ensures HasFilledIn(s', c, r)
    decreases |es|
  {
    if es != [] {
      StepKeepsOwn(s, es[0]);
      if es[0].Advance? && es[0].c == c {
        OwnStepKeepsResult(s, c, es[0].a, r);
      } else if es[0].Advance? {
        OtherCallKeepsResult(s, es[0], c, r);
      } else {
        OthersKeepResult(s, es[0], c, r);
      }
      hide OwnInv, Step, Enabled, HasFilledIn;
      ResultRun(Step(s, es[0]), c, r, es[1..], s');
    }
  }

  /** A task recovered exited shows, for good, the result that fits the reading and the exit status its recovery
      was given. */
  lemma RecoveredResultFits(es0: seq<Event>, s: State, c: nat, st: UnitState, a: Answer, es: seq<Event>, s': State)
      returns (r: ExitResult)
    requires Run(Init, es0, s) && RecoversFrom(s, c, st) && s.calls[c].apc.Resulting? && st.IsTerminal()
    requires Enabled(s, Advance(c, a)) && Run(Step(s, Advance(c, a)), es, s')
    ensures ResultFits(r, st, Told(a)) && HasFilledIn(s', c, r)
  {
    ReachableIsOwn(es0, s);
    assert CallOk(s.w, s.calls[c]);
    StepKeepsOwn(s, Advance(c, a));
    r := BuildExitResult(st, Told(a));
    assert HasFilledIn(Step(s, Advance(c, a)), c, r);
    hide OwnInv;
    ResultRun(Step(s, Advance(c, a)), c, r, es, s');
  }
}
