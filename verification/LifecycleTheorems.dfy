/** The lifecycle protocol's promises, for every run and every reachable state. */
module LifecycleTheorems {
  import opened Options
  import opened Ownership
  import opened Lifecycle
  import opened LifecycleProofs
  import H = TaskHandler

  // A run in which calls for one task ID do not overlap and Shutdown has not begun. Managers may be
  // swapped at any time.
  ghost predicate Run(s: State, es: seq<Event>, s': State)
    decreases |es|
  {
    if es == [] then s' == s
    else Enabled(s, es[0]) && Disciplined(s, es[0]) && Run(Step(s, es[0]), es[1..], s')
  }

  lemma {:induction false} RunKeepsOwn(s: State, es: seq<Event>, s': State)
    requires OwnInv(s) && Run(s, es, s')
    ensures OwnInv(s')
    decreases |es|
  {
    if es != [] {
      StepKeepsOwn(s, es[0]);
      RunKeepsOwn(Step(s, es[0]), es[1..], s');
    }
  }

  lemma ReachableIsOwn(es: seq<Event>, s: State)
    requires Run(Init, es, s)
    ensures OwnInv(s)
  {
    assert OwnInv(Init);
    RunKeepsOwn(Init, es, s);
  }

  /** One unit, one task: in every reachable state each tracked task owns its unit, so no two tracked
      tasks share one. */
  lemma OneUnitOneTask(es: seq<Event>, s: State)
    requires Run(Init, es, s)
    ensures forall id | id in s.w.tasks ::
              HandlerIs(s.w, s.w.tasks[id], id) && Owns(s.w, id, s.w.handlers[s.w.tasks[id]].unit)
    ensures forall i, j, u | Tracks(s.w, i, u) && Tracks(s.w, j, u) :: i == j
  {
    ReachableIsOwn(es, s);
    forall id | id in s.w.tasks
      ensures HandlerIs(s.w, s.w.tasks[id], id) && Owns(s.w, id, s.w.handlers[s.w.tasks[id]].unit)
    {
      assert TrackedOk(s.w, id);
    }
  }

  lemma HoldersAreBusy(s: State, c: nat, id: string, unit: string)
    requires HeldBy(s, c, id, unit)
    ensures Busy(s.calls[c])
  {
  }

  lemma IdleClaimsAreTracked(s: State, id: string)
    requires OwnInv(s) && NoneBusy(s, id)
    ensures forall u :: Owns(s.w, id, u) <==> Tracks(s.w, id, u)
  {
    forall u ensures Owns(s.w, id, u) <==> Tracks(s.w, id, u) {
      assert TrackedOk(s.w, id) && Backed(s, u);
      if Owns(s.w, id, u) && !Tracks(s.w, id, u) {
        var c :| HeldBy(s, c, id, u);
        HoldersAreBusy(s, c, id, u);
      }
    }
  }

  /** No claim leaks: every claim belongs to a tracked task or to a call in flight, so for a task with no
      call in flight the claims are exactly the unit it is tracked with - whatever failed before. */
  lemma NoClaimLeaks(es: seq<Event>, s: State)
    requires Run(Init, es, s)
    ensures forall u | u in s.w.owners ::
              Tracks(s.w, s.w.owners[u], u) || exists c :: HeldBy(s, c, s.w.owners[u], u)
    ensures forall id, u | NoneBusy(s, id) :: Owns(s.w, id, u) <==> Tracks(s.w, id, u)
  {
    ReachableIsOwn(es, s);
    forall u | u in s.w.owners
      ensures Tracks(s.w, s.w.owners[u], u) || exists c :: HeldBy(s, c, s.w.owners[u], u)
    {
      assert Backed(s, u);
    }
    forall id | NoneBusy(s, id) ensures forall u :: Owns(s.w, id, u) <==> Tracks(s.w, id, u) {
      IdleClaimsAreTracked(s, id);
    }
  }

  /** While a start or its rollback is under way the task owns the unit, and every other call that gets
      to claim that unit is turned away without an effect. */
  lemma StartsUnderOwnership(es: seq<Event>, s: State, c: nat)
    requires Run(Init, es, s) && c in s.calls
    requires s.calls[c].Acquire? && (s.calls[c].apc.Starting? || s.calls[c].apc.RollingBack?)
    ensures Owns(s.w, s.calls[c].id, s.calls[c].unit)
    ensures forall d, a | d in s.calls && s.calls[d].Acquire? && s.calls[d].apc.Claiming?
              && s.calls[d].unit == s.calls[c].unit ::
              && CanAdvance(s.w, s.calls[d], a)
              && NextAcquire(s.w, s.calls[d], a) == s.calls[d].(apc := Acquired(false))
              && Step(s, Advance(d, a)).w == s.w
  {
    ReachableIsOwn(es, s);
    assert CallOk(s.w, s.calls[c]);
    forall d | d in s.calls && s.calls[d].Acquire? && s.calls[d].apc.Claiming? && s.calls[d].unit == s.calls[c].unit
      ensures s.calls[d].id != s.calls[c].id
    {
      assert Busy(s.calls[d]) && Busy(s.calls[c]);
    }
  }

  lemma OnlyOneBusyCall(s: State, c: nat, d: nat)
    requires Serial(s) && c in s.calls && d in s.calls && s.calls[c].id == s.calls[d].id
    requires Busy(s.calls[c]) && Holds(s.calls[d]).Some?
    ensures c == d
  {
    assert Busy(s.calls[d]);
  }

  lemma ClaimsTakeFreeUnitsHere(s: State, c: nat)
    requires OwnInv(s) && c in s.calls && s.calls[c].Acquire? && s.calls[c].apc.Claiming?
    ensures MayClaim(s.w.owners, s.calls[c].unit, s.calls[c].id) <==> s.calls[c].unit !in s.w.owners
  {
    var id, u := s.calls[c].id, s.calls[c].unit;
    assert CallOk(s.w, s.calls[c]) && Backed(s, u);
    if Owns(s.w, id, u) {
      var d :| HeldBy(s, d, id, u);
      OnlyOneBusyCall(s, c, d);
    }
  }

  /** Re-claiming a unit the task already owns, which claimUnit allows, never happens while calls for
      one task do not overlap: a claim that succeeds takes an unowned unit. */
  lemma ClaimsTakeFreeUnits(es: seq<Event>, s: State, c: nat)
    requires Run(Init, es, s) && c in s.calls && s.calls[c].Acquire? && s.calls[c].apc.Claiming?
    ensures MayClaim(s.w.owners, s.calls[c].unit, s.calls[c].id) <==> s.calls[c].unit !in s.w.owners
  {
    ReachableIsOwn(es, s);
    ClaimsTakeFreeUnitsHere(s, c);
  }

  /** A task leaves the store through DestroyTask only, and then its handler has seen the exit, or
      the destroy was forced and a stop job succeeded or a kill was attempted. */
  lemma TasksLeaveForAReason(es: seq<Event>, s: State, e: Event, id: string)
    requires Run(Init, es, s) && Enabled(s, e) && Disciplined(s, e)
    requires id in s.w.tasks && id !in Step(s, e).w.tasks
    ensures e.Advance? && s.calls[e.c].Destroy? && s.calls[e.c].id == id && s.calls[e.c].dpc.Deleting?
    ensures var call := s.calls[e.c];
            || (HandlerIs(s.w, s.w.tasks[id], id) && s.w.handlers[s.w.tasks[id]].h.HasExited())
            || (call.force && call.asked == [StopJob] && call.why == StopJobDone)
            || (call.force && call.asked == [StopJob, Kill] && call.why in {KillDelivered, KillFailed, FoundTerminal})
  {
    ReachableIsOwn(es, s);
    assert CallOk(s.w, s.calls[e.c]);
  }

  /** An unforced destroy never issues a stop or a kill: what its first look saw cannot be unseen by its
      second. */
  lemma UnforcedDestroyOnlyObserves(es: seq<Event>, s: State, c: nat)
    requires Run(Init, es, s) && c in s.calls && s.calls[c].Destroy? && !s.calls[c].force
    ensures s.calls[c].asked == [] && !s.calls[c].dpc.Selecting? && !s.calls[c].dpc.Killing?
    ensures !s.calls[c].dpc.Confirming?
    ensures s.calls[c].dpc.Checking? || TearsDown(s.calls[c]) ==>
              HandlerIs(s.w, s.calls[c].h, s.calls[c].id) && s.w.handlers[s.calls[c].h].h.HasExited()
  {
    ReachableIsOwn(es, s);
    assert CallOk(s.w, s.calls[c]);
  }

  // Every step of a destroy before it starts tearing down is a mere look.
  lemma LookingHasNoEffect(s: State, c: nat, a: Answer)
    requires OwnInv(s) && c in s.calls && s.calls[c].Destroy? && !TearsDown(s.calls[c])
    requires Enabled(s, Advance(c, a))
    ensures Step(s, Advance(c, a)).w == s.w
    ensures Step(s, Advance(c, a)).calls[c].dpc.Rejected? ==>
              !s.calls[c].force && s.calls[c].asked == [] && !s.w.handlers[s.calls[c].h].h.HasExited()
  {
    assert CallOk(s.w, s.calls[c]) && TrackedOk(s.w, s.calls[c].id);
    DestroyEarlyNextOk(s.w, s.calls[c], a);
  }

  predicate SameTask(w: World, w': World, id: string) {
    && (id in w'.tasks <==> id in w.tasks)
    && (id in w.tasks ==> w'.tasks[id] == w.tasks[id])
  }

  // While a destroy is under way nothing but its own steps touches its task's entry or its claims.
  lemma BusyTaskIsLeftAlone(s: State, e: Event, c: nat)
    requires OwnInv(s) && Enabled(s, e) && Disciplined(s, e)
    requires c in s.calls && Busy(s.calls[c]) && !(e.Advance? && e.c == c)
    ensures SameTask(s.w, Step(s, e).w, s.calls[c].id)
    ensures forall u :: Owns(Step(s, e).w, s.calls[c].id, u) <==> Owns(s.w, s.calls[c].id, u)
  {
    if e.Advance? {
      var call := s.calls[e.c];
      assert CallOk(s.w, call);
      if call.Acquire? {
        AcquireFits(s.w, call, e.a);
        EffectRely(s.w, EffectOf(s.w, call, e.a), call.id);
        assert Busy(call);
      } else if call.Destroy? {
        DestroyFits(s.w, call, e.a);
        EffectRely(s.w, EffectOf(s.w, call, e.a), call.id);
        assert Busy(call);
      }
    }
  }

  predicate StillLooking(s: State, c: nat) {
    c in s.calls && s.calls[c].Destroy? && (s.calls[c].dpc.Finding? || s.calls[c].dpc.Guarding?)
  }

  lemma {:induction false} DecidedStaysDecided(s: State, es: seq<Event>, s': State, c: nat)
    requires Run(s, es, s') && c in s.calls && !StillLooking(s, c)
    ensures !StillLooking(s', c)
    decreases |es|
  {
    if es != [] {
      DecidedStaysDecided(Step(s, es[0]), es[1..], s', c);
    }
  }

  lemma {:induction false} UntouchedWhileLooking(s: State, es: seq<Event>, s': State, c: nat)
    requires OwnInv(s) && Run(s, es, s') && StillLooking(s, c) && StillLooking(s', c)
    ensures s'.calls[c].id == s.calls[c].id
    ensures SameTask(s.w, s'.w, s.calls[c].id)
    ensures forall u :: Owns(s'.w, s.calls[c].id, u) <==> Owns(s.w, s.calls[c].id, u)
    decreases |es|
  {
    if es != [] {
      var e, next := es[0], Step(s, es[0]);
      if e.Advance? && e.c == c {
        LookingHasNoEffect(s, c, e.a);
      } else {
        BusyTaskIsLeftAlone(s, e, c);
      }
      if !StillLooking(next, c) {
        DecidedStaysDecided(next, es[1..], s', c);
      }
      StepKeepsOwn(s, e);
      UntouchedWhileLooking(next, es[1..], s', c);
    }
  }

  /** A rejected destroy leaves the task exactly as it was: from its first step in state s to the step that
      rejects it, whatever ran in between, the task keeps its handler and its claims, and the destroy
      asked nothing of systemd. */
  lemma RejectedDestroyChangesNothing(es0: seq<Event>, s: State, es: seq<Event>, s': State, c: nat, a: Answer)
    requires Run(Init, es0, s) && c in s.calls && s.calls[c].Destroy? && s.calls[c].dpc.Finding?
    requires Run(s, es, s') && StillLooking(s', c) && Enabled(s', Advance(c, a))
    requires Step(s', Advance(c, a)).calls[c].dpc.Rejected?
    ensures var end, id := Step(s', Advance(c, a)), s.calls[c].id;
            && SameTask(s.w, end.w, id)
            && (forall u :: Owns(end.w, id, u) <==> Owns(s.w, id, u))
            && end.calls[c].asked == [] && !s'.calls[c].force && !s'.w.handlers[s'.calls[c].h].h.HasExited()
  {
    ReachableIsOwn(es0, s);
    RunKeepsOwn(s, es, s');
    UntouchedWhileLooking(s, es, s', c);
    LookingHasNoEffect(s', c, a);
  }

  /** WaitTask delivers the published result of an exited handler, never its zero fallback - on the
      start path and on the recovery path alike. */
  lemma WaitDeliversThePublishedResult(es: seq<Event>, s: State, c: nat)
    requires Run(Init, es, s) && c in s.calls && s.calls[c].Wait? && s.calls[c].wpc.Delivered?
    ensures !s.calls[c].wpc.fallback && s.calls[c].h < |s.w.handlers|
    ensures var t := s.w.handlers[s.calls[c].h];
            t.id == s.calls[c].id && t.h.HasExited() && t.h.exitResult == Some(s.calls[c].wpc.result)
  {
    ReachableIsOwn(es, s);
    assert CallOk(s.w, s.calls[c]);
  }

  /** Every handler in the store has its result once its wait channel is closed. */
  lemma StoredHandlersHaveResults(es: seq<Event>, s: State, id: string)
    requires Run(Init, es, s) && id in s.w.tasks
    ensures var h := s.w.tasks[id];
            && h < |s.w.handlers| && s.w.handlers[h].h.started
            && (s.w.handlers[h].h.closed <==> s.w.handlers[h].h.HasExited())
            && (s.w.handlers[h].h.closed ==> H.TaskStatus(s.w.handlers[h].h).exitResult.Some?)
  {
    ReachableIsOwn(es, s);
    assert TrackedOk(s.w, id);
  }

  /** StopTask returns nil only for a task whose exit was observed, whose stop job was done, whose kill
      was delivered, or whose failed kill was followed by a terminal reading; and it fails only for an
      unknown task or after a failed kill. */
  lemma StopTaskTellsTheTruth(es: seq<Event>, s: State, c: nat)
    requires Run(Init, es, s) && c in s.calls && s.calls[c].Stop? && s.calls[c].spc.StopReturned?
    ensures s.calls[c].spc.ok ==>
              || (s.calls[c].why.ExitSeen? && HandlerIs(s.w, s.calls[c].h, s.calls[c].id)
                  && s.w.handlers[s.calls[c].h].h.HasExited())
              || s.calls[c].why.StopJobDone? || s.calls[c].why.KillDelivered? || s.calls[c].why.FoundTerminal?
    ensures !s.calls[c].spc.ok ==> s.calls[c].why.NoReason? || s.calls[c].why.KillFailed?
  {
    ReachableIsOwn(es, s);
    assert CallOk(s.w, s.calls[c]);
  }

  // An answer that lets a call go on from where it stands.
  function SomeAnswer(call: Call): Answer {
    match call
    case Acquire(_, _, _, _, _, _, _, _, _) => Refused
    case Destroy(_, _, _, dpc, _, _, _) => if dpc.Selecting? then TimedOut else Refused
    case Stop(_, _, spc, _, _, _) => if spc.StopSelecting? then TimedOut else Refused
    case Wait(_, _, _) => ContextDone
  }

  /** No call gets stuck, and none of the model's side conditions ever stands in its way: the only place
      a call waits is Handler.Stop, for the handler's own poll loop and log writer. In particular a manager
      is there whenever DestroyTask unregisters its unit. */
  lemma CallsNeverGetStuck(es: seq<Event>, s: State, c: nat)
    requires Run(Init, es, s) && c in s.calls && !Finished(s.calls[c])
    requires !(s.calls[c].Destroy? && s.calls[c].dpc.Joining?)
    ensures CanAdvance(s.w, s.calls[c], SomeAnswer(s.calls[c]))
    ensures s.calls[c].Destroy? && s.calls[c].dpc.Unregistering? ==> |s.w.mgrs| > 0
  {
    ReachableIsOwn(es, s);
    assert CallOk(s.w, s.calls[c]);
  }
}
