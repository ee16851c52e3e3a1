/** What every interleaving of the lifecycle protocol keeps about ownership. */
module LifecycleProofs {
  import opened Options
  import opened Systemd
  import opened Ownership
  import opened Lifecycle
  import H = TaskHandler

  // ---- Hypotheses on runs ----

  // A StartTask, RecoverTask or DestroyTask call that has not returned.
  predicate Busy(call: Call) {
    (call.Acquire? || call.Destroy?) && !Finished(call)
  }

  predicate NoneBusy(s: State, id: string) {
    forall c | c in s.calls && Busy(s.calls[c]) :: s.calls[c].id != id
  }

  // Nomad does not overlap start, recover and destroy calls for one task ID.
  predicate Serialized(s: State, e: Event) {
    e.BeginAcquire? || e.BeginDestroy? ==> NoneBusy(s, e.id)
  }

  predicate Disciplined(s: State, e: Event) {
    Serialized(s, e) && e != EmptyStore
  }

  // ---- The invariant ----

  // The unit a call has claimed and not released.
  function Holds(call: Call): Option<string> {
    match call
    case Acquire(_, unit, _, apc, _, _, _, _, _) =>
      if apc.Looking? || apc.Admitting? || apc.Claiming? || apc.Acquired? then None else Some(unit)
    case Destroy(_, unit, _, dpc, _, _, _) =>
      if dpc.Finding? || dpc.Destroyed? || dpc.Rejected? || dpc.Unknown? then None else Some(unit)
    case _ => None
  }

  predicate Owns(w: World, id: string, unit: string) {
    unit in w.owners && w.owners[unit] == id
  }

  predicate Tracks(w: World, id: string, unit: string) {
    id in w.tasks && w.tasks[id] < |w.handlers| && w.handlers[w.tasks[id]].unit == unit
  }

  predicate TrackedOk(w: World, id: string) {
    id in w.tasks ==>
      && w.tasks[id] < |w.handlers|
      && var t := w.handlers[w.tasks[id]];
      && t.id == id && t.h.started && Owns(w, id, t.unit)
  }

  ghost predicate TrackedOwn(w: World) {
    forall id :: TrackedOk(w, id)
  }

  predicate HolderOwns(w: World, call: Call) {
    Holds(call).Some? ==> Owns(w, call.id, Holds(call).value)
  }

  ghost predicate Serial(s: State) {
    forall c, d | c in s.calls && d in s.calls && Busy(s.calls[c]) && Busy(s.calls[d])
        && s.calls[c].id == s.calls[d].id :: c == d
  }

  predicate HeldBy(s: State, c: nat, id: string, unit: string) {
    c in s.calls && s.calls[c].id == id && Holds(s.calls[c]) == Some(unit)
  }

  // A claim has a reason: a tracked task or a call in flight.
  ghost predicate Backed(s: State, unit: string) {
    unit in s.w.owners ==>
      Tracks(s.w, s.w.owners[unit], unit) || exists c :: HeldBy(s, c, s.w.owners[unit], unit)
  }

  predicate HandlerIs(w: World, h: nat, id: string) {
    h < |w.handlers| && w.handlers[h].id == id
  }

  predicate AcquireOk(w: World, call: Call)
    requires call.Acquire?
  {
    var apc := call.apc;
    && (!apc.Looking? && !apc.Acquired? ==> call.id !in w.tasks)
    && (!apc.Looking? && !apc.Admitting? && !apc.Acquired? ==> call.mgr < |w.mgrs|)
    && ((apc.Registering? || apc.Building?) && !call.recovering ==> call.initial == TaskRunning)
    && (HasHandler(call) ==>
          HandlerIs(w, call.h, call.id) && var t := w.handlers[call.h];
          t.unit == call.unit && t.mgr == call.mgr && (t.h.started <==> apc.Publishing?))
    && (apc.Launching? ==> H.MayLaunch(w.handlers[call.h].h))
    && AcquireAsked(call)
    && (call.recovering && (apc.Registering? || apc.Building? || apc.Resulting? || apc.Launching?) ==>
          (call.initial == TaskExited <==> call.seen.IsTerminal())
              && (call.initial != TaskExited ==> call.initial == TaskRunning))
    && (apc.Resulting? || apc.Launching? ==> w.handlers[call.h].h.state == call.initial)
    && (apc.Resulting? ==> call.recovering && w.handlers[call.h].h.exitResult == None)
    && (apc.Launching? && !call.recovering ==> call.initial == TaskRunning)
  }

  // What StartTask and RecoverTask have asked of systemd: a start at most, and a stop after a start that failed.
  predicate AcquireAsked(call: Call)
    requires call.Acquire?
  {
    && (call.recovering ==> call.asked == [])
    && (call.apc.Encoding? || call.apc.Starting? || call.apc.RollingBack? ==> !call.recovering)
    && match call.apc
       case RollingBack => call.asked == [StartJob]
       case Releasing => call.asked == [] || call.asked == [StartJob, StopJob]
       case Acquired(ok) => call.asked == [] || call.asked == if ok then [StartJob] else [StartJob, StopJob]
       case Registering => call.asked == [] || call.asked == [StartJob]
       case Building => call.asked == [] || call.asked == [StartJob]
       case Launching => call.asked == [] || call.asked == [StartJob]
       case Publishing => call.asked == [] || call.asked == [StartJob]
       case _ => call.asked == []
  }

  // What DestroyTask and StopTask have asked: a stop, and a kill if that did not end it.
  predicate KillFollows(asked: seq<Request>, why: Reason) {
    match why
    case NoReason => asked == [] || asked == [StopJob]
    case ExitSeen => asked == [] || asked == [StopJob]
    case StopJobDone => asked == [StopJob]
    case KillDelivered => asked == [StopJob, Kill]
    case KillFailed => asked == [StopJob, Kill]
    case FoundTerminal => asked == [StopJob, Kill]
  }

  predicate DestroyOk(w: World, call: Call)
    requires call.Destroy?
  {
    var dpc, why := call.dpc, call.why;
    && (HasHandler(call) ==>
          HandlerIs(w, call.h, call.id) && w.handlers[call.h].unit == call.unit && w.handlers[call.h].h.started)
    && (HasHandler(call) && !Finished(call) && !dpc.Disowning? ==> call.id in w.tasks && w.tasks[call.id] == call.h)
    && (dpc.Disowning? ==> call.id !in w.tasks)
    && (dpc.Unregistering? || dpc.Deleting? || dpc.Disowning? ==> H.Joined(w.handlers[call.h].h))
    // Only a forced destroy of an unfinished task issues a stop or a kill.
    && (call.asked != [] ==> call.force)
    && KillFollows(call.asked, why)
    && (dpc.Selecting? || dpc.Killing? ==> call.asked == [StopJob] && why.NoReason?)
    && (dpc.Confirming? ==> why.KillFailed?)
    && (dpc.Checking? && !call.force ==> w.handlers[call.h].h.HasExited())
    && (dpc.Finding? || dpc.Guarding? || dpc.Checking? || dpc.Rejected? || dpc.Unknown? ==>
        call.asked == [] && why.NoReason?)
    // What it takes to get past the waiting.
    && (why.ExitSeen? ==> w.handlers[call.h].h.HasExited())
    && (TearsDown(call) ==>
        why.ExitSeen?
            || why.StopJobDone? || why.KillDelivered? || why.KillFailed? || why.FoundTerminal?)
  }

  // A destroy that will remove its task, or has.
  predicate TearsDown(call: Call)
    requires call.Destroy?
  {
    match call.dpc
    case Cancelling => true
    case Joining => true
    case Unregistering => true
    case Deleting => true
    case Disowning => true
    case Destroyed => true
    case _ => false
  }

  predicate StopOk(w: World, call: Call)
    requires call.Stop?
  {
    && (HasHandler(call) ==> HandlerIs(w, call.h, call.id) && w.handlers[call.h].h.started)
    && (call.spc == StopReturned(true) ==>
          || (call.why.ExitSeen? && HandlerIs(w, call.h, call.id) && w.handlers[call.h].h.started
              && w.handlers[call.h].h.HasExited())
          || call.why.StopJobDone? || call.why.KillDelivered? || call.why.FoundTerminal?)
    && (call.spc.StopFinding? ==> call.why.NoReason?)
    && (call.spc.StopConfirming? ==> call.why.KillFailed?)
    && (call.spc == StopReturned(false) ==> call.why.KillFailed? || call.why.NoReason?)
    && KillFollows(call.asked, call.why)
    && (if call.spc.StopFinding? || (call.spc.StopReturned? && call.why.NoReason?) then call.asked == []
        else call.asked != [])
    && (call.spc.StopSelecting? || call.spc.StopKilling? ==> call.why.NoReason?)
    && (call.spc.StopSelecting? ==> call.grace)
    && (!call.grace ==> !call.why.ExitSeen? && !call.why.StopJobDone?)
  }

  predicate WaitOk(w: World, call: Call)
    requires call.Wait?
  {
    && (HasHandler(call) ==> HandlerIs(w, call.h, call.id) && w.handlers[call.h].h.started)
    && (call.wpc.Snapshot? ==> w.handlers[call.h].h.closed)
    && (call.wpc.Delivered? ==>
          !call.wpc.fallback && w.handlers[call.h].h.closed && w.handlers[call.h].h.exitResult == Some(call.wpc.result))
  }

  predicate CallOk(w: World, call: Call) {
    && HolderOwns(w, call)
    && match call
       case Acquire(_, _, _, _, _, _, _, _, _) => AcquireOk(w, call)
       case Destroy(_, _, _, _, _, _, _) => DestroyOk(w, call)
       case Stop(_, _, _, _, _, _) => StopOk(w, call)
       case Wait(_, _, _) => WaitOk(w, call)
  }

  ghost predicate CallsOk(s: State) {
    forall c | c in s.calls :: CallOk(s.w, s.calls[c])
  }

  ghost predicate HandlersOk(w: World) {
    forall i | 0 <= i < |w.handlers| :: H.Inv(w.handlers[i].h) && w.handlers[i].mgr < |w.mgrs|
  }

  ghost predicate ClaimsBacked(s: State) {
    forall u :: Backed(s, u)
  }

  ghost predicate OwnInv(s: State) {
    TrackedOwn(s.w) && HandlersOk(s.w) && Serial(s) && CallsOk(s) && ClaimsBacked(s)
  }

  // ---- What a step means for everyone else ----

  // How a handler may change under a step that is not its own task's.
  predicate Evolved(t: Handler, t': Handler) {
    && t'.(h := t.h) == t
    && t'.h.started == t.h.started
    && (t.h.HasExited() ==> t'.h.HasExited())
    && (t.h.started && H.Joined(t.h) ==> H.Joined(t'.h))
    && (H.MayLaunch(t.h) && !t.h.started ==> H.MayLaunch(t'.h))
    && (t.h.started && t.h.closed ==> t'.h.closed && t'.h.exitResult == t.h.exitResult)
    && (!t.h.started ==> t'.h.state == t.h.state && t'.h.exitResult == t.h.exitResult)
  }

  // A step on behalf of task who, or of no task, as every other task sees it.
  ghost predicate Rely(w: World, w': World, who: Option<string>) {
    && |w.mgrs| <= |w'.mgrs|
    && |w.handlers| <= |w'.handlers|
    && (forall i | 0 <= i < |w.handlers| ::
          if who == Some(w.handlers[i].id) && !w.handlers[i].h.started
              then w'.handlers[i].(h := w.handlers[i].h) == w.handlers[i]
          else Evolved(w.handlers[i], w'.handlers[i]))
    && (forall id | who != Some(id) ::
        (id in w.tasks <==> id in w'.tasks) && (id in w.tasks ==> w.tasks[id] == w'.tasks[id]))
    && (forall id, u | who != Some(id) :: Owns(w, id, u) <==> Owns(w', id, u))
  }

  lemma OthersKeepCallOk(w: World, w': World, who: Option<string>, call: Call)
    requires CallOk(w, call) && Rely(w, w', who)
    requires who == Some(call.id) ==> !Busy(call)
    ensures CallOk(w', call)
  {
  }

  lemma OthersKeepTracked(w: World, w': World, who: Option<string>, id: string)
    requires TrackedOk(w, id) && Rely(w, w', who) && who != Some(id)
    ensures TrackedOk(w', id)
  {
  }

  // ---- Effects ----

  // The critical sections a call of task id may run.
  ghost predicate Fits(w: World, eff: Effect, id: string) {
    match eff
    case TakeUnit(unit, i) => i == id && MayClaim(w.owners, unit, id)
    case DropUnit(unit) => Owns(w, id, unit)
    case AddHandler(t) => t.id == id && t.mgr < |w.mgrs| && H.Inv(t.h)
    case OnHandler(i, he) =>
      HandlerIs(w, i, id) && if w.handlers[i].h.started then he.Cancel? else H.Orderly(w.handlers[i].h, he)
    case StoreTask(i, h) => i == id
    case ForgetTask(i) => i == id
    case _ => true
  }

  // What an event of its own, or one of its task's calls, may do to a handler.
  lemma HandlerEvolves(t: H.State, he: H.Event)
    requires H.Inv(t) && H.Enabled(t, he) && H.Orderly(t, he)
    ensures var t' := H.Step(t, he);
            && H.Inv(t')
            && (t.HasExited() ==> t'.HasExited())
            && (t.started && H.Joined(t) ==> H.Joined(t'))
            && (t.started ==> t'.started && (t.closed ==> t'.closed && t'.exitResult == t.exitResult))
            && (!he.Launch? ==> t'.started == t.started)
            && (!t.started && !he.Launch? && H.MayLaunch(t) ==> H.MayLaunch(t'))
            && (!t.started && !he.SetResult? ==> t'.state == t.state && t'.exitResult == t.exitResult)
  {
    H.StepKeepsInv(t, he);
    if !t.started && !he.SetResult? {
      UnstartedHandlerStays(t, he);
    }
    H.FlagsStay(t, he);
    HandlerStaysJoined(t, he);
    if t.started && t.HasExited() {
      H.ExitStep(t, he);
    }
  }

  lemma UnstartedHandlerStays(t: H.State, he: H.Event)
    requires H.Inv(t) && H.Enabled(t, he) && !t.started && !he.SetResult?
    ensures H.Step(t, he).state == t.state && H.Step(t, he).exitResult == t.exitResult
  {
  }

  lemma HandlerStaysJoined(t: H.State, he: H.Event)
    requires H.Inv(t) && H.Enabled(t, he)
    ensures t.started && H.Joined(t) ==> H.Joined(H.Step(t, he))
  {
  }

  lemma HandlerEffectRely(w: World, i: nat, he: H.Event, who: Option<string>)
    requires HandlersOk(w) && Possible(w, OnHandler(i, he)) && H.Orderly(w.handlers[i].h, he)
    requires he.Launch? || he.SetResult? ==> who == Some(w.handlers[i].id)
    ensures Rely(w, Apply(w, OnHandler(i, he)), who) && HandlersOk(Apply(w, OnHandler(i, he)))
  {
    hide H.Step, H.Enabled, H.Inv, H.Orderly;
    HandlerEvolves(w.handlers[i].h, he);
    var w' := Apply(w, OnHandler(i, he));
    assert forall k | 0 <= k < |w.handlers| && k != i :: w'.handlers[k] == w.handlers[k];
  }

  lemma EffectRely(w: World, eff: Effect, id: string)
    requires HandlersOk(w) && Possible(w, eff) && Fits(w, eff, id)
    ensures Rely(w, Apply(w, eff), Some(id)) && HandlersOk(Apply(w, eff))
  {
    hide H.Step, H.Enabled, H.Inv;
    if eff.OnHandler? {
      HandlerEffectRely(w, eff.i, eff.he, Some(id));
    }
  }

  lemma AcquireFits(w: World, call: Call, a: Answer)
    requires HandlersOk(w) && call.Acquire? && CallOk(w, call) && CanAdvance(w, call, a)
    ensures Fits(w, EffectOf(w, call, a), call.id)
  {
  }

  lemma DestroyFits(w: World, call: Call, a: Answer)
    requires HandlersOk(w) && call.Destroy? && CallOk(w, call) && CanAdvance(w, call, a)
    ensures Fits(w, EffectOf(w, call, a), call.id)
  {
  }

  // Steps without an effect of their own.
  predicate Preparing(call: Call)
    requires call.Acquire?
  {
    match call.apc
    case Looking => true
    case Admitting => true
    case Encoding => true
    case Querying => true
    case Starting => true
    case RollingBack => true
    case _ => false
  }

  lemma PreparingNextOk(w: World, call: Call, a: Answer)
    requires call.Acquire? && Preparing(call) && CallOk(w, call) && CanAdvance(w, call, a)
    ensures EffectOf(w, call, a) == Quiet && CallOk(w, NextAcquire(w, call, a))
  {
  }

  lemma BuildNextOk(w: World, call: Call, a: Answer)
    requires call.Acquire? && (call.apc.Building? || call.apc.Resulting? || call.apc.Launching?)
    requires HandlersOk(w) && CallOk(w, call) && CanAdvance(w, call, a)
    ensures CallOk(Apply(w, EffectOf(w, call, a)), NextAcquire(w, call, a))
  {
    var w' := Apply(w, EffectOf(w, call, a));
    assert call.apc.Resulting? ==> H.Inv(w.handlers[call.h].h);
  }

  lemma AcquireNextOk(w: World, call: Call, a: Answer)
    requires HandlersOk(w) && call.Acquire? && CallOk(w, call) && CanAdvance(w, call, a)
    ensures CallOk(Apply(w, EffectOf(w, call, a)), NextAcquire(w, call, a))
  {
    if Preparing(call) {
      PreparingNextOk(w, call, a);
    } else if call.apc.Building? || call.apc.Resulting? || call.apc.Launching? {
      BuildNextOk(w, call, a);
    }
  }

  lemma DestroyEarlyNextOk(w: World, call: Call, a: Answer)
    requires TrackedOk(w, call.id) && call.Destroy? && !TearsDown(call)
    requires HandlersOk(w) && CallOk(w, call) && CanAdvance(w, call, a)
    ensures EffectOf(w, call, a) == Quiet && CallOk(w, NextDestroy(w, call, a))
  {
    assert HasHandler(call) ==> H.Inv(w.handlers[call.h].h);
  }

  lemma DestroyNextOk(w: World, call: Call, a: Answer)
    requires HandlersOk(w) && TrackedOk(w, call.id) && call.Destroy? && CallOk(w, call) && CanAdvance(w, call, a)
    ensures CallOk(Apply(w, EffectOf(w, call, a)), NextDestroy(w, call, a))
  {
    if !TearsDown(call) {
      DestroyEarlyNextOk(w, call, a);
    }
  }

  lemma OtherNextOk(w: World, call: Call, a: Answer)
    requires HandlersOk(w) && TrackedOk(w, call.id) && (call.Stop? || call.Wait?) && CallOk(w, call)
    requires CanAdvance(w, call, a)
    ensures CallOk(w, NextCall(w, call, a))
  {
    assert HasHandler(call) ==> H.Inv(w.handlers[call.h].h);
  }

  // ---- Claims ----

  // A call's step may neither claim a unit it does not hold afterwards, nor give up a unit that stays
  // claimed without a task, nor lose the task of a unit it does not hold.
  ghost predicate KeepsClaims(w: World, w': World, call: Call, call': Call) {
    && call'.id == call.id
    && (forall u | u in w'.owners :: Owns(w, w'.owners[u], u) || (w'.owners[u] == call'.id && Holds(call') == Some(u)))
    && (Holds(call).Some? && Holds(call') != Holds(call) ==>
          !Owns(w', call.id, Holds(call).value) || Tracks(w', call.id, Holds(call).value))
    && (forall id, u | Tracks(w, id, u) :: Tracks(w', id, u) || (id == call'.id && Holds(call') == Some(u)))
  }

  lemma ClaimsStayBacked(s: State, c: nat, w': World, call': Call)
    requires ClaimsBacked(s) && c in s.calls && KeepsClaims(s.w, w', s.calls[c], call')
    ensures ClaimsBacked(State(w', s.calls[c := call']))
  {
    var s' := State(w', s.calls[c := call']);
    forall u | u in w'.owners ensures Backed(s', u) {
      var id := w'.owners[u];
      if id == call'.id && Holds(call') == Some(u) {
        assert HeldBy(s', c, id, u);
      } else if !Tracks(s.w, id, u) {
        assert Backed(s, u);
        var d :| HeldBy(s, d, id, u);
        assert d != c ==> HeldBy(s', d, id, u);
      }
    }
  }

  lemma AcquireKeepsClaims(w: World, call: Call, a: Answer)
    requires call.Acquire? && CallOk(w, call) && CanAdvance(w, call, a)
    ensures KeepsClaims(w, Apply(w, EffectOf(w, call, a)), call, NextAcquire(w, call, a))
    ensures Busy(call)
  {
  }

  lemma DestroyKeepsClaims(w: World, call: Call, a: Answer)
    requires TrackedOk(w, call.id) && call.Destroy? && CallOk(w, call) && CanAdvance(w, call, a)
    ensures KeepsClaims(w, Apply(w, EffectOf(w, call, a)), call, NextDestroy(w, call, a))
    ensures Busy(call)
  {
  }

  // ---- Every step ----

  // A busy call moves: what its step means for the other calls and tasks.
  lemma MoveKeepsOwn(s: State, c: nat, w': World, call': Call)
    requires OwnInv(s) && c in s.calls && Busy(s.calls[c]) && call'.id == s.calls[c].id
    requires Rely(s.w, w', Some(call'.id)) && HandlersOk(w') && CallOk(w', call') && TrackedOk(w', call'.id)
    requires KeepsClaims(s.w, w', s.calls[c], call')
    ensures OwnInv(State(w', s.calls[c := call']))
  {
    var s' := State(w', s.calls[c := call']);
    ClaimsStayBacked(s, c, w', call');
    forall d | d in s'.calls ensures CallOk(w', s'.calls[d]) {
      if d != c {
        OthersKeepCallOk(s.w, w', Some(call'.id), s.calls[d]);
      }
    }
    forall id ensures TrackedOk(w', id) {
      if id != call'.id {
        OthersKeepTracked(s.w, w', Some(call'.id), id);
      }
    }
  }

  lemma AcquireTracks(w: World, call: Call, a: Answer)
    requires call.Acquire? && TrackedOk(w, call.id) && CallOk(w, call) && CanAdvance(w, call, a)
    ensures TrackedOk(Apply(w, EffectOf(w, call, a)), call.id)
  {
  }

  lemma DestroyTracks(w: World, call: Call, a: Answer)
    requires call.Destroy? && TrackedOk(w, call.id) && CallOk(w, call) && CanAdvance(w, call, a)
    ensures TrackedOk(Apply(w, EffectOf(w, call, a)), call.id)
  {
  }

  lemma AcquireKeepsOwn(s: State, c: nat, a: Answer)
    requires OwnInv(s) && Enabled(s, Advance(c, a)) && s.calls[c].Acquire?
    ensures OwnInv(Step(s, Advance(c, a)))
  {
    var call := s.calls[c];
    assert CallOk(s.w, call) && TrackedOk(s.w, call.id);
    AcquireFits(s.w, call, a);
    EffectRely(s.w, EffectOf(s.w, call, a), call.id);
    AcquireNextOk(s.w, call, a);
    AcquireTracks(s.w, call, a);
    AcquireKeepsClaims(s.w, call, a);
    hide CallOk, Apply, EffectOf, NextAcquire, Rely, KeepsClaims, TrackedOk, CanAdvance, HandlersOk;
    MoveKeepsOwn(s, c, Apply(s.w, EffectOf(s.w, call, a)), NextAcquire(s.w, call, a));
  }

  lemma DestroyKeepsOwn(s: State, c: nat, a: Answer)
    requires OwnInv(s) && Enabled(s, Advance(c, a)) && s.calls[c].Destroy?
    ensures OwnInv(Step(s, Advance(c, a)))
  {
    var call := s.calls[c];
    assert CallOk(s.w, call) && TrackedOk(s.w, call.id);
    DestroyFits(s.w, call, a);
    EffectRely(s.w, EffectOf(s.w, call, a), call.id);
    DestroyNextOk(s.w, call, a);
    DestroyTracks(s.w, call, a);
    DestroyKeepsClaims(s.w, call, a);
    hide CallOk, Apply, EffectOf, NextDestroy, Rely, KeepsClaims, TrackedOk, CanAdvance, HandlersOk;
    MoveKeepsOwn(s, c, Apply(s.w, EffectOf(s.w, call, a)), NextDestroy(s.w, call, a));
  }

  // A call that is new, or that never claims anything.
  lemma BystanderKeepsOwn(s: State, c: nat, call': Call)
    requires OwnInv(s) && CallOk(s.w, call') && Holds(call').None?
    requires c in s.calls ==> Holds(s.calls[c]).None?
    requires Busy(call') ==> NoneBusy(s, call'.id)
    ensures OwnInv(s.(calls := s.calls[c := call']))
  {
    var s' := s.(calls := s.calls[c := call']);
    forall u ensures Backed(s', u) {
      assert Backed(s, u);
      if d :| u in s.w.owners && HeldBy(s, d, s.w.owners[u], u) {
        assert HeldBy(s', d, s.w.owners[u], u);
      }
    }
  }

  lemma OtherCallsKeepOwn(s: State, c: nat, a: Answer)
    requires OwnInv(s) && Enabled(s, Advance(c, a)) && (s.calls[c].Stop? || s.calls[c].Wait?)
    ensures OwnInv(Step(s, Advance(c, a)))
  {
    var call := s.calls[c];
    assert CallOk(s.w, call) && TrackedOk(s.w, call.id);
    OtherNextOk(s.w, call, a);
    BystanderKeepsOwn(s, c, NextCall(s.w, call, a));
  }

  lemma WorldKeepsOwn(s: State, w': World)
    requires OwnInv(s) && Rely(s.w, w', None) && HandlersOk(w') && w'.owners == s.w.owners && w'.tasks == s.w.tasks
    ensures OwnInv(s.(w := w'))
  {
    var s' := s.(w := w');
    forall u ensures Backed(s', u) {
      assert Backed(s, u);
      if d :| u in s.w.owners && HeldBy(s, d, s.w.owners[u], u) {
        assert HeldBy(s', d, s.w.owners[u], u);
      }
    }
    forall d | d in s.calls ensures CallOk(w', s.calls[d]) {
      OthersKeepCallOk(s.w, w', None, s.calls[d]);
    }
    forall id ensures TrackedOk(w', id) {
      OthersKeepTracked(s.w, w', None, id);
    }
  }

  /** One step of anything, under the two hypotheses, keeps the invariant. */
  lemma StepKeepsOwn(s: State, e: Event)
    requires OwnInv(s) && Enabled(s, e) && Disciplined(s, e)
    ensures OwnInv(Step(s, e))
  {
    hide OwnInv, CallOk, HandlersOk, Rely;
    match e
    case Advance(c, a) =>
      match s.calls[c] {
        case Acquire(_, _, _, _, _, _, _, _, _) => AcquireKeepsOwn(s, c, a);
        case Destroy(_, _, _, _, _, _, _) => DestroyKeepsOwn(s, c, a);
        case _ => OtherCallsKeepOwn(s, c, a);
      }
    case HandlerMoves(i, he) => EnvironmentKeepsOwn(s, e);
    case SwapManager => EnvironmentKeepsOwn(s, e);
    case StopManager(_) => EnvironmentKeepsOwn(s, e);
    case _ => BeginKeepsOwn(s, e);
  }

  lemma EnvironmentKeepsOwn(s: State, e: Event)
    requires OwnInv(s) && Enabled(s, e) && (e.HandlerMoves? || e.SwapManager? || e.StopManager?)
    ensures OwnInv(Step(s, e))
  {
    if e.HandlerMoves? {
      HandlerEffectRely(s.w, e.i, e.he, None);
      hide H.Step, H.Enabled, H.Inv, Rely;
      WorldKeepsOwn(s, Step(s, e).w);
    } else {
      hide H.Inv;
      WorldKeepsOwn(s, Step(s, e).w);
    }
  }

  lemma BeginKeepsOwn(s: State, e: Event)
    requires OwnInv(s) && Enabled(s, e) && Begins(e) && Serialized(s, e)
    ensures OwnInv(Step(s, e))
  {
    BystanderKeepsOwn(s, e.c, NewCall(e));
  }
}
