/** The ownership and task lifecycle protocol (plugin/task.go): StartTask, RecoverTask, StopTask,
    DestroyTask and WaitTask calls as program counters over the driver's shared state, one step per
    critical section or systemd request. A step has an effect on the shared world and a successor call.
    An event names the call that moves and what systemd, a timer or the configuration answered it;
    everything else about a step is determined. */
module Lifecycle {
  import opened Options
  import opened Systemd
  import opened Ownership
  import opened UnitTables
  import H = TaskHandler

  // A task.Handler: who it is for, the manager and wake channel it was built with, and its state.
  datatype Handler = Handler(id: string, unit: string, mgr: nat, wake: Option<nat>, h: H.State)

  // StartTask and RecoverTask, in program order. From Encoding to Releasing the call holds its unit.
  datatype AcquirePc =
    | Looking | Admitting | Claiming | Encoding | Querying | Starting | RollingBack
    | Registering | Building | Resulting | Launching | Publishing | Releasing | Acquired(ok: bool)

  // DestroyTask, in program order. From Guarding on the call knows its handler.
  datatype DestroyPc =
    | Finding | Guarding | Checking | Selecting | Killing | Confirming | Cancelling | Joining
    | Unregistering | Deleting | Disowning | Destroyed | Rejected | Unknown

  datatype StopPc = StopFinding | StopSelecting | StopKilling | StopConfirming | StopReturned(ok: bool)

  datatype WaitPc =
    | WaitFinding | Waiting | Snapshot | Delivered(result: ExitResult, fallback: bool) | WaitEnded

  // Why a stop or a destroy went on.
  datatype Reason = NoReason | ExitSeen | StopJobDone | KillDelivered | KillFailed | FoundTerminal

  // What a call may ask of systemd. asked, in a call: what it has asked for its unit so far, in order.
  datatype Request = StartJob | StopJob | Kill

  datatype Call =
    | Acquire(id: string, unit: string, recovering: bool, apc: AcquirePc,
              mgr: nat, h: nat, initial: TaskState, seen: UnitState, asked: seq<Request>)
    | Destroy(id: string, unit: string, force: bool, dpc: DestroyPc, h: nat, asked: seq<Request>, why: Reason)
    | Stop(id: string, grace: bool, spc: StopPc, h: nat, asked: seq<Request>, why: Reason)
    | Wait(id: string, wpc: WaitPc, h: nat)

  // Everything the calls share: the ownership map, the store, the handlers ever built, and the unit
  // tables of the managers ever installed, the last of which is the current one.
  datatype World = World(owners: Owners, tasks: map<string, nat>, handlers: seq<Handler>, mgrs: seq<UnitTable>)

  datatype State = State(w: World, calls: map<nat, Call>)

  datatype Answer =
    | Silent                                // nothing is asked, or a call succeeded
    | Refused                               // an error, or a job that did not come up "done"
    | Reported(st: UnitState)               // an ActiveState reading
    | ExitStatusIs(status: ExitStatus)
    | WaitClosed | JobDone | JobFailed | TimedOut | ContextDone   // which select case fired

  // One critical section on the shared world.
  datatype Effect =
    | Quiet
    | TakeUnit(unit: string, id: string)    // claimUnit, when it succeeds
    | DropUnit(unit: string)                // releaseUnit
    | EnterUnit(mgr: nat, unit: string)     // Manager.RegisterUnit
    | LeaveUnit(unit: string)               // Manager.UnregisterUnit, on the current manager
    | AddHandler(t: Handler)                // task.NewHandler
    | OnHandler(i: nat, he: H.Event)
    | StoreTask(id: string, h: nat)         // Store.Set
    | ForgetTask(id: string)                // Store.Delete

  datatype Event =
    | BeginAcquire(c: nat, id: string, unit: string, recovering: bool)
    | BeginDestroy(c: nat, id: string, force: bool)
    | BeginStop(c: nat, id: string, grace: bool)
    | BeginWait(c: nat, id: string)
    | Advance(c: nat, a: Answer)
    | HandlerMoves(i: nat, he: H.Event)     // a goroutine of handler i, or a wake on its channel
    | SwapManager                           // SetConfig installs a new manager
    | StopManager(m: nat)                   // ... and stops one it replaced
    | EmptyStore                            // Shutdown's Store.Stop

  const Init := State(World(map[], map[], [], []), map[])

  // ---- Effects ----

  predicate Possible(w: World, eff: Effect) {
    match eff
    case EnterUnit(m, _) => m < |w.mgrs|
    case LeaveUnit(_) => 0 < |w.mgrs|
    case OnHandler(i, he) => i < |w.handlers| && H.Enabled(w.handlers[i].h, he)
    case _ => true
  }

  function Apply(w: World, eff: Effect): World
    requires Possible(w, eff)
  {
    match eff
    case Quiet => w
    case TakeUnit(unit, id) => w.(owners := Claim(w.owners, unit, id))
    case DropUnit(unit) => w.(owners := Release(w.owners, unit))
    case EnterUnit(m, unit) => w.(mgrs := w.mgrs[m := Register(w.mgrs[m], unit)])
    case LeaveUnit(unit) => w.(mgrs := w.mgrs[|w.mgrs| - 1 := Unregister(w.mgrs[|w.mgrs| - 1], unit)])
    case AddHandler(t) => w.(handlers := w.handlers + [t])
    case OnHandler(i, he) => w.(handlers := w.handlers[i := w.handlers[i].(h := H.Step(w.handlers[i].h, he))])
    case StoreTask(id, h) => w.(tasks := w.tasks[id := h])
    case ForgetTask(id) => w.(tasks := w.tasks - {id})
  }

  // ---- Steps of a call ----

  predicate HasHandler(call: Call) {
    match call
    case Acquire(_, _, _, apc, _, _, _, _, _) => apc.Resulting? || apc.Launching? || apc.Publishing?
    case Destroy(_, _, _, dpc, _, _, _) => !dpc.Finding? && !dpc.Unknown?
    case Stop(_, _, spc, _, _, _) => spc.StopSelecting? || spc.StopKilling? || spc.StopConfirming?
    case Wait(_, wpc, _) => wpc.Waiting? || wpc.Snapshot? || wpc.Delivered?
  }

  predicate Finished(call: Call) {
    match call
    case Acquire(_, _, _, apc, _, _, _, _, _) => apc.Acquired?
    case Destroy(_, _, _, dpc, _, _, _) => dpc.Destroyed? || dpc.Rejected? || dpc.Unknown?
    case Stop(_, _, spc, _, _, _) => spc.StopReturned?
    case Wait(_, wpc, _) => wpc.Delivered? || wpc.WaitEnded?
  }

  // What a call may be told where it stands. The select statements fire on what has happened;
  // Joining is Handler.Stop waiting for the poll loop and the log writer.
  predicate Answerable(w: World, call: Call, a: Answer)
    requires HasHandler(call) ==> call.h < |w.handlers|
  {
    match call
    case Acquire(_, _, _, apc, _, _, _, _, _) =>
      apc.Querying? ==> a.Reported? || a.Refused?
    case Destroy(_, _, _, dpc, h, _, _) =>
      && (dpc.Selecting? ==> a.JobDone? || a.JobFailed? || a.TimedOut? || (a.WaitClosed? && w.handlers[h].h.closed))
      && (dpc.Confirming? ==> a.Reported? || a.Refused?)
      && (dpc.Joining? ==> H.Joined(w.handlers[h].h))
    case Stop(_, _, spc, h, _, _) =>
      && (spc.StopSelecting? ==> a.JobDone? || a.JobFailed? || a.TimedOut? || (a.WaitClosed? && w.handlers[h].h.closed))
      && (spc.StopConfirming? ==> a.Reported? || a.Refused?)
    case Wait(_, wpc, h) =>
      wpc.Waiting? ==> a.ContextDone? || (a.WaitClosed? && w.handlers[h].h.closed)
  }

  predicate CanAdvance(w: World, call: Call, a: Answer) {
    && !Finished(call)
    && (HasHandler(call) ==> call.h < |w.handlers|)
    && (call.Acquire? && call.apc.Building? ==> call.mgr < |w.mgrs|)
    && Answerable(w, call, a)
    && Possible(w, EffectOf(w, call, a))
  }

  function EffectOf(w: World, call: Call, a: Answer): Effect
    requires HasHandler(call) ==> call.h < |w.handlers|
    requires call.Acquire? && call.apc.Building? ==> call.mgr < |w.mgrs|
  {
    match call
    case Acquire(id, unit, _, apc, mgr, h, initial, seen, _) =>
      (match apc
       case Claiming => if MayClaim(w.owners, unit, id) then TakeUnit(unit, id) else Quiet
       case Registering => EnterUnit(mgr, unit)
       case Building => AddHandler(Handler(id, unit, mgr, w.mgrs[mgr].Lookup(unit), H.New(initial)))
       case Resulting =>
         if w.handlers[h].h.HasExited()
         then OnHandler(h, H.SetResult(BuildExitResult(seen, if a.ExitStatusIs? then Some(a.status) else None), 0))
         else Quiet
       case Launching => OnHandler(h, H.Launch)
       case Publishing => StoreTask(id, h)
       case Releasing => DropUnit(unit)
       case _ => Quiet)
    case Destroy(id, unit, _, dpc, h, _, _) =>
      (match dpc
       case Cancelling => OnHandler(h, H.Cancel)
       // Without a manager there would be nothing to unregister from.
       case Unregistering => if |w.mgrs| == 0 then Quiet else LeaveUnit(unit)
       case Deleting => ForgetTask(id)
       case Disowning => DropUnit(unit)
       case _ => Quiet)
    case _ => Quiet
  }

  function NextCall(w: World, call: Call, a: Answer): Call
    requires CanAdvance(w, call, a)
  {
    match call
    case Acquire(_, _, _, _, _, _, _, _, _) => NextAcquire(w, call, a)
    case Destroy(_, _, _, _, _, _, _) => NextDestroy(w, call, a)
    case Stop(_, _, _, _, _, _) => NextStop(w, call, a)
    case Wait(_, _, _) => NextWait(w, call, a)
  }

  function NextAcquire(w: World, call: Call, a: Answer): Call
    requires call.Acquire? && CanAdvance(w, call, a)
  {
    match call.apc
    // RecoverTask has nothing to do for a task it knows; StartTask fails.
    case Looking => call.(apc := if call.id in w.tasks then Acquired(call.recovering) else Admitting)
    // Decoding, validation, the unit policy and getManager.
    case Admitting =>
      if a.Refused? || |w.mgrs| == 0 then call.(apc := Acquired(false))
      else call.(apc := Claiming, mgr := |w.mgrs| - 1)
    case Claiming =>
      if !MayClaim(w.owners, call.unit, call.id) then call.(apc := Acquired(false))
      else call.(apc := if call.recovering then Querying else Encoding)
    case Encoding => call.(apc := if a.Refused? then Releasing else Querying)
    case Querying =>
      if a.Refused? then call.(apc := Releasing)
      else if call.recovering then
        // A transitional unit is recovered as running.
        var t := if ToTaskState(a.st) == TaskUnknown then TaskRunning else ToTaskState(a.st);
        call.(apc := Registering, initial := t, seen := a.st)
      else if ToTaskState(a.st) == TaskRunning then call.(apc := Registering, initial := TaskRunning, seen := a.st)
      else call.(apc := Starting)
    case Starting =>
      if a.Refused? then call.(apc := RollingBack, asked := [StartJob])
      else call.(apc := Registering, initial := TaskRunning, seen := Active, asked := [StartJob])
    // Whether or not the stop succeeded.
    case RollingBack => call.(apc := Releasing, asked := call.asked + [StopJob])
    case Registering => call.(apc := Building)
    case Building => call.(apc := if call.recovering then Resulting else Launching, h := |w.handlers|)
    case Resulting => call.(apc := Launching)
    case Launching => call.(apc := Publishing)
    case Publishing => call.(apc := Acquired(true))
    case Releasing => call.(apc := Acquired(false))
    case Acquired(_) => call
  }

  function NextDestroy(w: World, call: Call, a: Answer): Call
    requires call.Destroy? && CanAdvance(w, call, a)
  {
    match call.dpc
    case Finding =>
      if call.id !in w.tasks then call.(dpc := Unknown)
      else
        var h := w.tasks[call.id];
        call.(dpc := Guarding, h := h, unit := if h < |w.handlers| then w.handlers[h].unit else "")
    case Guarding => call.(dpc := if !w.handlers[call.h].h.HasExited() && !call.force then Rejected else Checking)
    case Checking =>
      if w.handlers[call.h].h.HasExited() then call.(dpc := Cancelling, why := ExitSeen)
      else call.(dpc := Selecting, asked := [StopJob])
    case Selecting =>
      if a.WaitClosed? then call.(dpc := Cancelling, why := ExitSeen)
      else if a.JobDone? then call.(dpc := Cancelling, why := StopJobDone)
      else call.(dpc := Killing)
    // forceKillTask: a failed kill is followed by a reading, and what it comes to is only logged.
    case Killing =>
      if a.Refused? then call.(dpc := Confirming, why := KillFailed, asked := call.asked + [Kill])
      else call.(dpc := Cancelling, why := KillDelivered, asked := call.asked + [Kill])
    case Confirming =>
      call.(dpc := Cancelling, why := if a.Reported? && a.st.IsTerminal() then FoundTerminal else KillFailed)
    case Cancelling => call.(dpc := Joining)
    case Joining => call.(dpc := Unregistering)
    case Unregistering => call.(dpc := Deleting)
    case Deleting => call.(dpc := Disowning)
    case Disowning => call.(dpc := Destroyed)
    case _ => call
  }

  function NextStop(w: World, call: Call, a: Answer): Call
    requires call.Stop? && CanAdvance(w, call, a)
  {
    match call.spc
    case StopFinding =>
      if call.id !in w.tasks then call.(spc := StopReturned(false))
      else call.(spc := if call.grace then StopSelecting else StopKilling, h := w.tasks[call.id], asked := [StopJob])
    case StopSelecting =>
      if a.WaitClosed? then call.(spc := StopReturned(true), why := ExitSeen)
      else if a.JobDone? then call.(spc := StopReturned(true), why := StopJobDone)
      else call.(spc := StopKilling)
    case StopKilling =>
      if a.Refused? then call.(spc := StopConfirming, why := KillFailed, asked := call.asked + [Kill])
      else call.(spc := StopReturned(true), why := KillDelivered, asked := call.asked + [Kill])
    case StopConfirming =>
      if a.Reported? && a.st.IsTerminal() then call.(spc := StopReturned(true), why := FoundTerminal)
      else call.(spc := StopReturned(false))
    case StopReturned(_) => call
  }

  function NextWait(w: World, call: Call, a: Answer): Call
    requires call.Wait? && CanAdvance(w, call, a)
  {
    match call.wpc
    case WaitFinding =>
      if call.id !in w.tasks then call.(wpc := WaitEnded) else call.(wpc := Waiting, h := w.tasks[call.id])
    case Waiting => call.(wpc := if a.ContextDone? then WaitEnded else Snapshot)
    case Snapshot =>
      var status := H.TaskStatus(w.handlers[call.h].h);
      call.(wpc := if status.exitResult.Some? then Delivered(status.exitResult.value, false)
                   else Delivered(ExitResult(0, 0, None), true))
    case _ => call
  }

  // ---- Steps ----

  predicate Begins(e: Event) {
    e.BeginAcquire? || e.BeginDestroy? || e.BeginStop? || e.BeginWait?
  }

  function NewCall(e: Event): Call
    requires Begins(e)
  {
    match e
    case BeginAcquire(_, id, unit, recovering) => Acquire(id, unit, recovering, Looking, 0, 0, TaskUnknown, Other(""),
        [])
    case BeginDestroy(_, id, force) => Destroy(id, "", force, Finding, 0, [], NoReason)
    case BeginStop(_, id, grace) => Stop(id, grace, StopFinding, 0, [], NoReason)
    case BeginWait(_, id) => Wait(id, WaitFinding, 0)
  }

  // Handlers of tasks are set up and cancelled by calls only.
  predicate HandlersOwnEvent(he: H.Event) {
    !he.SetResult? && !he.Launch? && !he.Cancel?
  }

  predicate Enabled(s: State, e: Event) {
    match e
    case Advance(c, a) => c in s.calls && CanAdvance(s.w, s.calls[c], a)
    case HandlerMoves(i, he) => HandlersOwnEvent(he) && Possible(s.w, OnHandler(i, he))
    case SwapManager => true
    case StopManager(m) => m + 1 < |s.w.mgrs|
    case EmptyStore => true
    case _ => e.c !in s.calls
  }

  function Step(s: State, e: Event): State
    requires Enabled(s, e)
  {
    match e
    case Advance(c, a) =>
      var call := s.calls[c];
      State(Apply(s.w, EffectOf(s.w, call, a)), s.calls[c := NextCall(s.w, call, a)])
    case HandlerMoves(i, he) => s.(w := Apply(s.w, OnHandler(i, he)))
    case SwapManager => s.(w := s.w.(mgrs := s.w.mgrs + [NoUnits]))
    case StopManager(m) => s.(w := s.w.(mgrs := s.w.mgrs[m := Emptied(s.w.mgrs[m])]))
    case EmptyStore => s.(w := s.w.(tasks := map[]))
    case _ => s.(calls := s.calls[e.c := NewCall(e)])
  }
}
