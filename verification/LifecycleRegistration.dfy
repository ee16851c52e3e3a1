/** Registrations under one manager: with no manager swapped in while tasks or calls depend on the
    old one, every tracked task's unit is registered and its handler holds the registered channel. */
module LifecycleRegistration {
  import opened Options
  import opened Ownership
  import opened Lifecycle
  import opened LifecycleProofs
  import opened LifecycleTheorems
  import H = TaskHandler

  // No manager swap while a task is tracked or a call is in flight.
  predicate SwapsWhenIdle(s: State, e: Event) {
    e == SwapManager ==> s.w.tasks == map[] && forall c | c in s.calls :: !Busy(s.calls[c])
  }

  function Registration(w: World, unit: string): Option<nat> {
    if w.mgrs == [] then None else w.mgrs[|w.mgrs| - 1].Lookup(unit)
  }

  // The handler was built with the current manager and polls the channel registered there.
  predicate Registered(w: World, t: Handler) {
    t.mgr + 1 == |w.mgrs| && t.wake.Some? && Registration(w, t.unit) == t.wake
  }

  predicate RegAcquireOk(w: World, call: Call)
    requires call.Acquire?
  {
    match call.apc
    case Looking => true
    case Admitting => true
    case Claiming => call.mgr + 1 == |w.mgrs|
    case Building => call.mgr + 1 == |w.mgrs| && Registration(w, call.unit).Some?
    case Resulting => call.h < |w.handlers| && Registered(w, w.handlers[call.h])
    case Launching => call.h < |w.handlers| && Registered(w, w.handlers[call.h])
    case Publishing => call.h < |w.handlers| && Registered(w, w.handlers[call.h])
    case Releasing => Registration(w, call.unit).None?
    case Acquired(_) => true
    case _ => call.mgr + 1 == |w.mgrs| && Registration(w, call.unit).None?
  }

  predicate RegDestroyOk(w: World, call: Call)
    requires call.Destroy?
  {
    match call.dpc
    case Finding => true
    case Destroyed => true
    case Rejected => true
    case Unknown => true
    case Deleting => Registration(w, call.unit).None?
    case Disowning => Registration(w, call.unit).None?
    case _ => call.h < |w.handlers| && Registered(w, w.handlers[call.h])
  }

  predicate RegCallOk(w: World, call: Call) {
    match call
    case Acquire(_, _, _, _, _, _, _, _, _) => RegAcquireOk(w, call)
    case Destroy(_, _, _, _, _, _, _) => RegDestroyOk(w, call)
    case _ => true
  }

  predicate Unregisters(call: Call) {
    call.Destroy? && call.dpc.Deleting?
  }

  // Call c has unregistered the unit of task id, and is about to forget the task.
  predicate UnregisteredBy(s: State, c: nat, id: string) {
    c in s.calls && Unregisters(s.calls[c]) && s.calls[c].id == id
  }

  predicate TrackedReg(w: World, id: string) {
    id in w.tasks ==> w.tasks[id] < |w.handlers| && Registered(w, w.handlers[w.tasks[id]])
  }

  ghost predicate RegInv(s: State) {
    && (forall c | c in s.calls :: RegCallOk(s.w, s.calls[c]))
    && (forall id :: TrackedReg(s.w, id) || exists c :: UnregisteredBy(s, c, id))
    && (forall u | Registration(s.w, u).Some? :: u in s.w.owners)
  }

  // ---- One call's step ----

  // Only the unit a call holds, before or after its step, can have its registration changed by it.
  ghost predicate RegRely(w: World, w': World, call: Call, call': Call) {
    && |w'.mgrs| == |w.mgrs|
    && |w.handlers| <= |w'.handlers|
    && (forall i | 0 <= i < |w.handlers| :: w'.handlers[i].(h := w.handlers[i].h) == w.handlers[i])
    && (forall u | Holds(call) != Some(u) :: Registration(w', u) == Registration(w, u))
    && (forall u | Holds(call) != Some(u) && Holds(call') != Some(u) && u in w.owners :: u in w'.owners)
  }

  lemma AcquireRegRely(w: World, call: Call, a: Answer)
    requires call.Acquire? && CallOk(w, call) && CanAdvance(w, call, a)
    ensures RegRely(w, Apply(w, EffectOf(w, call, a)), call, NextAcquire(w, call, a))
  {
    hide H.Step, H.Inv, StopOk, WaitOk, DestroyOk;
  }

  lemma AcquireReg(w: World, call: Call, a: Answer)
    requires call.Acquire? && CallOk(w, call) && RegCallOk(w, call) && CanAdvance(w, call, a)
    requires call.apc.Claiming? && MayClaim(w.owners, call.unit, call.id) ==> Registration(w, call.unit).None?
    ensures RegCallOk(Apply(w, EffectOf(w, call, a)), NextAcquire(w, call, a))
  {
    hide H.Step, H.Inv, StopOk, WaitOk, DestroyOk;
    var w', call' := Apply(w, EffectOf(w, call, a)), NextAcquire(w, call, a);
    if call.apc.Building? {
      assert w'.handlers[|w.handlers|].wake == Registration(w', call.unit);
    }
  }

  lemma DestroyRegRely(w: World, call: Call, a: Answer)
    requires call.Destroy? && CallOk(w, call) && CanAdvance(w, call, a)
    ensures RegRely(w, Apply(w, EffectOf(w, call, a)), call, NextDestroy(w, call, a))
  {
    hide H.Step, H.Inv, StopOk, WaitOk, AcquireOk;
  }

  lemma DestroyReg(w: World, call: Call, a: Answer)
    requires call.Destroy? && TrackedOk(w, call.id) && (call.dpc.Finding? ==> TrackedReg(w, call.id))
    requires CallOk(w, call) && RegCallOk(w, call) && CanAdvance(w, call, a)
    ensures RegCallOk(Apply(w, EffectOf(w, call, a)), NextDestroy(w, call, a))
  {
    hide H.Step, H.Inv, StopOk, WaitOk, AcquireOk;
  }

  // What a step leaves its own task and unit with.
  ghost predicate LeavesRegistered(w': World, call: Call, call': Call) {
    && (TrackedReg(w', call'.id) || Unregisters(call'))
    && (Holds(call).Some? && Holds(call') != Holds(call) && Registration(w', Holds(call).value).Some? ==>
          Holds(call).value in w'.owners)
  }

  lemma AcquireLeavesRegistered(w: World, call: Call, a: Answer)
    requires call.Acquire? && CallOk(w, call) && RegCallOk(w, call) && CanAdvance(w, call, a)
    requires call.apc.Looking? ==> TrackedReg(w, call.id)
    ensures LeavesRegistered(Apply(w, EffectOf(w, call, a)), call, NextAcquire(w, call, a))
  {
    hide H.Step, H.Inv, StopOk, WaitOk, DestroyOk;
  }

  lemma DestroyLeavesRegistered(w: World, call: Call, a: Answer)
    requires call.Destroy? && TrackedOk(w, call.id) && CallOk(w, call) && RegCallOk(w, call) && CanAdvance(w, call, a)
    requires call.dpc.Finding? ==> TrackedReg(w, call.id)
    ensures LeavesRegistered(Apply(w, EffectOf(w, call, a)), call, NextDestroy(w, call, a))
  {
    hide H.Step, H.Inv, StopOk, WaitOk, AcquireOk;
  }

  lemma OthersKeepReg(w: World, w': World, call: Call, call': Call, other: Call)
    requires RegRely(w, w', call, call') && RegCallOk(w, other) && CallOk(w, other) && HolderOwns(w, call)
    requires other.id != call.id || !Busy(other)
    ensures RegCallOk(w', other)
  {
    assert Holds(other).Some? ==> Holds(other) != Holds(call);
  }

  lemma OthersKeepTrackedReg(w: World, w': World, call: Call, call': Call, id: string)
    requires RegRely(w, w', call, call') && Rely(w, w', Some(call.id)) && HolderOwns(w, call)
    requires TrackedOk(w, id) && id != call.id && TrackedReg(w, id)
    ensures TrackedReg(w', id)
  {
  }

  lemma MoveKeepsRegCalls(s: State, c: nat, w': World, call': Call)
    requires OwnInv(s) && RegInv(s) && c in s.calls && Busy(s.calls[c]) && call'.id == s.calls[c].id
    requires RegCallOk(w', call') && RegRely(s.w, w', s.calls[c], call')
    ensures forall d | d in s.calls && d != c :: RegCallOk(w', s.calls[d])
  {
    var call := s.calls[c];
    assert CallOk(s.w, call);
    forall d | d in s.calls && d != c ensures RegCallOk(w', s.calls[d]) {
      assert CallOk(s.w, s.calls[d]);
      OthersKeepReg(s.w, w', call, call', s.calls[d]);
    }
  }

  lemma MoveKeepsRegTask(s: State, c: nat, s': State, call': Call, id: string)
    requires c in s.calls && s'.calls == s.calls[c := call']
    requires OwnInv(s) && RegInv(s) && call'.id == s.calls[c].id && id != call'.id
    requires Rely(s.w, s'.w, Some(call'.id)) && HolderOwns(s.w, s.calls[c]) && RegRely(s.w, s'.w, s.calls[c], call')
    ensures TrackedReg(s'.w, id) || exists d :: UnregisteredBy(s', d, id)
  {
    if TrackedReg(s.w, id) {
      assert TrackedOk(s.w, id);
      OthersKeepTrackedReg(s.w, s'.w, s.calls[c], call', id);
    } else {
      var d :| UnregisteredBy(s, d, id);
      assert UnregisteredBy(s', d, id);
    }
  }

  lemma MoveKeepsReg(s: State, c: nat, w': World, call': Call)
    requires OwnInv(s) && RegInv(s) && c in s.calls && Busy(s.calls[c]) && call'.id == s.calls[c].id
    requires Rely(s.w, w', Some(call'.id)) && HolderOwns(w', call') && RegCallOk(w', call')
    requires RegRely(s.w, w', s.calls[c], call') && LeavesRegistered(w', s.calls[c], call')
    ensures RegInv(State(w', s.calls[c := call']))
  {
    var s' := State(w', s.calls[c := call']);
    assert CallOk(s.w, s.calls[c]);
    MoveKeepsRegCalls(s, c, w', call');
    forall id ensures TrackedReg(w', id) || exists d :: UnregisteredBy(s', d, id) {
      if id == call'.id {
        assert Unregisters(call') ==> UnregisteredBy(s', c, id);
      } else {
        MoveKeepsRegTask(s, c, s', call', id);
      }
    }
    hide OwnInv, Rely;
  }

  // No destroy is between unregistering and forgetting the task of a call that is only starting out.
  lemma FreshCallsTaskIsRegistered(s: State, c: nat)
    requires OwnInv(s) && RegInv(s) && c in s.calls && Busy(s.calls[c]) && !Unregisters(s.calls[c])
    ensures TrackedReg(s.w, s.calls[c].id)
  {
    if !TrackedReg(s.w, s.calls[c].id) {
      var d :| UnregisteredBy(s, d, s.calls[c].id);
      OnlyOneBusyCall(s, c, d);
    }
  }

  lemma AcquireKeepsReg(s: State, c: nat, a: Answer)
    requires OwnInv(s) && RegInv(s) && Enabled(s, Advance(c, a)) && s.calls[c].Acquire?
    ensures RegInv(Step(s, Advance(c, a)))
  {
    var call := s.calls[c];
    assert CallOk(s.w, call) && TrackedOk(s.w, call.id) && RegCallOk(s.w, call);
    FreshCallsTaskIsRegistered(s, c);
    AcquireFits(s.w, call, a);
    EffectRely(s.w, EffectOf(s.w, call, a), call.id);
    AcquireNextOk(s.w, call, a);
    if call.apc.Claiming? {
      ClaimsTakeFreeUnitsHere(s, c);
    }
    AcquireRegRely(s.w, call, a);
    AcquireReg(s.w, call, a);
    AcquireLeavesRegistered(s.w, call, a);
    hide *;
    MoveKeepsReg(s, c, Apply(s.w, EffectOf(s.w, call, a)), NextAcquire(s.w, call, a));
  }

  lemma DestroyKeepsReg(s: State, c: nat, a: Answer)
    requires OwnInv(s) && RegInv(s) && Enabled(s, Advance(c, a)) && s.calls[c].Destroy?
    ensures RegInv(Step(s, Advance(c, a)))
  {
    var call := s.calls[c];
    assert CallOk(s.w, call) && TrackedOk(s.w, call.id) && RegCallOk(s.w, call);
    if call.dpc.Finding? {
      FreshCallsTaskIsRegistered(s, c);
    }
    DestroyFits(s.w, call, a);
    EffectRely(s.w, EffectOf(s.w, call, a), call.id);
    DestroyNextOk(s.w, call, a);
    DestroyRegRely(s.w, call, a);
    DestroyReg(s.w, call, a);
    DestroyLeavesRegistered(s.w, call, a);
    hide *;
    MoveKeepsReg(s, c, Apply(s.w, EffectOf(s.w, call, a)), NextDestroy(s.w, call, a));
  }

  // Nothing that matters to registrations changes.
  lemma BystandersKeepReg(s: State, s': State)
    requires RegInv(s) && s'.w.owners == s.w.owners && s'.w.tasks == s.w.tasks
    requires |s'.w.mgrs| == |s.w.mgrs| && forall u :: Registration(s'.w, u) == Registration(s.w, u)
    requires |s'.w.handlers| == |s.w.handlers| && forall i | 0 <= i < |s.w.handlers| ::
               s'.w.handlers[i].(h := s.w.handlers[i].h) == s.w.handlers[i]
    requires forall c | c in s'.calls :: (c in s.calls && s'.calls[c] == s.calls[c]) || RegCallOk(s'.w, s'.calls[c])
    requires forall c | c in s.calls && Unregisters(s.calls[c]) :: c in s'.calls && s'.calls[c] == s.calls[c]
    ensures RegInv(s')
  {
    forall id ensures TrackedReg(s'.w, id) || exists d :: UnregisteredBy(s', d, id) {
      if !TrackedReg(s.w, id) {
        var d :| UnregisteredBy(s, d, id);
        assert UnregisteredBy(s', d, id);
      }
    }
  }

  lemma SwapKeepsReg(s: State)
    requires OwnInv(s) && RegInv(s) && SwapsWhenIdle(s, SwapManager)
    ensures RegInv(Step(s, SwapManager))
  {
    var s' := Step(s, SwapManager);
    assert forall u :: Registration(s'.w, u).None?;
  }

  lemma EnvironmentKeepsReg(s: State, e: Event)
    requires RegInv(s) && Enabled(s, e) && !e.Advance? && e != SwapManager && e != EmptyStore
    ensures RegInv(Step(s, e))
  {
    hide H.Step, H.Enabled, H.Inv, RegInv;
    BystandersKeepReg(s, Step(s, e));
  }

  lemma StepKeepsReg(s: State, e: Event)
    requires OwnInv(s) && RegInv(s) && Enabled(s, e) && Disciplined(s, e) && SwapsWhenIdle(s, e)
    ensures RegInv(Step(s, e))
  {
    match e
    case Advance(c, a) =>
      match s.calls[c] {
        case Acquire(_, _, _, _, _, _, _, _, _) => AcquireKeepsReg(s, c, a);
        case Destroy(_, _, _, _, _, _, _) => DestroyKeepsReg(s, c, a);
        case _ => BystandersKeepReg(s, Step(s, e));
      }
    case SwapManager => SwapKeepsReg(s);
    case EmptyStore =>
    case _ => EnvironmentKeepsReg(s, e);
  }

  ghost predicate CalmRun(s: State, es: seq<Event>, s': State)
    decreases |es|
  {
    if es == [] then s' == s
    else
      && Enabled(s, es[0]) && Disciplined(s, es[0]) && SwapsWhenIdle(s, es[0])
      && CalmRun(Step(s, es[0]), es[1..], s')
  }

  lemma {:induction false} CalmRunKeepsInv(s: State, es: seq<Event>, s': State)
    requires OwnInv(s) && RegInv(s) && CalmRun(s, es, s')
    ensures OwnInv(s') && RegInv(s')
    decreases |es|
  {
    if es != [] {
      StepKeepsOwn(s, es[0]);
      StepKeepsReg(s, es[0]);
      CalmRunKeepsInv(Step(s, es[0]), es[1..], s');
    }
  }

  /** In every reachable state each tracked task that is not being forgotten has its unit registered with
      the current manager, and its handler polls exactly the channel registered there; and nothing else
      is registered but what somebody owns. */
  lemma TrackedTasksAreRegistered(es: seq<Event>, s: State)
    requires CalmRun(Init, es, s)
    ensures forall id | id in s.w.tasks ::
              || (HandlerIs(s.w, s.w.tasks[id], id) && Registered(s.w, s.w.handlers[s.w.tasks[id]]))
              || exists c :: UnregisteredBy(s, c, id)
    ensures forall u | Registration(s.w, u).Some? :: u in s.w.owners
  {
    CalmRunKeepsInv(Init, es, s);
    forall id | id in s.w.tasks
      ensures || (HandlerIs(s.w, s.w.tasks[id], id) && Registered(s.w, s.w.handlers[s.w.tasks[id]]))
              || exists c :: UnregisteredBy(s, c, id)
    {
      assert TrackedOk(s.w, id);
      assert TrackedReg(s.w, id) || exists c :: UnregisteredBy(s, c, id);
    }
  }

  lemma UnregisterIsExact(s: State, c: nat, a: Answer)
    requires OwnInv(s) && RegInv(s) && c in s.calls && CanAdvance(s.w, s.calls[c], a)
    requires s.calls[c].Destroy? && s.calls[c].dpc.Unregistering?
    ensures var w' := Step(s, Advance(c, a)).w;
            && Registration(s.w, s.calls[c].unit).Some? && Registration(w', s.calls[c].unit).None?
            && forall u | u != s.calls[c].unit :: Registration(w', u) == Registration(s.w, u)
  {
    assert CallOk(s.w, s.calls[c]) && RegCallOk(s.w, s.calls[c]);
    hide OwnInv, RegInv, H.Inv;
  }

  lemma OthersHaveOtherUnits(s: State, c: nat)
    requires OwnInv(s) && c in s.calls && s.calls[c].Destroy? && s.calls[c].dpc.Unregistering?
    ensures forall id | id in s.w.tasks && id != s.calls[c].id ::
              HandlerIs(s.w, s.w.tasks[id], id) && s.w.handlers[s.w.tasks[id]].unit != s.calls[c].unit
  {
    assert CallOk(s.w, s.calls[c]) && TrackedOk(s.w, s.calls[c].id);
    forall id | id in s.w.tasks && id != s.calls[c].id
      ensures HandlerIs(s.w, s.w.tasks[id], id) && s.w.handlers[s.w.tasks[id]].unit != s.calls[c].unit
    {
      assert TrackedOk(s.w, id);
    }
  }

  /** A destroy removes its own unit's registration and no other task's. */
  lemma DestroyUnregistersItsOwn(es: seq<Event>, s: State, c: nat, a: Answer)
    requires CalmRun(Init, es, s) && c in s.calls && CanAdvance(s.w, s.calls[c], a)
    requires s.calls[c].Destroy? && s.calls[c].dpc.Unregistering?
    ensures var w' := Step(s, Advance(c, a)).w;
            && Registration(s.w, s.calls[c].unit).Some? && Registration(w', s.calls[c].unit).None?
            && (forall u | u != s.calls[c].unit :: Registration(w', u) == Registration(s.w, u))
            && (forall id | id in s.w.tasks && id != s.calls[c].id ::
                  HandlerIs(s.w, s.w.tasks[id], id) && s.w.handlers[s.w.tasks[id]].unit != s.calls[c].unit)
  {
    CalmRunKeepsInv(Init, es, s);
    hide OwnInv, RegInv;
    UnregisterIsExact(s, c, a);
    OthersHaveOtherUnits(s, c);
  }
}
