/** The driver's methods in program order (plugin/task.go, plugin/unit.go, plugin/driver.go). Between any
    two critical sections Interfere lets every other call, goroutine and config reload run as it likes;
    whatever they do, each method's run is a run of the lifecycle protocol. */
module Drivers {
  import opened Options
  import opened Systemd
  import opened Ownership
  import opened UnitTables
  import opened Lifecycle
  import opened LifecycleProofs
  import opened LifecycleTheorems
  import opened LifecycleRegistration
  import opened LifecycleRequests
  import opened Schedules
  import H = TaskHandler
  import Policy

  ghost predicate Reaches(s: State, s': State) {
    exists es :: Run(s, es, s')
  }

  lemma {:induction false} RunsCompose(s: State, es: seq<Event>, mid: State, fs: seq<Event>, s': State)
    requires Run(s, es, mid) && Run(mid, fs, s')
    ensures Run(s, es + fs, s')
    decreases |es|
  {
    if es == [] {
      assert es + fs == fs;
    } else {
      RunsCompose(Step(s, es[0]), es[1..], mid, fs, s');
      assert (es + fs)[1..] == es[1..] + fs;
    }
  }

  lemma ReachesOn(s: State, mid: State, s': State)
    requires Reaches(s, mid) && Reaches(mid, s')
    ensures Reaches(s, s')
  {
    var es :| Run(s, es, mid);
    var fs :| Run(mid, fs, s');
    RunsCompose(s, es, mid, fs, s');
  }

  lemma OneStep(s: State, e: Event)
    requires OwnInv(s) && Enabled(s, e) && Disciplined(s, e)
    ensures OwnInv(Step(s, e)) && Reaches(s, Step(s, e))
  {
    StepKeepsOwn(s, e);
    assert Run(Step(s, e), [], Step(s, e));
    assert [e][1..] == [];
    assert Run(s, [e], Step(s, e));
  }

  // In a sound state an answer that fits where a call stands is all it needs to go on.
  lemma AnswersEnable(s: State, c: nat, a: Answer)
    requires OwnInv(s) && c in s.calls && !Finished(s.calls[c])
    requires HasHandler(s.calls[c]) ==> s.calls[c].h < |s.w.handlers|
    requires Answerable(s.w, s.calls[c], a)
    ensures Enabled(s, Advance(c, a))
  {
    assert CallOk(s.w, s.calls[c]);
  }

  // A call's critical section.
  lemma Section(s: State, c: nat, a: Answer)
    requires OwnInv(s) && c in s.calls && !Finished(s.calls[c])
    requires HasHandler(s.calls[c]) ==> s.calls[c].h < |s.w.handlers|
    requires Answerable(s.w, s.calls[c], a)
    ensures Enabled(s, Advance(c, a))
    ensures OwnInv(Step(s, Advance(c, a))) && Reaches(s, Step(s, Advance(c, a)))
    ensures CallOk(s.w, s.calls[c])
  {
    AnswersEnable(s, c, a);
    OneStep(s, Advance(c, a));
    assert CallOk(s.w, s.calls[c]);
  }

  lemma NobodyElseIsBusy(s: State, c: nat, s': State, call': Call)
    requires Serial(s) && c in s.calls && Busy(s.calls[c]) && s'.calls == s.calls[c := call'] && !Busy(call')
    ensures NoneBusy(s', s.calls[c].id)
  {
    forall d | d in s'.calls && Busy(s'.calls[d]) ensures s'.calls[d].id != s.calls[c].id {
      assert d != c && Busy(s.calls[d]);
    }
  }

  // With its last step a call leaves nobody else busy with its task, and no claim but the tracked one.
  lemma LastSection(s: State, c: nat, a: Answer)
    requires OwnInv(s) && Enabled(s, Advance(c, a)) && Busy(s.calls[c])
    requires Finished(Step(s, Advance(c, a)).calls[c])
    ensures var s' := Step(s, Advance(c, a));
            forall u :: Owns(s'.w, s.calls[c].id, u) <==> Tracks(s'.w, s.calls[c].id, u)
  {
    var s', id := Step(s, Advance(c, a)), s.calls[c].id;
    StepKeepsOwn(s, Advance(c, a));
    assert s'.calls == s.calls[c := NextCall(s.w, s.calls[c], a)];
    NobodyElseIsBusy(s, c, s', s'.calls[c]);
    hide OwnInv, Step, Enabled;
    IdleClaimsAreTracked(s', id);
  }

  predicate MovesCall(e: Event, c: nat) {
    (e.Advance? || Begins(e)) && e.c == c
  }

  // The task is stored with a handler that has seen its exit.
  predicate Exited(w: World, id: string) {
    id in w.tasks && w.tasks[id] < |w.handlers| && w.handlers[w.tasks[id]].h.HasExited()
  }

  // Managers and handlers are only added, and handlers stay started, cancelled and finished.
  ghost predicate Onward(w: World, w': World) {
    && |w.mgrs| <= |w'.mgrs| && |w.handlers| <= |w'.handlers|
    && forall i | 0 <= i < |w.handlers| ::
         && (w.handlers[i].h.started ==> w'.handlers[i].h.started)
         && (w.handlers[i].h.cancelled ==> w'.handlers[i].h.cancelled)
         && (w.handlers[i].h.closed ==> w'.handlers[i].h.closed)
         && (w.handlers[i].h.HasExited() ==> w'.handlers[i].h.HasExited())
  }

  lemma GoesOnward(s: State, e: Event)
    requires Enabled(s, e)
    ensures Onward(s.w, Step(s, e).w)
  {
    if e.HandlerMoves? {
      H.FlagsStay(s.w.handlers[e.i].h, e.he);
    } else if e.Advance? && EffectOf(s.w, s.calls[e.c], e.a).OnHandler? {
      var eff := EffectOf(s.w, s.calls[e.c], e.a);
      H.FlagsStay(s.w.handlers[eff.i].h, eff.he);
    }
    hide H.Step, H.Enabled, H.New, NextCall;
  }

  // While a call holds its unit nobody else registers it.
  lemma OthersLeaveUnregistered(s: State, e: Event, c: nat)
    requires OwnInv(s) && Enabled(s, e) && Disciplined(s, e) && c in s.calls && !MovesCall(e, c)
    ensures forall u | Holds(s.calls[c]) == Some(u) && Registration(s.w, u).None? :: Registration(Step(s, e).w, u).None?
  {
    if e.Advance? {
      var call := s.calls[e.c];
      assert CallOk(s.w, call) && CallOk(s.w, s.calls[c]);
      assert Holds(call).Some? ==> Busy(call) && Owns(s.w, call.id, Holds(call).value);
      assert Holds(s.calls[c]).Some? ==> Busy(s.calls[c]) && Owns(s.w, s.calls[c].id, Holds(s.calls[c]).value);
      if call.Acquire? {
        AcquireRegRely(s.w, call, e.a);
      } else if call.Destroy? {
        DestroyRegRely(s.w, call, e.a);
      }
    }
    hide OwnInv, NextCall;
  }

  // What systemd answers the poll loop: a reading, and the exit status it may then ask for.
  datatype PollAnswer = PollAnswer(reading: Option<UnitState>, status: Option<ExitStatus>, at: int)

  function StepsToJoin(t: H.State): nat {
    H.StepsToStop(t) + H.Writers(t)
  }

  lemma DestroysInOrder(s: State, c: nat)
    requires OwnInv(s) && c in s.calls && s.calls[c].Destroy?
    ensures s.calls[c].asked != [] ==> s.calls[c].force
    ensures s.calls[c].dpc.Destroyed? ==>
              || (s.calls[c].asked == [] && s.calls[c].why == ExitSeen)
              || (s.calls[c].asked == [StopJob] && s.calls[c].why in {ExitSeen, StopJobDone})
              || (s.calls[c].asked == [StopJob, Kill] && s.calls[c].why in {KillDelivered, KillFailed, FoundTerminal})
  {
    assert CallOk(s.w, s.calls[c]);
  }

  // What happens while Handler.Stop waits.
  datatype Join = Join(env: seq<seq<Event>>, answers: seq<PollAnswer>)

  // One turn of WaitTask's select: what goes on before it, whether the caller's context is done, which case
  // it takes if both are ready, and what goes on before it sends.
  datatype WaitTurn = WaitTurn(env: seq<Event>, contextDone: bool, cut: bool, sending: seq<Event>)

  lemma Unmoved(s: State)
    ensures Reaches(s, s)
  {
    assert Run(s, [], s);
  }

  lemma ClosedMeansExited(s: State, h: nat)
    requires OwnInv(s) && h < |s.w.handlers|
    ensures s.w.handlers[h].h.closed <==> s.w.handlers[h].h.HasExited()
  {
    assert H.Inv(s.w.handlers[h].h);
  }

  predicate ClosedAt(w: World, h: nat) {
    h < |w.handlers| && w.handlers[h].h.closed
  }

  // What fires in a select over the wait channel, the stop job and a timer ends it without a kill.
  predicate Unkilled(w: World, h: nat, fired: Answer) {
    (fired.WaitClosed? && ClosedAt(w, h)) || fired.JobDone?
  }

  function UnitOf(w: World, id: string): Option<string> {
    if id in w.tasks && w.tasks[id] < |w.handlers| then Some(w.handlers[w.tasks[id]].unit) else None
  }

  // What StartTask asks of systemd once it owns its unit.
  function JobsFor(encoded: bool, reading: Option<UnitState>, started: bool): seq<Request> {
    if !encoded || reading.None? || reading.value == Active then []
    else if started then [StartJob]
    else [StartJob, StopJob]
  }

  predicate Down(reading: UnitState) {
    reading == Inactive || reading == Failed
  }

  // What a task comes back as.
  function RecoveredState(reading: Option<UnitState>): TaskState {
    if reading.Some? && Down(reading.value) then TaskExited else TaskRunning
  }

  // The handler that the store holds for a task.
  function Stored(w: World, id: string): Option<H.State> {
    if id in w.tasks && w.tasks[id] < |w.handlers| then Some(w.handlers[w.tasks[id]].h) else None
  }

  // Task id is stored exited, with a result that fits what systemd said.
  predicate ShowsExit(w: World, id: string, seen: UnitState, status: Option<ExitStatus>) {
    && Stored(w, id).Some? && Stored(w, id).value.HasExited()
    && Stored(w, id).value.exitResult.Some? && ResultFits(Stored(w, id).value.exitResult.value, seen, status)
  }

  // The handler of call c shows an exit ...
  predicate FilledIn(s: State, c: nat) {
    && c in s.calls && s.calls[c].Acquire? && s.calls[c].h < |s.w.handlers|
    && s.w.handlers[s.calls[c].h].h.exitResult.Some?
    && HasFilledIn(s, c, s.w.handlers[s.calls[c].h].h.exitResult.value)
  }

  // ... with a result that fits what the call was told.
  predicate FitsCall(s: State, c: nat, status: Option<ExitStatus>)
    requires FilledIn(s, c)
  {
    ResultFits(s.w.handlers[s.calls[c].h].h.exitResult.value, s.calls[c].seen, status)
  }

  lemma KeepsFilledIn(s: State, s': State, c: nat)
    requires OwnInv(s) && FilledIn(s, c) && Reaches(s, s')
    ensures FilledIn(s', c)
    ensures c in s'.calls && s'.calls[c].Acquire? && s'.calls[c].h == s.calls[c].h ==>
              s'.w.handlers[s.calls[c].h].h.exitResult == s.w.handlers[s.calls[c].h].h.exitResult
  {
    var es :| Run(s, es, s');
    ResultRun(s, c, s.w.handlers[s.calls[c].h].h.exitResult.value, es, s');
  }

  lemma ExitIsStored(s: State, c: nat, status: Option<ExitStatus>)
    requires FilledIn(s, c) && FitsCall(s, c, status)
    requires s.calls[c].id in s.w.tasks && s.w.tasks[s.calls[c].id] == s.calls[c].h
    ensures ShowsExit(s.w, s.calls[c].id, s.calls[c].seen, status)
  {
  }

  class Driver {
    var unitOwners: map<string, string>
    var tasks: map<string, nat>
    var handlers: seq<Handler>
    var managers: seq<UnitTable>
    var calls: map<nat, Call>       // where each call in flight stands

    function View(): State
      reads this
    {
      State(World(unitOwners, tasks, handlers, managers), calls)
    }

    ghost predicate Valid()
      reads this
    {
      OwnInv(View())
    }

    constructor ()
      ensures Valid() && View() == Init
    {
      unitOwners, tasks, handlers, managers, calls := map[], map[], [], [], map[];
    }

    method Become(s: State)
      modifies this
      ensures View() == s
    {
      unitOwners, tasks, handlers, managers, calls := s.w.owners, s.w.tasks, s.w.handlers, s.w.mgrs, s.calls;
    }

    // Everything but call c, in the order of schedule es. What cannot happen does not.
    method Interfere(c: nat, es: seq<Event>)
      requires Valid() && c in calls
      modifies this
      ensures Valid() && c in calls && calls[c] == old(calls[c])
      ensures Reaches(old(View()), View())
      ensures es == [] ==> View() == old(View())
      ensures Onward(old(View()).w, View().w)
      ensures forall u | Holds(calls[c]) == Some(u) && Registration(old(View()).w, u).None? ::
                Registration(View().w, u).None?
    {
      assert Run(View(), [], View());
      for i := 0 to |es|
        invariant Valid() && c in calls && calls[c] == old(calls[c])
        invariant Reaches(old(View()), View())
        invariant i == 0 ==> View() == old(View())
        invariant Onward(old(View()).w, View().w)
        invariant forall u | Holds(calls[c]) == Some(u) && Registration(old(View()).w, u).None? ::
                    Registration(View().w, u).None?
      {
        var s := View();
        if !MovesCall(es[i], c) && Disciplined(s, es[i]) && Enabled(s, es[i]) {
          OneStep(s, es[i]);
          GoesOnward(s, es[i]);
          OthersLeaveUnregistered(s, es[i], c);
          ReachesOn(old(View()), s, Step(s, es[i]));
          hide OwnInv, Reaches;
          Become(Step(s, es[i]));
        }
      }
    }

    method ClaimUnit(unit: string, id: string) returns (ok: bool)
      modifies this`unitOwners
      ensures ok <==> unit !in old(unitOwners) || old(unitOwners)[unit] == id
      ensures unitOwners == if ok then old(unitOwners)[unit := id] else old(unitOwners)
      ensures ok <==> MayClaim(old(unitOwners), unit, id)
      ensures unitOwners == Claim(old(unitOwners), unit, id)
    {
      if unit in unitOwners && unitOwners[unit] != id {
        return false;
      }
      unitOwners := unitOwners[unit := id];
      return true;
    }

    method ReleaseUnit(unit: string)
      modifies this`unitOwners
      ensures unitOwners == old(unitOwners) - {unit} == Release(old(unitOwners), unit)
    {
      unitOwners := unitOwners - {unit};
    }

    method At(c: nat, call: Call)
      modifies this`calls
      ensures calls == old(calls)[c := call]
    {
      calls := calls[c := call];
    }

    // The start of StartTask and RecoverTask, up to and including the claim.
    method Admit(c: nat, refused: bool, env: seq<seq<Event>>) returns (claimed: bool)
      requires Valid() && c in calls && calls[c].Acquire? && calls[c].apc.Looking? && |env| == 2
      modifies this
      ensures Valid() && Reaches(old(View()), View()) && c in calls
      ensures var call := calls[c];
              call.Acquire? && call.id == old(calls[c]).id && call.unit == old(calls[c]).unit
                  && call.recovering == old(calls[c]).recovering
      ensures if claimed then calls[c].apc == (if calls[c].recovering then Querying else Encoding)
                else calls[c].apc.Acquired?
      ensures calls[c].asked == old(calls[c]).asked
      ensures claimed ==> !refused
      ensures env == [[], []] ==>
                (claimed <==> old(calls[c]).id !in old(tasks) && !refused && |old(managers)| > 0
                              && MayClaim(old(unitOwners), old(calls[c]).unit, old(calls[c]).id))
      ensures !claimed && env == [[], []] ==>
                (calls[c].apc.ok <==> old(calls[c]).recovering && old(calls[c]).id in old(tasks))
      ensures !claimed && calls[c].apc.ok ==> calls[c].recovering && calls[c].id in tasks && calls[c].id in old(tasks)
      ensures !claimed ==> forall u :: Owns(View().w, calls[c].id, u) <==> Tracks(View().w, calls[c].id, u)
    {
      ghost var s0 := View();
      var call := calls[c];
      var id, unit := call.id, call.unit;
      Section(s0, c, Silent);
      // Store.Get
      if id in tasks {
        LastSection(s0, c, Silent);
        At(c, call.(apc := Acquired(call.recovering)));
        return false;
      }
      call := call.(apc := Admitting);
      At(c, call);
      ghost var s1 := View();
      assert s1 == Step(s0, Advance(c, Silent));
      Interfere(c, env[0]);
      ghost var s2 := View();
      ReachesOn(s0, s1, s2);
      claimed := AdmitAndClaim(c, refused, env[1]);
      ReachesOn(s0, s2, View());
    }

    method AdmitAndClaim(c: nat, refused: bool, env: seq<Event>) returns (claimed: bool)
      requires Valid() && c in calls && calls[c].Acquire? && calls[c].apc.Admitting?
      modifies this
      ensures Valid() && Reaches(old(View()), View()) && c in calls
      ensures var call := calls[c];
              call.Acquire? && call.id == old(calls[c]).id && call.unit == old(calls[c]).unit
                  && call.recovering == old(calls[c]).recovering
      ensures calls[c].asked == old(calls[c]).asked
      ensures claimed ==> !refused
      ensures env == [] ==>
                (claimed <==> !refused && |old(managers)| > 0
                              && MayClaim(old(unitOwners), old(calls[c]).unit, old(calls[c]).id))
      ensures calls[c].apc == if !claimed then Acquired(false) else if calls[c].recovering then Querying else Encoding
      ensures !claimed ==> forall u :: Owns(View().w, calls[c].id, u) <==> Tracks(View().w, calls[c].id, u)
    {
      ghost var s0 := View();
      var call := calls[c];
      // Decoding, validation and policy; then getManager.
      Section(s0, c, if refused then Refused else Silent);
      if refused || |managers| == 0 {
        LastSection(s0, c, if refused then Refused else Silent);
        At(c, call.(apc := Acquired(false)));
        return false;
      }
      call := call.(apc := Claiming, mgr := |managers| - 1);
      At(c, call);
      ghost var s1 := View();
      assert s1 == Step(s0, Advance(c, Silent));
      Interfere(c, env);
      ghost var s2 := View();
      ReachesOn(s0, s1, s2);
      claimed := TakeClaim(c);
      ReachesOn(s0, s2, View());
    }

    method TakeClaim(c: nat) returns (claimed: bool)
      requires Valid() && c in calls && calls[c].Acquire? && calls[c].apc.Claiming?
      modifies this
      ensures Valid() && Reaches(old(View()), View()) && c in calls
      ensures calls[c] == old(calls[c]).(apc :=
                if !claimed then Acquired(false) else if old(calls[c]).recovering then Querying else Encoding)
      ensures claimed <==> MayClaim(old(unitOwners), old(calls[c]).unit, old(calls[c]).id)
      ensures claimed ==> Owns(View().w, calls[c].id, calls[c].unit)
      ensures !claimed ==> forall u :: Owns(View().w, calls[c].id, u) <==> Tracks(View().w, calls[c].id, u)
    {
      ghost var s := View();
      var call := calls[c];
      Section(s, c, Silent);
      claimed := ClaimUnit(call.unit, call.id);
      if !claimed {
        LastSection(s, c, Silent);
        At(c, call.(apc := Acquired(false)));
      } else {
        At(c, call.(apc := if call.recovering then Querying else Encoding));
      }
      assert View() == Step(s, Advance(c, Silent));
    }

    // StartTask between the claim and the registration: encode the state, see whether the unit runs, start
    // it if not, and roll a failed start back.
    method BringUp(c: nat, encoded: bool, reading: Option<UnitState>, started: bool, env: seq<seq<Event>>)
        returns (up: bool)
      requires Valid() && c in calls && calls[c].Acquire? && calls[c].apc.Encoding? && !calls[c].recovering
      requires |env| == 4
      modifies this
      ensures Valid() && Reaches(old(View()), View()) && c in calls
      ensures var call := calls[c];
              call.Acquire? && call.id == old(calls[c]).id && call.unit == old(calls[c]).unit && !call.recovering
      ensures calls[c].apc == if up then Registering else Releasing
      ensures calls[c].asked == JobsFor(encoded, reading, started) && (up ==> calls[c].initial == TaskRunning)
      ensures up <==> encoded && reading.Some? && (ToTaskState(reading.value) == TaskRunning || started)
    {
      ghost var s0 := View();
      var call := calls[c];
      Section(s0, c, if encoded then Silent else Refused);
      assert AcquireAsked(call);
      if !encoded {
        At(c, call.(apc := Releasing));
        return false;
      }
      At(c, call.(apc := Querying));
      ghost var s1 := View();
      assert s1 == Step(s0, Advance(c, Silent));
      Interfere(c, env[0]);
      ReachesOn(s0, s1, View());
      ghost var s2 := View();
      up := QueryAndStart(c, reading, started, env[1..]);
      ReachesOn(s0, s2, View());
    }

    method QueryAndStart(c: nat, reading: Option<UnitState>, started: bool, env: seq<seq<Event>>) returns (up: bool)
      requires Valid() && c in calls && calls[c].Acquire? && calls[c].apc.Querying? && !calls[c].recovering
      requires |env| == 3
      modifies this
      ensures Valid() && Reaches(old(View()), View()) && c in calls
      ensures var call := calls[c];
              call.Acquire? && call.id == old(calls[c]).id && call.unit == old(calls[c]).unit && !call.recovering
      ensures calls[c].apc == if up then Registering else Releasing
      ensures calls[c].asked == JobsFor(true, reading, started) && (up ==> calls[c].initial == TaskRunning)
      ensures up <==> reading.Some? && (ToTaskState(reading.value) == TaskRunning || started)
    {
      ghost var s0 := View();
      var call := calls[c];
      ghost var answer := if reading.None? then Refused else Reported(reading.value);
      Section(s0, c, answer);
      assert AcquireAsked(call);
      if reading.None? {
        At(c, call.(apc := Releasing));
        return false;
      }
      if ToTaskState(reading.value) == TaskRunning {
        At(c, call.(apc := Registering, initial := TaskRunning, seen := reading.value));
        assert View() == Step(s0, Advance(c, answer));
        return true;
      }
      At(c, call.(apc := Starting));
      ghost var s1 := View();
      assert s1 == Step(s0, Advance(c, answer));
      Interfere(c, env[0]);
      ReachesOn(s0, s1, View());
      ghost var s2 := View();
      up := StartOrRollBack(c, started, env[1..]);
      ReachesOn(s0, s2, View());
    }

    // StartUnit, and StopUnit after a start that failed: the start and the rollback find the unit owned.
    method StartOrRollBack(c: nat, started: bool, env: seq<seq<Event>>) returns (up: bool)
      requires Valid() && c in calls && calls[c].Acquire? && calls[c].apc.Starting? && |env| == 2
      modifies this
      ensures Valid() && Reaches(old(View()), View()) && c in calls
      ensures var call := calls[c];
              call.Acquire? && call.id == old(calls[c]).id && call.unit == old(calls[c]).unit
                  && call.recovering == old(calls[c]).recovering
      ensures calls[c].apc == if up then Registering else Releasing
      ensures up <==> started
      ensures up ==> calls[c].initial == TaskRunning
      ensures calls[c].asked == if up then [StartJob] else [StartJob, StopJob]
      ensures Owns(old(View()).w, calls[c].id, calls[c].unit) && Owns(View().w, calls[c].id, calls[c].unit)
    {
      ghost var s0 := View();
      var call := calls[c];
      Section(s0, c, if started then Silent else Refused);
      if started {
        At(c, call.(apc := Registering, initial := TaskRunning, seen := Active, asked := [StartJob]));
        return true;
      }
      At(c, call.(apc := RollingBack, asked := [StartJob]));
      ghost var s1 := View();
      assert s1 == Step(s0, Advance(c, Refused));
      Interfere(c, env[0]);
      ReachesOn(s0, s1, View());
      ghost var s2 := View();
      RollBackFailedStart(c);
      ReachesOn(s0, s2, View());
      return false;
    }

    // rollBackFailedStart's StopUnit, whether or not it succeeds.
    method RollBackFailedStart(c: nat)
      requires Valid() && c in calls && calls[c].Acquire? && calls[c].apc.RollingBack?
      modifies this`calls
      ensures Valid() && Reaches(old(View()), View())
      ensures c in calls && calls[c] == old(calls[c]).(apc := Releasing, asked := old(calls[c]).asked + [StopJob])
      ensures Owns(old(View()).w, calls[c].id, calls[c].unit) && Owns(View().w, calls[c].id, calls[c].unit)
    {
      Section(View(), c, Silent);
      At(c, calls[c].(apc := Releasing, asked := calls[c].asked + [StopJob]));
    }

    // The way out of a call that holds its unit and failed.
    method GiveUp(c: nat, env: seq<Event>)
      requires Valid() && c in calls && calls[c].Acquire? && calls[c].apc.Releasing?
      modifies this
      ensures Valid() && Reaches(old(View()), View())
      ensures c in calls && calls[c] == old(calls[c]).(apc := Acquired(false))
      ensures forall u :: Owns(View().w, old(calls[c]).id, u) <==> Tracks(View().w, old(calls[c]).id, u)
    {
      ghost var s0 := View();
      var call := calls[c];
      Interfere(c, env);
      ghost var s1 := View();
      Section(s1, c, Silent);
      LastSection(s1, c, Silent);
      ReleaseUnit(call.unit);
      At(c, call.(apc := Acquired(false)));
      assert View() == Step(s1, Advance(c, Silent));
      ReachesOn(s0, s1, View());
    }

    // From RegisterUnit to Store.Set.
    method Track(c: nat, status: Option<ExitStatus>, env: seq<seq<Event>>)
      requires Valid() && c in calls && calls[c].Acquire? && calls[c].apc.Registering? && |env| == 5
      modifies this
      ensures Valid() && Reaches(old(View()), View()) && c in calls
      ensures calls[c].Acquire? && calls[c].apc == Acquired(true) && calls[c].asked == old(calls[c]).asked
      ensures old(calls[c]).recovering && old(calls[c]).seen.IsTerminal() ==>
                ShowsExit(View().w, old(calls[c]).id, old(calls[c]).seen, status)
      ensures NobodyElse(env) ==>
                Stored(View().w, old(calls[c]).id).Some?
                    && Stored(View().w, old(calls[c]).id).value.state == old(calls[c]).initial
      ensures Tracks(View().w, old(calls[c]).id, old(calls[c]).unit)
      ensures forall u :: Owns(View().w, old(calls[c]).id, u) <==> Tracks(View().w, old(calls[c]).id, u)
    {
      hide OwnInv, H.Inv, ResultFits, HasFilledIn, ShowsExit;
      ghost var s0 := View();
      RegisterAndBuild(c, env[..2]);
      ghost var s1 := View();
      Interfere(c, env[2]);
      ReachesOn(s0, s1, View());
      ghost var s2 := View();
      ghost var exited := calls[c].recovering && calls[c].seen.IsTerminal();
      if calls[c].recovering {
        Result(c, status);
        ReachesOn(s0, s2, View());
        s2 := View();
        Interfere(c, env[3]);
        ReachesOn(s0, s2, View());
        if exited {
          KeepsFilledIn(s2, View(), c);
        }
      }
      s2 := View();
      LaunchAndPublish(c, env[4]);
      ReachesOn(s0, s2, View());
      if exited {
        KeepsFilledIn(s2, View(), c);
        ExitIsStored(View(), c, status);
      }
    }

    method RegisterAndBuild(c: nat, env: seq<seq<Event>>)
      requires Valid() && c in calls && calls[c].Acquire? && calls[c].apc.Registering? && |env| == 2
      modifies this
      ensures Valid() && Reaches(old(View()), View()) && c in calls
      ensures var call := calls[c];
              call.Acquire? && call.id == old(calls[c]).id && call.unit == old(calls[c]).unit
                  && call.recovering == old(calls[c]).recovering
              && call.initial == old(calls[c]).initial && call.seen == old(calls[c]).seen
                  && call.asked == old(calls[c]).asked
      ensures calls[c].h < |handlers| && handlers[calls[c].h].h == H.New(calls[c].initial)
      ensures calls[c].apc == if calls[c].recovering then Resulting else Launching
    {
      ghost var s0 := View();
      var call := calls[c];
      Interfere(c, env[0]);
      ghost var s1 := View();
      Section(s1, c, Silent);
      managers := managers[call.mgr := Register(managers[call.mgr], call.unit)];
      call := call.(apc := Building);
      At(c, call);
      ghost var s2 := View();
      assert s2 == Step(s1, Advance(c, Silent));
      ReachesOn(s0, s1, s2);
      Interfere(c, env[1]);
      ghost var s3 := View();
      ReachesOn(s0, s2, s3);
      Build(c);
      ReachesOn(s0, s3, View());
    }

    // task.NewHandler with the unit's wake channel.
    method Build(c: nat)
      requires Valid() && c in calls && calls[c].Acquire? && calls[c].apc.Building?
      modifies this
      ensures Valid() && Reaches(old(View()), View()) && c in calls
      ensures calls[c] == old(calls[c]).(apc := if old(calls[c]).recovering then Resulting else Launching,
                                         h := |old(handlers)|)
      ensures |handlers| == |old(handlers)| + 1 && handlers[|old(handlers)|].h == H.New(calls[c].initial)
    {
      ghost var s := View();
      var call := calls[c];
      Section(s, c, Silent);
      var wakeCh := managers[call.mgr].Lookup(call.unit);
      var h := |handlers|;
      handlers := handlers + [Handler(call.id, call.unit, call.mgr, wakeCh, H.New(call.initial))];
      At(c, call.(apc := if call.recovering then Resulting else Launching, h := h));
      assert View() == Step(s, Advance(c, Silent));
    }

    // RecoverTask sets the result of a task that has already exited.
    method Result(c: nat, status: Option<ExitStatus>)
      requires Valid() && c in calls && calls[c].Acquire? && calls[c].apc.Resulting?
      modifies this
      ensures Valid() && Reaches(old(View()), View()) && c in calls
      ensures calls[c] == old(calls[c]).(apc := Launching)
      ensures calls[c].h < |handlers| == |old(handlers)|
      ensures handlers[calls[c].h].h.state == old(handlers)[calls[c].h].h.state
      ensures calls[c].seen.IsTerminal() ==> FilledIn(View(), c) && FitsCall(View(), c, status)
    {
      ghost var s := View();
      var call := calls[c];
      assert CallOk(s.w, call);
      ghost var answer := if status.Some? then ExitStatusIs(status.value) else Refused;
      Section(s, c, answer);
      if handlers[call.h].h.HasExited() {
        var exitResult := BuildExitResult(call.seen, status);
        var th := handlers[call.h];
        handlers := handlers[call.h := th.(h := th.h.(exitResult := Some(exitResult), completedAt := Some(0)))];
      }
      At(c, call.(apc := Launching));
      assert View() == Step(s, Advance(c, answer));
    }

    method LaunchAndPublish(c: nat, env: seq<Event>)
      requires Valid() && c in calls && calls[c].Acquire? && calls[c].apc.Launching?
      modifies this
      ensures Valid() && Reaches(old(View()), View()) && c in calls
      ensures calls[c] == old(calls[c]).(apc := Acquired(true))
      ensures calls[c].id in tasks && tasks[calls[c].id] == calls[c].h < |handlers|
      ensures env == [] ==>
                |handlers| == |old(handlers)| && handlers[calls[c].h].h.state == old(handlers)[calls[c].h].h.state
      ensures Tracks(View().w, calls[c].id, calls[c].unit)
      ensures forall u :: Owns(View().w, calls[c].id, u) <==> Tracks(View().w, calls[c].id, u)
    {
      hide OwnInv, Reaches, Tracks;
      ghost var s0 := View();
      Launch(c);
      ghost var s1 := View();
      Interfere(c, env);
      ReachesOn(s0, s1, View());
      ghost var s2 := View();
      Publish(c);
      ReachesOn(s0, s2, View());
    }

    // Handler.Start
    method Launch(c: nat)
      requires Valid() && c in calls && calls[c].Acquire? && calls[c].apc.Launching?
      modifies this`handlers, this`calls
      ensures Valid() && Reaches(old(View()), View())
      ensures c in calls && calls[c] == old(calls[c]).(apc := Publishing)
      ensures calls[c].h < |handlers| == |old(handlers)|
      ensures handlers[calls[c].h].h.started && handlers[calls[c].h].h.state == old(handlers)[calls[c].h].h.state
    {
      ghost var s0 := View();
      var call := calls[c];
      assert CallOk(s0.w, call);
      Section(s0, c, Silent);
      var th := handlers[call.h];
      handlers := handlers[call.h := th.(h := th.h.(started := true, poll := H.CheckFirst, writing := true))];
      At(c, call.(apc := Publishing));
      assert View() == Step(s0, Advance(c, Silent));
    }

    // Store.Set
    method Publish(c: nat)
      requires Valid() && c in calls && calls[c].Acquire? && calls[c].apc.Publishing?
      modifies this
      ensures Valid() && Reaches(old(View()), View()) && c in calls
      ensures handlers == old(handlers) && calls[c].h < |handlers|
      ensures calls[c] == old(calls[c]).(apc := Acquired(true)) && tasks == old(tasks)[calls[c].id := calls[c].h]
      ensures Tracks(View().w, calls[c].id, calls[c].unit)
      ensures forall u :: Owns(View().w, calls[c].id, u) <==> Tracks(View().w, calls[c].id, u)
    {
      ghost var s := View();
      var call := calls[c];
      assert CallOk(s.w, call);
      Section(s, c, Silent);
      LastSection(s, c, Silent);
      tasks := tasks[call.id := call.h];
      At(c, call.(apc := Acquired(true)));
      assert View() == Step(s, Advance(c, Silent));
    }

    /** StartTask. Whatever else runs meanwhile, it either ends with the task tracked with, and owning, exactly its
        unit, or with no claim that is not a tracked task's; it never starts a unit the policy does not permit; it
        starts a unit exactly if it does not run; and it stops it again exactly if the start failed. */
    method StartTask(c: nat, id: string, unit: string, decoded: bool, allowed: seq<Policy.Pattern>,
                     denied: seq<Policy.Pattern>,
                     encoded: bool, reading: Option<UnitState>, started: bool, env: seq<seq<Event>>)
      returns (ok: bool)
      requires Valid() && c !in calls && NoneBusy(View(), id) && |env| == 12
      modifies this
      ensures Valid() && Reaches(old(View()), View()) && c in calls && calls[c].Acquire?
      ensures ok ==> Tracks(View().w, id, unit) && decoded && Policy.Permits(allowed, denied, unit)
      ensures ok ==> encoded && reading.Some? && (ToTaskState(reading.value) == TaskRunning || started)
      ensures env[..2] == [[], []] ==>
                (ok <==> id !in old(tasks) && decoded && Policy.Permits(allowed, denied, unit) && |old(managers)| > 0
                         && MayClaim(old(unitOwners), unit, id)
                         && encoded && reading.Some? && (ToTaskState(reading.value) == TaskRunning || started))
      ensures calls[c].asked == [] || calls[c].asked == JobsFor(encoded, reading, started)
      ensures ok ==> calls[c].asked == JobsFor(encoded, reading, started)
      ensures calls[c].asked != [] ==> decoded && Policy.Permits(allowed, denied, unit)
      ensures env[..2] == [[], []] ==>
                calls[c].asked ==
                if id !in old(tasks) && decoded && Policy.Permits(allowed, denied, unit) && |old(managers)| > 0
                   && MayClaim(old(unitOwners), unit, id)
                then JobsFor(encoded, reading, started) else []
      ensures ok && NobodyElse(env[7..]) ==>
                Stored(View().w, id).Some? && Stored(View().w, id).value.state == TaskRunning
      ensures forall u :: Owns(View().w, id, u) <==> Tracks(View().w, id, u)
    {
      hide OwnInv, Reaches;
      ghost var s0 := View();
      Begin(c, id, unit, false);
      ghost var s1 := View();
      var verdict := Policy.Check(allowed, denied, unit);
      ok := Admit(c, !decoded || !verdict.Permitted?, env[..2]);
      ReachesOn(s0, s1, View());
      if ok {
        s1 := View();
        ok := StartAdmitted(c, encoded, reading, started, env[2..]);
        ReachesOn(s0, s1, View());
      }
    }

    // StartTask once it holds its unit.
    method StartAdmitted(c: nat, encoded: bool, reading: Option<UnitState>, started: bool, env: seq<seq<Event>>)
        returns (ok: bool)
      requires Valid() && c in calls && calls[c].Acquire? && calls[c].apc.Encoding? && !calls[c].recovering
      requires |env| == 10
      modifies this
      ensures Valid() && Reaches(old(View()), View()) && c in calls && calls[c].Acquire?
      ensures ok <==> encoded && reading.Some? && (ToTaskState(reading.value) == TaskRunning || started)
      ensures ok ==> Tracks(View().w, old(calls[c]).id, old(calls[c]).unit)
      ensures calls[c].asked == JobsFor(encoded, reading, started)
      ensures ok && NobodyElse(env[5..]) ==>
                && Stored(View().w, old(calls[c]).id).Some?
                && Stored(View().w, old(calls[c]).id).value.state == TaskRunning
      ensures forall u :: Owns(View().w, old(calls[c]).id, u) <==> Tracks(View().w, old(calls[c]).id, u)
    {
      hide OwnInv, Reaches;
      ghost var s0 := View();
      Interfere(c, env[0]);
      ghost var s1 := View();
      ok := BringUp(c, encoded, reading, started, env[1..5]);
      ReachesOn(s0, s1, View());
      s1 := View();
      if ok {
        Track(c, None, env[5..10]);
      } else {
        GiveUp(c, env[5]);
      }
      ReachesOn(s0, s1, View());
    }

    /** RecoverTask. It asks systemd to do nothing; a task it tracks comes back exited exactly if its unit reads
        inactive or failed, with the result that fits, and running otherwise. */
    method RecoverTask(c: nat, id: string, unit: string, refused: bool, reading: Option<UnitState>,
                       status: Option<ExitStatus>, env: seq<seq<Event>>)
      returns (ok: bool)
      requires Valid() && c !in calls && NoneBusy(View(), id) && |env| == 8
      modifies this
      ensures Valid() && Reaches(old(View()), View()) && c in calls && calls[c].Acquire? && calls[c].asked == []
      ensures ok ==> id in tasks && (id in old(tasks) || Tracks(View().w, id, unit))
      ensures env[..2] == [[], []] ==>
                (ok <==> id in old(tasks)
                         || (!refused && |old(managers)| > 0 && MayClaim(old(unitOwners), unit, id) && reading.Some?))
      ensures ok && id !in old(tasks) ==>
                reading.Some? && (Down(reading.value) ==> ShowsExit(View().w, id, reading.value, status))
      ensures ok && id !in old(tasks) && NobodyElse(env[3..]) ==>
                Stored(View().w, id).Some? && Stored(View().w, id).value.state == RecoveredState(reading)
      ensures forall u :: Owns(View().w, id, u) <==> Tracks(View().w, id, u)
    {
      hide OwnInv, Reaches;
      ghost var s0 := View();
      Begin(c, id, unit, true);
      ghost var s1 := View();
      var claimed := Admit(c, refused, env[..2]);
      ReachesOn(s0, s1, View());
      if !claimed {
        return calls[c].apc.ok;
      }
      s1 := View();
      ok := RecoverAdmitted(c, reading, status, env[2..]);
      ReachesOn(s0, s1, View());
    }

    // RecoverTask once it holds its unit.
    method RecoverAdmitted(c: nat, reading: Option<UnitState>, status: Option<ExitStatus>, env: seq<seq<Event>>)
        returns (ok: bool)
      requires Valid() && c in calls && calls[c].Acquire? && calls[c].apc.Querying? && calls[c].recovering
      requires |env| == 6
      modifies this
      ensures Valid() && Reaches(old(View()), View()) && c in calls && calls[c].Acquire?
      ensures calls[c].asked == old(calls[c]).asked
      ensures ok <==> reading.Some?
      ensures ok ==> Tracks(View().w, old(calls[c]).id, old(calls[c]).unit)
      ensures ok && Down(reading.value) ==> ShowsExit(View().w, old(calls[c]).id, reading.value, status)
      ensures ok && NobodyElse(env[1..]) ==>
                && Stored(View().w, old(calls[c]).id).Some?
                && Stored(View().w, old(calls[c]).id).value.state == RecoveredState(reading)
      ensures forall u :: Owns(View().w, old(calls[c]).id, u) <==> Tracks(View().w, old(calls[c]).id, u)
    {
      hide OwnInv, Reaches;
      ghost var s0 := View();
      Interfere(c, env[0]);
      ghost var s1 := View();
      ok := QueryForRecovery(c, reading);
      ReachesOn(s0, s1, View());
      s1 := View();
      if ok {
        Track(c, status, env[1..6]);
      } else {
        GiveUp(c, env[1]);
      }
      ReachesOn(s0, s1, View());
    }

    // A unit in a transitional state is recovered as running.
    method QueryForRecovery(c: nat, reading: Option<UnitState>) returns (ok: bool)
      requires Valid() && c in calls && calls[c].Acquire? && calls[c].apc.Querying? && calls[c].recovering
      modifies this
      ensures Valid() && Reaches(old(View()), View()) && c in calls
      ensures calls[c].Acquire? && calls[c].id == old(calls[c]).id && calls[c].unit == old(calls[c]).unit
      ensures calls[c].recovering && calls[c].asked == old(calls[c]).asked
      ensures calls[c].apc == if ok then Registering else Releasing
      ensures ok <==> reading.Some?
      ensures ok ==> calls[c].seen == reading.value
      ensures ok ==> calls[c].initial == RecoveredState(reading)
    {
      ghost var s := View();
      var call := calls[c];
      ghost var answer := if reading.None? then Refused else Reported(reading.value);
      Section(s, c, answer);
      if reading.None? {
        At(c, call.(apc := Releasing));
        return false;
      }
      var taskState := ToTaskState(reading.value);
      if taskState == TaskUnknown {
        taskState := TaskRunning;
      }
      At(c, call.(apc := Registering, initial := taskState, seen := reading.value));
      assert View() == Step(s, Advance(c, answer));
      return true;
    }

    method Begin(c: nat, id: string, unit: string, recovering: bool)
      requires Valid() && c !in calls && NoneBusy(View(), id)
      modifies this
      ensures Valid() && Reaches(old(View()), View())
      ensures unitOwners == old(unitOwners) && tasks == old(tasks) && managers == old(managers)
      ensures c in calls && calls[c] == Acquire(id, unit, recovering, Looking, 0, 0, TaskUnknown, Other(""), [])
    {
      OneStep(View(), BeginAcquire(c, id, unit, recovering));
      At(c, Acquire(id, unit, recovering, Looking, 0, 0, TaskUnknown, Other(""), []));
    }

    // ---- DestroyTask ----

    // The lookup and the two looks at HasExited.
    method LookBeforeDestroying(c: nat, env: seq<seq<Event>>) returns (proceed: bool)
      requires Valid() && c in calls && calls[c].Destroy? && calls[c].dpc.Finding? && |env| == 2
      modifies this
      ensures Valid() && Reaches(old(View()), View()) && c in calls
      ensures calls[c].Destroy? && calls[c].id == old(calls[c]).id && calls[c].force == old(calls[c]).force
      ensures !calls[c].dpc.Unknown? ==> UnitOf(old(View()).w, calls[c].id) == Some(calls[c].unit)
      ensures calls[c].asked == if calls[c].dpc.Selecting? then [StopJob] else old(calls[c]).asked
      ensures Exited(old(View()).w, calls[c].id) ==> calls[c].dpc.Cancelling?
      ensures calls[c].dpc.Unknown? <==> old(calls[c]).id !in old(tasks)
      ensures env[0] == [] ==>
                (proceed <==> old(calls[c]).id in old(tasks)
                              && (old(calls[c]).force || Exited(old(View()).w, old(calls[c]).id)))
      ensures if proceed then calls[c].dpc.Cancelling? || (calls[c].dpc.Selecting? && calls[c].force)
              else calls[c].dpc.Unknown? || (calls[c].dpc.Rejected? && !calls[c].force && calls[c].id in tasks)
    {
      ghost var s0 := View();
      var call := calls[c];
      Section(s0, c, Silent);
      if call.id !in tasks {
        At(c, call.(dpc := Unknown));
        return false;
      }
      assert TrackedOk(s0.w, call.id);
      var h := tasks[call.id];
      call := call.(dpc := Guarding, h := h, unit := handlers[h].unit);
      At(c, call);
      ghost var s1 := View();
      assert s1 == Step(s0, Advance(c, Silent));
      Interfere(c, env[0]);
      ReachesOn(s0, s1, View());
      ghost var s2 := View();
      proceed := Guard(c, env[1]);
      ReachesOn(s0, s2, View());
    }

    method Guard(c: nat, env: seq<Event>) returns (proceed: bool)
      requires Valid() && c in calls && calls[c].Destroy? && calls[c].dpc.Guarding?
      modifies this
      ensures Valid() && Reaches(old(View()), View()) && c in calls
      ensures calls[c].Destroy? && calls[c].id == old(calls[c]).id && calls[c].force == old(calls[c]).force
      ensures calls[c].unit == old(calls[c]).unit
      ensures calls[c].asked == if calls[c].dpc.Selecting? then [StopJob] else old(calls[c]).asked
      ensures old(calls[c]).h < |old(handlers)|
      ensures old(handlers)[old(calls[c]).h].h.HasExited() ==> calls[c].dpc.Cancelling?
      ensures proceed <==> old(calls[c]).force || old(handlers)[old(calls[c]).h].h.HasExited()
      ensures if proceed then calls[c].dpc.Cancelling? || (calls[c].dpc.Selecting? && calls[c].force)
              else calls[c].dpc.Rejected? && !calls[c].force && calls[c].id in tasks
    {
      ghost var s0 := View();
      var call := calls[c];
      assert CallOk(s0.w, call);
      Section(s0, c, Silent);
      if !handlers[call.h].h.HasExited() && !call.force {
        At(c, call.(dpc := Rejected));
        return false;
      }
      call := call.(dpc := Checking);
      At(c, call);
      ghost var s1 := View();
      assert s1 == Step(s0, Advance(c, Silent));
      Interfere(c, env);
      ghost var s2 := View();
      ReachesOn(s0, s1, s2);
      assert CallOk(s2.w, call);
      Section(s2, c, Silent);
      if handlers[call.h].h.HasExited() {
        At(c, call.(dpc := Cancelling, why := ExitSeen));
      } else {
        At(c, call.(dpc := Selecting, asked := [StopJob]));
      }
      assert View() == Step(s2, Advance(c, Silent));
      ReachesOn(s0, s2, View());
      return true;
    }

    // The select over waitCh, stopDone and the grace period, and the kill it may lead to. The exit can only
    // be what fires if it has happened.
    method AwaitStop(c: nat, fired: Answer, killed: bool, confirmed: Option<UnitState>, env: seq<seq<Event>>)
      requires Valid() && c in calls && calls[c].Destroy? && calls[c].dpc.Selecting? && |env| == 2
      modifies this
      ensures Valid() && Reaches(old(View()), View()) && c in calls
      ensures calls[c].Destroy? && calls[c].id == old(calls[c]).id && calls[c].force == old(calls[c]).force
      ensures calls[c].unit == old(calls[c]).unit
      ensures calls[c].dpc.Cancelling? && calls[c].h == old(calls[c]).h
      ensures calls[c].asked ==
                old(calls[c]).asked + if Unkilled(old(View()).w, old(calls[c]).h, fired) then [] else [Kill]
      ensures fired.WaitClosed? && ClosedAt(old(View()).w, old(calls[c]).h) ==> calls[c].why.ExitSeen?
      ensures fired.JobDone? ==> calls[c].why.StopJobDone?
      ensures match calls[c].why
              case ExitSeen => fired.WaitClosed? && calls[c].h < |handlers| && handlers[calls[c].h].h.HasExited()
              case StopJobDone => fired.JobDone?
              case KillDelivered => killed && !fired.JobDone?
              case FoundTerminal => !killed && !fired.JobDone? && confirmed.Some? && confirmed.value.IsTerminal()
              case KillFailed => !killed && !fired.JobDone? && !(confirmed.Some? && confirmed.value.IsTerminal())
              case _ => false
    {
      ghost var s0 := View();
      var call := calls[c];
      assert CallOk(s0.w, call);
      var choice := if fired.WaitClosed? && handlers[call.h].h.closed then WaitClosed
                    else if fired.JobDone? || fired.JobFailed? then fired else TimedOut;
      Section(s0, c, choice);
      if choice.WaitClosed? {
        At(c, call.(dpc := Cancelling, why := ExitSeen));
        return;
      }
      if choice.JobDone? {
        At(c, call.(dpc := Cancelling, why := StopJobDone));
        return;
      }
      At(c, call.(dpc := Killing));
      ghost var s1 := View();
      assert s1 == Step(s0, Advance(c, choice));
      Interfere(c, env[0]);
      ReachesOn(s0, s1, View());
      s1 := View();
      KillOrLog(c, killed, confirmed, env[1]);
      ReachesOn(s0, s1, View());
    }

    // forceKillTask, whose failure DestroyTask only logs.
    method KillOrLog(c: nat, killed: bool, confirmed: Option<UnitState>, env: seq<Event>)
      requires Valid() && c in calls && calls[c].Destroy? && calls[c].dpc.Killing?
      modifies this
      ensures Valid() && Reaches(old(View()), View()) && c in calls
      ensures calls[c] == old(calls[c]).(dpc := Cancelling, asked := old(calls[c]).asked + [Kill],
                why := if killed then KillDelivered
                       else if confirmed.Some? && confirmed.value.IsTerminal() then FoundTerminal
                       else KillFailed)
    {
      ghost var s0 := View();
      var call := calls[c];
      assert CallOk(s0.w, call);
      Section(s0, c, if killed then Silent else Refused);
      if killed {
        At(c, call.(dpc := Cancelling, why := KillDelivered, asked := call.asked + [Kill]));
        return;
      }
      call := call.(dpc := Confirming, why := KillFailed, asked := call.asked + [Kill]);
      At(c, call);
      ghost var s1 := View();
      assert s1 == Step(s0, Advance(c, Refused));
      Interfere(c, env);
      ghost var s2 := View();
      ReachesOn(s0, s1, s2);
      assert CallOk(s2.w, call);
      ghost var answer := if confirmed.Some? then Reported(confirmed.value) else Refused;
      Section(s2, c, answer);
      var down := confirmed.Some? && confirmed.value.IsTerminal();
      At(c, call.(dpc := Cancelling, why := if down then FoundTerminal else KillFailed));
      assert View() == Step(s2, Advance(c, answer));
      ReachesOn(s0, s2, View());
    }

    // Handler.Stop: cancel, and wait for the poll loop.
    method StopHandler(c: nat, join: Join)
      requires Valid() && c in calls && calls[c].Destroy? && calls[c].dpc.Cancelling?
      modifies this
      ensures Valid() && Reaches(old(View()), View()) && c in calls
      ensures calls[c] == old(calls[c]).(dpc := Unregistering)
    {
      ghost var s0 := View();
      CancelHandler(c);
      ghost var s1 := View();
      JoinGoroutines(c, join);
      ReachesOn(s0, s1, View());
      ghost var s2 := View();
      assert CallOk(s2.w, calls[c]);
      hide OwnInv, H.Inv, H.Step;
      Section(s2, c, Silent);
      At(c, calls[c].(dpc := Unregistering));
      assert View() == Step(s2, Advance(c, Silent));
      ReachesOn(s0, s2, View());
    }

    method CancelHandler(c: nat)
      requires Valid() && c in calls && calls[c].Destroy? && calls[c].dpc.Cancelling?
      modifies this`handlers, this`calls
      ensures Valid() && Reaches(old(View()), View()) && c in calls
      ensures calls[c] == old(calls[c]).(dpc := Joining)
      ensures calls[c].h < |handlers| && handlers[calls[c].h].h.cancelled
    {
      ghost var s0 := View();
      var call := calls[c];
      assert CallOk(s0.w, call);
      Section(s0, c, Silent);
      var th := handlers[call.h];
      handlers := handlers[call.h := th.(h := th.h.(cancelled := true))];
      At(c, call.(dpc := Joining));
      assert View() == Step(s0, Advance(c, Silent));
    }

    /** wg.Wait in Handler.Stop, for the poll loop and the log writer. Others run for as long as the schedule has
        something for them, systemd answers the loop's requests as it likes, and after each slice one of the two
        goes on, so the waiting ends. */
    method JoinGoroutines(c: nat, join: Join)
      requires Valid() && c in calls && calls[c].Destroy? && calls[c].dpc.Joining?
      requires calls[c].h < |handlers| && handlers[calls[c].h].h.cancelled
      modifies this
      ensures Valid() && Reaches(old(View()), View()) && c in calls && calls[c] == old(calls[c])
      ensures calls[c].h < |handlers| && H.Joined(handlers[calls[c].h].h)
    {
      ghost var s0 := View();
      var h := calls[c].h;
      assert CallOk(s0.w, calls[c]);
      assert Run(s0, [], s0);
      var i := 0;
      while !H.Joined(handlers[h].h)
        invariant Valid() && Reaches(s0, View()) && c in calls && calls[c] == s0.calls[c]
        invariant h < |handlers| && handlers[h].h.started && handlers[h].h.cancelled
        decreases if i < |join.env| then |join.env| - i else 0, StepsToJoin(handlers[h].h)
      {
        hide OwnInv, Reaches, H.Inv;
        ghost var s1 := View();
        Interfere(c, Scheduled(join.env, i));
        ReachesOn(s0, s1, View());
        if !H.Joined(handlers[h].h) {
          s1 := View();
          OneGoesOn(c, h, if i < |join.answers| then join.answers[i] else PollAnswer(None, None, 0));
          ReachesOn(s0, s1, View());
        }
        i := i + 1;
      }
    }

    // One step of handler h's poll loop, or the end of its log writer.
    method OneGoesOn(c: nat, h: nat, answer: PollAnswer)
      requires Valid() && c in calls && h < |handlers|
      requires handlers[h].h.started && handlers[h].h.cancelled && !H.Joined(handlers[h].h)
      modifies this
      ensures Valid() && Reaches(old(View()), View()) && calls == old(calls)
      ensures h < |handlers| && handlers[h].h.started && handlers[h].h.cancelled
      ensures StepsToJoin(handlers[h].h) < StepsToJoin(old(handlers)[h].h)
    {
      var s := View();
      assert H.Inv(s.w.handlers[h].h);
      var t := handlers[h].h;
      if t.poll != H.Finished {
        H.CancelledLoopGoesOn(t, answer.reading, answer.status, answer.at);
      }
      var he := if t.poll != H.Finished then H.NextPollerStep(t, answer.reading, answer.status, answer.at)
          else H.WriterEnds;
      OneStep(s, HandlerMoves(h, he));
      hide OwnInv, Reaches, H.Inv;
      Become(Step(s, HandlerMoves(h, he)));
    }

    // UnregisterUnit, then Store.Delete, then releaseUnit.
    method TearDown(c: nat, env: seq<seq<Event>>)
      requires Valid() && c in calls && calls[c].Destroy? && calls[c].dpc.Unregistering? && |env| == 3
      modifies this
      ensures Valid() && Reaches(old(View()), View()) && c in calls
      ensures calls[c] == old(calls[c]).(dpc := Destroyed)
      ensures calls[c].id !in tasks && forall u :: !Owns(View().w, calls[c].id, u)
      ensures Registration(View().w, calls[c].unit).None?
    {
      hide OwnInv;
      ghost var s0 := View();
      Interfere(c, env[0]);
      ghost var s1 := View();
      Unregister(c);
      ReachesOn(s0, s1, View());
      ghost var s2 := View();
      Interfere(c, env[1]);
      ReachesOn(s0, s2, View());
      ghost var s3 := View();
      DeleteAndRelease(c, env[2]);
      ReachesOn(s0, s3, View());
    }

    method Unregister(c: nat)
      requires Valid() && c in calls && calls[c].Destroy? && calls[c].dpc.Unregistering?
      modifies this
      ensures Valid() && Reaches(old(View()), View()) && c in calls
      ensures calls[c] == old(calls[c]).(dpc := Deleting)
      ensures |old(managers)| > 0
      ensures Registration(View().w, calls[c].unit).None?
      ensures managers == old(managers)[|old(managers)| - 1 :=
                UnitTables.Unregister(old(managers)[|old(managers)| - 1], calls[c].unit)]
    {
      ghost var s1 := View();
      var call := calls[c];
      assert CallOk(s1.w, call);
      Section(s1, c, Silent);
      // getManager cannot fail here: the handler was built with a manager, and managers are only replaced.
      assert |managers| > 0;
      managers := managers[|managers| - 1 := UnitTables.Unregister(managers[|managers| - 1], call.unit)];
      At(c, call.(dpc := Deleting));
      assert View() == Step(s1, Advance(c, Silent));
    }

    method DeleteAndRelease(c: nat, env: seq<Event>)
      requires Valid() && c in calls && calls[c].Destroy? && calls[c].dpc.Deleting?
      requires Registration(View().w, calls[c].unit).None?
      modifies this
      ensures Valid() && Reaches(old(View()), View()) && c in calls
      ensures calls[c] == old(calls[c]).(dpc := Destroyed)
      ensures calls[c].id !in tasks && forall u :: !Owns(View().w, calls[c].id, u)
      ensures Registration(View().w, calls[c].unit).None?
    {
      hide OwnInv, Reaches, Registration;
      ghost var s0 := View();
      Delete(c);
      ghost var s1 := View();
      Interfere(c, env);
      ReachesOn(s0, s1, View());
      ghost var s2 := View();
      Disown(c);
      ReachesOn(s0, s2, View());
    }

    // Store.Delete
    method Delete(c: nat)
      requires Valid() && c in calls && calls[c].Destroy? && calls[c].dpc.Deleting?
      modifies this`tasks, this`calls
      ensures Valid() && Reaches(old(View()), View())
      ensures c in calls && calls[c] == old(calls[c]).(dpc := Disowning) && tasks == old(tasks) - {calls[c].id}
      ensures forall u :: Registration(View().w, u) == Registration(old(View()).w, u)
    {
      ghost var s := View();
      var call := calls[c];
      assert CallOk(s.w, call);
      Section(s, c, Silent);
      tasks := tasks - {call.id};
      At(c, call.(dpc := Disowning));
      assert View() == Step(s, Advance(c, Silent));
    }

    method Disown(c: nat)
      requires Valid() && c in calls && calls[c].Destroy? && calls[c].dpc.Disowning?
      requires Registration(View().w, calls[c].unit).None?
      modifies this`unitOwners, this`calls
      ensures Valid() && Reaches(old(View()), View()) && c in calls
      ensures calls[c] == old(calls[c]).(dpc := Destroyed)
      ensures calls[c].id !in tasks && forall u :: !Owns(View().w, calls[c].id, u)
      ensures Registration(View().w, calls[c].unit).None?
    {
      ghost var s := View();
      var call := calls[c];
      assert CallOk(s.w, call);
      Section(s, c, Silent);
      LastSection(s, c, Silent);
      hide OwnInv, Reaches, CallOk, H.Inv, NextAcquire, NextStop, NextWait;
      ReleaseUnit(call.unit);
      At(c, call.(dpc := Destroyed));
      assert View() == Step(s, Advance(c, Silent));
    }

    /** DestroyTask. It ends in one of three ways: the task is unknown; an unforced destroy is rejected and
        the task is still tracked; or the task is gone and owns nothing. A stop is issued only by force. */
    method DestroyTask(c: nat, id: string, force: bool, fired: Answer, killed: bool, confirmed: Option<UnitState>,
                       join: Join,
                       env: seq<seq<Event>>)
      requires Valid() && c !in calls && NoneBusy(View(), id) && |env| == 10
      modifies this
      ensures Valid() && Reaches(old(View()), View()) && c in calls && calls[c].Destroy?
      ensures || calls[c].dpc.Unknown?
              || (calls[c].dpc.Rejected? && !force && id in tasks)
              || (calls[c].dpc.Destroyed? && id !in tasks && forall u :: !Owns(View().w, id, u))
      ensures calls[c].dpc.Destroyed? ==> Registration(View().w, calls[c].unit).None?
      ensures calls[c].asked != [] ==> force
      ensures env[0] == [] && Exited(old(View()).w, id) ==> calls[c].asked == []
      ensures calls[c].dpc.Destroyed? ==>
                || (calls[c].asked == [] && calls[c].why == ExitSeen)
                || (calls[c].asked == [StopJob] && calls[c].why in {ExitSeen, StopJobDone})
                || (calls[c].asked == [StopJob, Kill] && calls[c].why in {KillDelivered, KillFailed, FoundTerminal})
      ensures env[0] == [] && !calls[c].dpc.Unknown? ==> UnitOf(old(View()).w, id) == Some(calls[c].unit)
      ensures env[0] == [] ==> (calls[c].dpc.Unknown? <==> id !in old(tasks))
      ensures env[0] == [] && env[1] == [] ==>
                (calls[c].dpc.Destroyed? <==> id in old(tasks) && (force || Exited(old(View()).w, id)))
    {
      hide OwnInv, Reaches, Registration;
      ghost var s0 := View();
      BeginDestroying(c, id, force);
      ghost var s1 := View();
      Interfere(c, env[0]);
      ReachesOn(s0, s1, View());
      s1 := View();
      var proceed := LookBeforeDestroying(c, env[1..3]);
      ReachesOn(s0, s1, View());
      if proceed {
        s1 := View();
        DestroyAnyway(c, fired, killed, confirmed, join, env[3..10]);
        ReachesOn(s0, s1, View());
      }
      DestroysInOrder(View(), c);
    }

    method BeginDestroying(c: nat, id: string, force: bool)
      requires Valid() && c !in calls && NoneBusy(View(), id)
      modifies this`calls
      ensures Valid() && Reaches(old(View()), View())
      ensures c in calls && calls[c] == Destroy(id, "", force, Finding, 0, [], NoReason)
    {
      OneStep(View(), BeginDestroy(c, id, force));
      At(c, Destroy(id, "", force, Finding, 0, [], NoReason));
    }

    method DestroyAnyway(c: nat, fired: Answer, killed: bool, confirmed: Option<UnitState>, join: Join,
                         env: seq<seq<Event>>)
      requires Valid() && c in calls && calls[c].Destroy? && (calls[c].dpc.Cancelling? || calls[c].dpc.Selecting?)
      requires |env| == 7
      modifies this
      ensures Valid() && Reaches(old(View()), View()) && c in calls
      ensures calls[c].Destroy? && calls[c].dpc.Destroyed? && calls[c].id == old(calls[c]).id
      ensures old(calls[c]).dpc.Cancelling? ==> calls[c].asked == old(calls[c]).asked
      ensures calls[c].force == old(calls[c]).force && calls[c].unit == old(calls[c]).unit
      ensures calls[c].id !in tasks && forall u :: !Owns(View().w, calls[c].id, u)
      ensures Registration(View().w, calls[c].unit).None?
    {
      hide OwnInv;
      ghost var s0 := View();
      Interfere(c, env[0]);
      ghost var s1 := View();
      if calls[c].dpc.Selecting? {
        AwaitStop(c, fired, killed, confirmed, env[1..3]);
        ReachesOn(s0, s1, View());
        s1 := View();
        Interfere(c, env[3]);
        ReachesOn(s0, s1, View());
      }
      s1 := View();
      StopHandler(c, join);
      ReachesOn(s0, s1, View());
      s1 := View();
      TearDown(c, env[4..7]);
      ReachesOn(s0, s1, View());
    }

    // ---- StopTask and WaitTask ----

    /** StopTask, for any timeout and any order of completions. A nil error has a reason. */
    method StopTask(c: nat, id: string, grace: bool, fired: Answer, killed: bool, confirmed: Option<UnitState>,
                    env: seq<seq<Event>>)
      returns (ok: bool)
      requires Valid() && c !in calls && |env| == 4
      modifies this
      ensures Valid() && Reaches(old(View()), View()) && c in calls && calls[c].Stop?
      ensures calls[c].spc == StopReturned(ok)
      ensures ok ==>
                || (fired.WaitClosed? && grace && calls[c].why.ExitSeen?
                    && calls[c].h < |handlers| && handlers[calls[c].h].id == id && handlers[calls[c].h].h.HasExited())
                || (fired.JobDone? && grace) || killed || (confirmed.Some? && confirmed.value.IsTerminal())
      ensures env[0] == [] && id !in old(tasks) ==> !ok && calls[c].asked == []
      ensures env[0] == [] && id in old(tasks) ==> calls[c].asked in {[StopJob], [StopJob, Kill]}
      ensures env[0] == [] && id in old(tasks) && grace
              && (fired.JobDone? || (fired.WaitClosed? && Exited(old(View()).w, id))) ==>
                calls[c].asked == [StopJob]
      ensures calls[c].asked == [StopJob] ==> grace && (fired.JobDone? || fired.WaitClosed?)
      ensures env[0] == [] && grace && fired.WaitClosed? && Exited(old(View()).w, id) ==> ok
      ensures env[0] == [] && id in old(tasks) ==>
                ((fired.JobDone? && grace) || killed || (confirmed.Some? && confirmed.value.IsTerminal()) ==> ok)
    {
      ghost var s0 := View();
      OneStep(s0, BeginStop(c, id, grace));
      var call := Stop(id, grace, StopFinding, 0, [], NoReason);
      At(c, call);
      ghost var s1 := View();
      Interfere(c, env[0]);
      ReachesOn(s0, s1, View());
      s1 := View();
      ok := FindToStop(c);
      ReachesOn(s0, s1, View());
      if !ok {
        return;
      }
      s1 := View();
      Interfere(c, env[1]);
      ReachesOn(s0, s1, View());
      s1 := View();
      ok := WaitOrKill(c, fired, killed, confirmed, env[2..]);
      assert CallOk(View().w, calls[c]);
      hide OwnInv, H.Inv;
      ReachesOn(s0, s1, View());
    }

    method FindToStop(c: nat) returns (found: bool)
      requires Valid() && c in calls && calls[c].Stop? && calls[c].spc.StopFinding?
      modifies this
      ensures Valid() && Reaches(old(View()), View()) && c in calls
      ensures calls[c].Stop? && calls[c].id == old(calls[c]).id
      ensures calls[c].asked == if found then [StopJob] else old(calls[c]).asked
      ensures found <==> old(calls[c]).id in old(tasks)
      ensures handlers == old(handlers) && (found ==> calls[c].h == old(tasks)[old(calls[c]).id])
      ensures calls[c].spc == if !found then StopReturned(false) else if old(calls[c]).grace then StopSelecting
                else StopKilling
    {
      ghost var s := View();
      var call := calls[c];
      Section(s, c, Silent);
      found := call.id in tasks;
      if !found {
        At(c, call.(spc := StopReturned(false)));
      } else {
        At(c, call.(spc := if call.grace then StopSelecting else StopKilling, h := tasks[call.id], asked := [StopJob]));
      }
      assert View() == Step(s, Advance(c, Silent));
    }

    method WaitOrKill(c: nat, fired: Answer, killed: bool, confirmed: Option<UnitState>, env: seq<seq<Event>>)
        returns (ok: bool)
      requires Valid() && c in calls && calls[c].Stop? && (calls[c].spc.StopSelecting? || calls[c].spc.StopKilling?)
      requires |env| == 2
      modifies this
      ensures Valid() && Reaches(old(View()), View()) && c in calls
      ensures calls[c].Stop? && calls[c].id == old(calls[c]).id && calls[c].spc == StopReturned(ok)
      ensures calls[c].asked ==
                old(calls[c]).asked
                + if old(calls[c]).spc.StopSelecting? && Unkilled(old(View()).w, old(calls[c]).h, fired) then []
                    else [Kill]
      ensures fired.WaitClosed? && old(calls[c]).spc.StopSelecting? && ClosedAt(old(View()).w, old(calls[c]).h) ==> ok
      ensures (fired.JobDone? && old(calls[c]).spc.StopSelecting?) || killed ==> ok
      ensures confirmed.Some? && confirmed.value.IsTerminal() ==> ok
      ensures ok ==>
                || (fired.WaitClosed? && old(calls[c]).spc.StopSelecting? && calls[c].why.ExitSeen?)
                || (fired.JobDone? && old(calls[c]).spc.StopSelecting?) || killed
                || (confirmed.Some? && confirmed.value.IsTerminal())
    {
      ghost var s0 := View();
      assert Run(s0, [], s0);
      var call := calls[c];
      if call.spc.StopSelecting? {
        assert CallOk(s0.w, call);
        var choice := if fired.WaitClosed? && handlers[call.h].h.closed then WaitClosed
                      else if fired.JobDone? || fired.JobFailed? then fired else TimedOut;
        Section(s0, c, choice);
        if choice.WaitClosed? {
          At(c, call.(spc := StopReturned(true), why := ExitSeen));
          return true;
        }
        if choice.JobDone? {
          At(c, call.(spc := StopReturned(true), why := StopJobDone));
          return true;
        }
        At(c, call.(spc := StopKilling));
        assert View() == Step(s0, Advance(c, choice));
      }
      ghost var s1 := View();
      Interfere(c, env[0]);
      ReachesOn(s0, s1, View());
      s1 := View();
      ok := ForceKill(c, killed, confirmed, env[1]);
      ReachesOn(s0, s1, View());
    }

    // forceKillTask: a failed kill is forgiven if the unit turns out to be down.
    method ForceKill(c: nat, killed: bool, confirmed: Option<UnitState>, env: seq<Event>) returns (ok: bool)
      requires Valid() && c in calls && calls[c].Stop? && calls[c].spc.StopKilling?
      modifies this
      ensures Valid() && Reaches(old(View()), View()) && c in calls
      ensures calls[c].Stop? && calls[c].id == old(calls[c]).id && calls[c].spc == StopReturned(ok)
      ensures calls[c].asked == old(calls[c]).asked + [Kill]
      ensures ok <==> killed || (confirmed.Some? && confirmed.value.IsTerminal())
    {
      ghost var s0 := View();
      var call := calls[c];
      assert CallOk(s0.w, call);
      Section(s0, c, if killed then Silent else Refused);
      if killed {
        At(c, call.(spc := StopReturned(true), why := KillDelivered, asked := call.asked + [Kill]));
        return true;
      }
      call := call.(spc := StopConfirming, why := KillFailed, asked := call.asked + [Kill]);
      At(c, call);
      ghost var s1 := View();
      assert s1 == Step(s0, Advance(c, Refused));
      Interfere(c, env);
      ghost var s2 := View();
      ReachesOn(s0, s1, s2);
      assert CallOk(s2.w, call);
      ghost var answer := if confirmed.Some? then Reported(confirmed.value) else Refused;
      Section(s2, c, answer);
      ok := confirmed.Some? && confirmed.value.IsTerminal();
      if ok {
        At(c, call.(spc := StopReturned(true), why := FoundTerminal));
      } else {
        At(c, call.(spc := StopReturned(false)));
      }
      assert View() == Step(s2, Advance(c, answer));
      ReachesOn(s0, s2, View());
    }

    /** WaitTask and its goroutine, over any turns of its select. An unknown task is an error; otherwise the
        goroutine sends nothing but the published result of an exited handler, ends without one only for a
        done context, and goes on waiting only while the context lives and the handler has not exited. */
    method WaitTask(c: nat, id: string, turns: seq<WaitTurn>) returns (found: bool, sent: Option<ExitResult>)
      requires Valid() && c !in calls
      modifies this
      ensures Valid() && Reaches(old(View()), View()) && c in calls && calls[c].Wait? && calls[c].id == id
      ensures found <==> id in old(tasks)
      ensures found ==> calls[c].h == old(tasks)[id] < |handlers|
      ensures match calls[c].wpc
              case Delivered(result, fallback) =>
                found && sent == Some(result) && !fallback
                && handlers[calls[c].h].h.HasExited() && H.TaskStatus(handlers[calls[c].h].h).exitResult == sent
              case WaitEnded => sent.None? && (found ==> exists i | 0 <= i < |turns| :: turns[i].contextDone)
              case Waiting =>
                found && sent.None? && (forall i | 0 <= i < |turns| :: !turns[i].contextDone)
                && (turns != [] ==> !handlers[calls[c].h].h.HasExited())
              case _ => false
    {
      ghost var s0 := View();
      found := FindToWait(c, id);
      sent := None;
      if found {
        ghost var s1 := View();
        hide OwnInv;
        sent := AwaitExit(c, turns);
        ReachesOn(s0, s1, View());
      }
    }

    method AwaitExit(c: nat, turns: seq<WaitTurn>) returns (sent: Option<ExitResult>)
      requires Valid() && c in calls && calls[c].Wait? && calls[c].wpc.Waiting? && calls[c].h < |handlers|
      modifies this
      ensures Valid() && Reaches(old(View()), View()) && c in calls && calls[c].Wait?
      ensures calls[c].id == old(calls[c]).id && calls[c].h == old(calls[c]).h < |handlers|
      ensures match calls[c].wpc
              case Delivered(result, fallback) =>
                sent == Some(result) && !fallback
                && handlers[calls[c].h].h.HasExited() && H.TaskStatus(handlers[calls[c].h].h).exitResult == sent
              case WaitEnded => sent.None? && exists i | 0 <= i < |turns| :: turns[i].contextDone
              case Waiting =>
                sent.None? && (forall i | 0 <= i < |turns| :: !turns[i].contextDone)
                && (turns != [] ==> !handlers[calls[c].h].h.HasExited())
              case _ => false
    {
      hide OwnInv, Reaches;
      ghost var s0 := View();
      Unmoved(s0);
      var call := calls[c];
      for i := 0 to |turns|
        invariant Valid() && Reaches(s0, View()) && c in calls && calls[c] == call && call.h < |handlers|
        invariant forall k | 0 <= k < i :: !turns[k].contextDone
        invariant i > 0 ==> !handlers[call.h].h.HasExited()
      {
        ghost var s1 := View();
        Interfere(c, turns[i].env);
        ReachesOn(s0, s1, View());
        s1 := View();
        ClosedMeansExited(s1, call.h);
        if turns[i].contextDone && (turns[i].cut || !handlers[call.h].h.closed) {
          StopWaiting(c);
          ReachesOn(s0, s1, View());
          return None;
        }
        if handlers[call.h].h.closed {
          var result := SendExitResult(c, turns[i].sending);
          ReachesOn(s0, s1, View());
          return Some(result);
        }
      }
      return None;
    }

    method StopWaiting(c: nat)
      requires Valid() && c in calls && calls[c].Wait? && calls[c].wpc.Waiting? && calls[c].h < |handlers|
      modifies this`calls
      ensures Valid() && Reaches(old(View()), View())
      ensures c in calls && calls[c] == old(calls[c]).(wpc := WaitEnded)
    {
      Section(View(), c, ContextDone);
      At(c, calls[c].(wpc := WaitEnded));
    }

    method FindToWait(c: nat, id: string) returns (found: bool)
      requires Valid() && c !in calls
      modifies this`calls
      ensures Valid() && Reaches(old(View()), View())
      ensures found <==> id in tasks
      ensures c in calls && calls[c] == if found then Wait(id, Waiting, tasks[id]) else Wait(id, WaitEnded, 0)
      ensures found ==> tasks[id] < |handlers|
    {
      ghost var s0 := View();
      OneStep(s0, BeginWait(c, id));
      ghost var s1 := Step(s0, BeginWait(c, id));
      Section(s1, c, Silent);
      found := id in tasks;
      assert TrackedOk(s0.w, id);
      At(c, if found then Wait(id, Waiting, tasks[id]) else Wait(id, WaitEnded, 0));
      assert View() == Step(s1, Advance(c, Silent));
      ReachesOn(s0, s1, View());
    }

    // Once the wait channel has closed: what is sent is the published result.
    method SendExitResult(c: nat, env: seq<Event>) returns (sent: ExitResult)
      requires Valid() && c in calls && calls[c].Wait? && calls[c].wpc.Waiting?
      requires calls[c].h < |handlers| && handlers[calls[c].h].h.closed
      modifies this
      ensures Valid() && Reaches(old(View()), View()) && c in calls && calls[c].Wait?
      ensures calls[c].wpc == Delivered(sent, false)
      ensures calls[c].id == old(calls[c]).id && calls[c].h == old(calls[c]).h < |handlers|
      ensures handlers[calls[c].h].h.HasExited() && H.TaskStatus(handlers[calls[c].h].h).exitResult == Some(sent)
    {
      ghost var s0 := View();
      var call := calls[c];
      Section(s0, c, WaitClosed);
      call := call.(wpc := Snapshot);
      At(c, call);
      ghost var s1 := View();
      assert s1 == Step(s0, Advance(c, WaitClosed));
      Interfere(c, env);
      ghost var s2 := View();
      ReachesOn(s0, s1, s2);
      assert CallOk(s2.w, call);
      assert H.Inv(s2.w.handlers[call.h].h);
      Section(s2, c, Silent);
      var status := H.TaskStatus(handlers[call.h].h);
      if status.exitResult.Some? {
        sent := status.exitResult.value;
      } else {
        sent := ExitResult(0, 0, None);
      }
      At(c, call.(wpc := Delivered(sent, false)));
      assert View() == Step(s2, Advance(c, Silent));
      ReachesOn(s0, s2, View());
    }

    // ---- SetConfig ----

    /** SetConfig's manager swap, with everything else going on between its two steps: the new manager is
        installed before the old one is stopped, and in the end the replaced table is empty. */
    method SwapInManager(env: seq<Event>)
      requires Valid()
      modifies this
      ensures Valid() && Reaches(old(View()), View())
      ensures |old(managers)| < |managers|
      ensures |old(managers)| > 0 ==> managers[|old(managers)| - 1].units == map[]
    {
      ghost var s0 := View();
      var previous := |managers|;
      InstallManager();
      ghost var s1 := View();
      InterfereAll(env);
      ReachesOn(s0, s1, View());
      if previous > 0 {
        s1 := View();
        StopReplaced(previous - 1);
        ReachesOn(s0, s1, View());
      }
    }

    // The atomic swap of the pointer.
    method InstallManager()
      requires Valid()
      modifies this`managers
      ensures Valid() && Reaches(old(View()), View())
      ensures managers == old(managers) + [NoUnits]
    {
      OneStep(View(), SwapManager);
      managers := managers + [NoUnits];
    }

    // What the replaced manager's Stop does to its table.
    method StopReplaced(m: nat)
      requires Valid() && m + 1 < |managers|
      modifies this`managers
      ensures Valid() && Reaches(old(View()), View())
      ensures managers == old(managers)[m := Emptied(old(managers)[m])]
    {
      OneStep(View(), StopManager(m));
      managers := managers[m := Emptied(managers[m])];
    }

    // Everything at all, in the order of schedule es.
    method InterfereAll(es: seq<Event>)
      requires Valid()
      modifies this
      ensures Valid() && Reaches(old(View()), View()) && Onward(old(View()).w, View().w)
    {
      assert Run(View(), [], View());
      for i := 0 to |es|
        invariant Valid() && Reaches(old(View()), View()) && Onward(old(View()).w, View().w)
      {
        var s := View();
        if Disciplined(s, es[i]) && Enabled(s, es[i]) {
          OneStep(s, es[i]);
          GoesOnward(s, es[i]);
          ReachesOn(old(View()), s, Step(s, es[i]));
          hide OwnInv, Reaches;
          Become(Step(s, es[i]));
        }
      }
    }
  }
}
