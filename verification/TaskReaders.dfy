/** The lifecycle protocol together with its one manager: RegisterUnit and UnregisterUnit are the same step for
    both, and Handler.Start first runs StreamLogs (pkg/task/task.go, Start), so that a task's journal reader can be
    followed from its start to its destroy. */
module TaskReaders {
  import opened Options
  import opened UnitTables
  import opened Lifecycle
  import opened LifecycleProofs
  import opened LifecycleRegistration
  import M = Managers
  import P = ManagerProofs
  import O = ManagerObjects
  import H = TaskHandler

  // callers: for each StreamLogs call of the manager, the StartTask or RecoverTask call that Handler.Start makes
  // it for. readers: for each handler whose StreamLogs has joined a reader, that reader.
  datatype System = System(s: State, m: M.State, callers: map<nat, nat>, readers: map<nat, nat>)

  datatype Event =
    | OfDriver(e: Lifecycle.Event)
    | Registers(c: nat, a: Answer, k: nat)
    | Unregisters(c: nat, a: Answer, k: nat)
    | Opens(c: nat, k: nat)              // Handler.Start calls StreamLogs ...
    | Launches(c: nat, a: Answer, k: nat)   // ... and spawns its goroutines once that has returned
    | OfManager(me: M.Event)

  // SetConfig has been called once.
  const Start := System(State(World(map[], map[], [], [NoUnits]), map[]), M.Init, map[], map[])

  predicate Launching(s: State, c: nat) {
    c in s.calls && s.calls[c].Acquire? && s.calls[c].apc.Launching?
  }

  // Steps of a call that the manager takes part in.
  predicate AtManager(call: Call) {
    (call.Acquire? && (call.apc.Registering? || call.apc.Launching?)) || (call.Destroy? && call.dpc.Unregistering?)
  }

  predicate CanDo(x: System, e: Event) {
    match e
    case OfDriver(le) =>
      && Enabled(x.s, le) && Disciplined(x.s, le) && !le.SwapManager? && !le.StopManager?
      && (le.Advance? ==> !AtManager(x.s.calls[le.c]))
    case Registers(c, a, k) =>
      && Enabled(x.s, Advance(c, a)) && x.s.calls[c].Acquire? && x.s.calls[c].apc.Registering?
      && k !in x.m.calls
    case Unregisters(c, a, k) =>
      && Enabled(x.s, Advance(c, a)) && x.s.calls[c].Destroy?
      && x.s.calls[c].dpc.Unregistering? && k !in x.m.calls
    case Opens(c, k) =>
      && Launching(x.s, c) && (forall j | j in x.callers :: x.callers[j] != c) && k !in x.m.calls
      && k !in x.callers
    case Launches(c, a, k) =>
      && Enabled(x.s, Advance(c, a)) && Launching(x.s, c) && k in x.callers && x.callers[k] == c
      && M.StreamAt(x.m, k) && x.m.calls[k].pc.Streamed?
    // The manager is stopped by Shutdown or by a config reload only.
    case OfManager(me) =>
      M.Enabled(x.m, me) && !me.BeginStream? && !me.BeginRetire? && !me.ReplaceEntry? && !me.BeginStop?
          && !me.ParentCancelled?
  }

  function Do(x: System, e: Event): System
    requires CanDo(x, e)
  {
    match e
    case OfDriver(le) => x.(s := Step(x.s, le))
    case Registers(c, a, k) => x.(s := Step(x.s, Advance(c, a)), m := O.Displaced(x.m, k, x.s.calls[c].unit, true))
    case Unregisters(c, a, k) => x.(s := Step(x.s, Advance(c, a)), m := O.Displaced(x.m, k, x.s.calls[c].unit, false))
    case Opens(c, k) => x.(m := M.Step(x.m, M.BeginStream(k, x.s.calls[c].unit)), callers := x.callers[k := c])
    case Launches(c, a, _) => x.(s := Step(x.s, Advance(c, a)))
    case OfManager(me) =>
      x.(m := M.Step(x.m, me),
         readers := if me.JoinReaders? && Joins(x, me.c)
             then x.readers[x.s.calls[x.callers[me.c]].h := x.m.calls[me.c].pc.r] else x.readers)
  }

  // startJournalReader is about to admit the reader of StreamLogs call k.
  predicate Joins(x: System, k: nat) {
    && M.StreamAt(x.m, k) && x.m.calls[k].pc.Joining? && !x.m.stopping && x.m.calls[k].unit in x.m.t.units
    && k in x.callers && x.callers[k] in x.s.calls && HasHandler(x.s.calls[x.callers[k]])
        && x.s.calls[x.callers[k]].Acquire?
  }

  ghost predicate Goes(x: System, es: seq<Event>, x': System)
    decreases |es|
  {
    if es == [] then x' == x
    else CanDo(x, es[0]) && Goes(Do(x, es[0]), es[1..], x')
  }

  // ---- The two machines agree ----

  predicate SameTable(w: World, t: UnitTable) {
    |w.mgrs| == 1 && w.mgrs[0].units == t.units && |w.mgrs[0].cancelJournal| == |t.cancelJournal|
  }

  ghost predicate Tied(x: System) {
    && OwnInv(x.s) && RegInv(x.s) && P.Inv(x.m) && P.UnitInv(x.m)
    && SameTable(x.s.w, x.m.t) && x.m.stop == M.NotStopping && !x.m.ctxDone
  }

  lemma DriverKeepsTable(s: State, e: Lifecycle.Event)
    requires Enabled(s, e) && !e.SwapManager? && !e.StopManager?
    requires e.Advance? ==> !AtManager(s.calls[e.c]) || Launching(s, e.c)
    ensures Step(s, e).w.mgrs == s.w.mgrs
  {
    hide H.Step, H.Enabled, H.New, NextCall;
  }

  lemma RegisterIsShared(s: State, c: nat, a: Answer)
    requires OwnInv(s) && RegInv(s) && |s.w.mgrs| == 1 && Enabled(s, Advance(c, a))
    requires s.calls[c].Acquire? && s.calls[c].apc.Registering?
    ensures Step(s, Advance(c, a)).w.mgrs == [Register(s.w.mgrs[0], s.calls[c].unit)]
  {
    assert RegCallOk(s.w, s.calls[c]);
    hide OwnInv, RegInv, NextCall;
  }

  lemma UnregisterIsShared(s: State, c: nat, a: Answer)
    requires |s.w.mgrs| == 1 && Enabled(s, Advance(c, a)) && s.calls[c].Destroy? && s.calls[c].dpc.Unregistering?
    ensures Step(s, Advance(c, a)).w.mgrs == [Unregister(s.w.mgrs[0], s.calls[c].unit)]
  {
    hide NextCall;
  }

  lemma ManagerKeepsTable(m: M.State, me: M.Event)
    requires M.Enabled(m, me) && m.stop == M.NotStopping && !m.ctxDone
    requires !me.ReplaceEntry? && !me.BeginStop? && !me.ParentCancelled?
    ensures var m' := M.Step(m, me);
            && m'.t.units == m.t.units && |m'.t.cancelJournal| == |m.t.cancelJournal|
            && m'.stop == M.NotStopping && !m'.ctxDone
  {
    hide M.WithCancelled;
  }

  lemma DisplacingKeepsManager(m: M.State, k: nat, unit: string, registering: bool)
    requires P.Inv(m) && P.UnitInv(m) && k !in m.calls
    ensures var m' := O.Displaced(m, k, unit, registering);
            P.Inv(m') && P.UnitInv(m') && m'.stop == m.stop && m'.ctxDone == m.ctxDone
  {
    O.RetireSection(m, k, unit, registering);
    O.RetireSteps(m, k, unit, registering);
    var begin := M.BeginRetire(k, unit, registering);
    P.StepKeepsInv(m, begin);
    P.StepKeepsUnits(m, begin);
    P.StepKeepsUnits(M.Step(m, begin), M.ReplaceEntry(k));
    hide P.Inv, P.UnitInv, M.Step, M.Enabled;
  }

  lemma DriverKeepsInvs(s: State, e: Lifecycle.Event)
    requires OwnInv(s) && RegInv(s) && Enabled(s, e) && Disciplined(s, e) && e != SwapManager
    ensures OwnInv(Step(s, e)) && RegInv(Step(s, e))
  {
    StepKeepsOwn(s, e);
    StepKeepsReg(s, e);
  }

  lemma ManagerKeepsInvs(m: M.State, me: M.Event)
    requires P.Inv(m) && P.UnitInv(m) && M.Enabled(m, me)
    ensures P.Inv(M.Step(m, me)) && P.UnitInv(M.Step(m, me))
  {
    P.StepKeepsInv(m, me);
    P.StepKeepsUnits(m, me);
  }

  lemma SharedStepKeepsTied(x: System, e: Event)
    requires Tied(x) && CanDo(x, e) && (e.Registers? || e.Unregisters?)
    ensures Tied(Do(x, e))
  {
    var registering := e.Registers?;
    DriverKeepsInvs(x.s, Advance(e.c, e.a));
    if registering {
      RegisterIsShared(x.s, e.c, e.a);
    } else {
      UnregisterIsShared(x.s, e.c, e.a);
    }
    DisplacingKeepsManager(x.m, e.k, x.s.calls[e.c].unit, registering);
    hide OwnInv, RegInv, P.Inv, P.UnitInv, Step, Enabled;
  }

  lemma DriverStepKeepsTied(x: System, e: Event)
    requires Tied(x) && CanDo(x, e) && (e.OfDriver? || e.Launches?)
    ensures Tied(Do(x, e))
  {
    var le := if e.OfDriver? then e.e else Advance(e.c, e.a);
    DriverKeepsInvs(x.s, le);
    DriverKeepsTable(x.s, le);
    hide OwnInv, RegInv, P.Inv, P.UnitInv, Step, Enabled;
  }

  lemma ManagerStepKeepsTied(x: System, e: Event)
    requires Tied(x) && CanDo(x, e) && (e.Opens? || e.OfManager?)
    ensures Tied(Do(x, e))
  {
    var me := if e.Opens? then M.BeginStream(e.k, x.s.calls[e.c].unit) else e.me;
    ManagerKeepsInvs(x.m, me);
    ManagerKeepsTable(x.m, me);
    hide OwnInv, RegInv, P.Inv, P.UnitInv, M.Step, M.Enabled;
  }

  lemma DoKeepsTied(x: System, e: Event)
    requires Tied(x) && CanDo(x, e)
    ensures Tied(Do(x, e))
  {
    hide Tied, CanDo, Do;
    match e
    case OfDriver(_) => DriverStepKeepsTied(x, e);
    case Launches(_, _, _) => DriverStepKeepsTied(x, e);
    case Opens(_, _) => ManagerStepKeepsTied(x, e);
    case OfManager(_) => ManagerStepKeepsTied(x, e);
    case _ => SharedStepKeepsTied(x, e);
  }

  // ---- Streams ----

  // Between RegisterUnit and Handler.Start's end.
  predicate Setting(s: State, c: nat) {
    c in s.calls && s.calls[c].Acquire?
        && (s.calls[c].apc.Building? || s.calls[c].apc.Resulting? || s.calls[c].apc.Launching?)
  }

  predicate HasJoined(call: M.Call) {
    call.Stream? && (call.pc.Displacing? || call.pc == M.Streamed(true))
  }

  ghost predicate NotJoined(x: System, c: nat) {
    forall k | k in x.callers && x.callers[k] == c :: k in x.m.calls && !HasJoined(x.m.calls[k])
  }

  // A StreamLogs call that has not returned is Handler.Start's, and has nobody to displace.
  predicate StreamOk(x: System, k: nat)
    requires k in x.m.calls
  {
    var call := x.m.calls[k];
    call.Stream? ==>
      && (!call.pc.Streamed? ==>
          k in x.callers && Launching(x.s, x.callers[k]) && x.s.calls[x.callers[k]].unit == call.unit)
      && (call.pc.Displacing? ==> call.pc.previous.None?)
      && (call.pc.Joining? ==> call.pc.r < |x.m.readers| && !x.m.readers[call.pc.r].cancelled)
      && (HasJoined(call) && k in x.callers && Launching(x.s, x.callers[k]) ==> x.s.calls[x.callers[k]].h in x.readers)
  }

  // Nobody's reader is in the entry of a unit whose task is being set up.
  predicate Vacant(t: UnitTable, unit: string) {
    unit in t.units ==> t.units[unit] < |t.cancelJournal| && t.cancelJournal[t.units[unit]].None?
  }

  predicate Opened(s: State, c: nat) {
    c in s.calls && s.calls[c].Acquire?
        && (s.calls[c].apc.Launching? || s.calls[c].apc.Publishing? || s.calls[c].apc.Acquired?)
  }

  ghost predicate StreamInv(x: System) {
    && (forall k | k in x.m.calls :: StreamOk(x, k))
    && (forall k | k in x.callers :: M.StreamAt(x.m, k) && Opened(x.s, x.callers[k]))
    && (forall j, k | j in x.callers && k in x.callers && x.callers[j] == x.callers[k] :: j == k)
    && (forall c | Setting(x.s, c) && NotJoined(x, c) :: Vacant(x.m.t, x.s.calls[c].unit))
  }

  // ---- Readers ----

  // Handler t's entry is the one its unit has now.
  predicate Current(t: Handler, table: UnitTable) {
    t.unit in table.units && t.wake == Some(table.units[t.unit])
  }

  // The reader that joined for handler h is in h's entry, and runs uncancelled while that is the unit's.
  predicate ReaderOk(x: System, h: nat)
    requires h in x.readers
  {
    var r := x.readers[h];
    && h < |x.s.w.handlers| && x.s.w.handlers[h].wake.Some? && P.Cancels(x.m, x.s.w.handlers[h].wake.value, r)
    && r < |x.m.readers|
    && (Current(x.s.w.handlers[h], x.m.t) ==> x.m.readers[r].status.Running? && !x.m.readers[r].cancelled)
  }

  ghost predicate ReadersInv(x: System) {
    && (forall h | h in x.readers :: ReaderOk(x, h))
    && (forall o: nat, p: nat, r: nat | P.Cancels(x.m, o, r) && P.Cancels(x.m, p, r) :: o == p)
    && (forall o: nat, r: nat | P.Cancels(x.m, o, r) :: r < |x.m.readers| && !x.m.readers[r].status.Made?)
  }

  ghost predicate Sound(x: System) {
    Tied(x) && StreamInv(x) && ReadersInv(x)
  }

  // What a step of the driver does not change.
  lemma IdentityStays(s: State, e: Lifecycle.Event, h: nat)
    requires Enabled(s, e) && h < |s.w.handlers|
    ensures h < |Step(s, e).w.handlers| && Step(s, e).w.handlers[h].(h := s.w.handlers[h].h) == s.w.handlers[h]
  {
    hide H.Step, H.Enabled, H.New, NextCall;
  }

  // The task of a call at Handler.Start is registered, with the entry that its handler polls.
  lemma LaunchingIsCurrent(x: System, c: nat)
    requires Tied(x) && Launching(x.s, c)
    ensures x.s.calls[c].h < |x.s.w.handlers| && x.s.w.handlers[x.s.calls[c].h].unit == x.s.calls[c].unit
    ensures Current(x.s.w.handlers[x.s.calls[c].h], x.m.t)
  {
    assert CallOk(x.s.w, x.s.calls[c]) && RegCallOk(x.s.w, x.s.calls[c]);
  }

  // Two calls being set up with the same unit are one.
  lemma OneSetsUp(s: State, c: nat, d: nat)
    requires OwnInv(s) && Setting(s, c) && Setting(s, d) && s.calls[c].unit == s.calls[d].unit
    ensures c == d
  {
    assert CallOk(s.w, s.calls[c]) && CallOk(s.w, s.calls[d]);
    assert Busy(s.calls[c]) && Busy(s.calls[d]);
  }

  // ---- Steps of the driver ----

  // What the driver's other steps leave of the calls that the manager is concerned with.
  ghost predicate Undisturbed(x: System, s': State) {
    && (forall h | 0 <= h < |x.s.w.handlers| ::
          h < |s'.w.handlers| && s'.w.handlers[h].(h := x.s.w.handlers[h].h) == x.s.w.handlers[h])
    && (forall k | k in x.m.calls && x.m.calls[k].Stream? && !x.m.calls[k].pc.Streamed? && k in x.callers
        && Launching(x.s, x.callers[k]) ::
          Launching(s', x.callers[k]) && s'.calls[x.callers[k]] == x.s.calls[x.callers[k]])
    && (forall c | Opened(x.s, c) :: Opened(s', c) && (Launching(s', c) ==> s'.calls[c] == x.s.calls[c]))
    && (forall c | Setting(s', c) :: Setting(x.s, c) && s'.calls[c].unit == x.s.calls[c].unit)
  }

  lemma DriverKeepsReaders(x: System, s': State)
    requires StreamInv(x) && ReadersInv(x) && Undisturbed(x, s')
    ensures StreamInv(x.(s := s')) && ReadersInv(x.(s := s'))
  {
    var x' := x.(s := s');
    forall k | k in x'.m.calls ensures StreamOk(x', k) {
      assert StreamOk(x, k);
    }
    forall h | h in x'.readers ensures ReaderOk(x', h) {
      assert ReaderOk(x, h);
    }
    forall c | Setting(x'.s, c) && NotJoined(x', c) ensures Vacant(x'.m.t, x'.s.calls[c].unit) {
      assert NotJoined(x, c);
    }
  }

  lemma OthersAreUndisturbed(x: System, e: Lifecycle.Event)
    requires CanDo(x, OfDriver(e))
    ensures Undisturbed(x, Step(x.s, e))
  {
    forall h | 0 <= h < |x.s.w.handlers|
      ensures h < |Step(x.s, e).w.handlers|
      ensures Step(x.s, e).w.handlers[h].(h := x.s.w.handlers[h].h) == x.s.w.handlers[h]
    {
      IdentityStays(x.s, e, h);
    }
    CallsAreUndisturbed(x.s, e);
    hide Step, Enabled;
  }

  lemma CallsAreUndisturbed(s: State, e: Lifecycle.Event)
    requires Enabled(s, e) && (e.Advance? ==> !AtManager(s.calls[e.c]))
    ensures var s' := Step(s, e);
            && (forall c | Launching(s, c) :: Launching(s', c) && s'.calls[c] == s.calls[c])
            && (forall c | Opened(s, c) :: Opened(s', c) && (Launching(s', c) ==> s'.calls[c] == s.calls[c]))
            && (forall c | Setting(s', c) :: Setting(s, c) && s'.calls[c].unit == s.calls[c].unit)
  {
    hide Apply, EffectOf;
  }

  lemma LaunchIsUndisturbed(x: System, c: nat, a: Answer, k: nat)
    requires StreamInv(x) && CanDo(x, Launches(c, a, k))
    ensures Undisturbed(x, Step(x.s, Advance(c, a)))
  {
    forall h | 0 <= h < |x.s.w.handlers|
      ensures h < |Step(x.s, Advance(c, a)).w.handlers|
      ensures Step(x.s, Advance(c, a)).w.handlers[h].(h := x.s.w.handlers[h].h) == x.s.w.handlers[h]
    {
      IdentityStays(x.s, Advance(c, a), h);
    }
    hide Apply, EffectOf, NextDestroy, NextStop, NextWait;
  }

  // ---- Steps that both take ----

  lemma CallsAtTheTable(s: State, c: nat, a: Answer)
    requires Enabled(s, Advance(c, a))
    ensures Step(s, Advance(c, a)).w.handlers == s.w.handlers || !AtManager(s.calls[c]) || Launching(s, c)
    ensures s.calls[c].Acquire? && s.calls[c].apc.Registering? ==>
              Step(s, Advance(c, a)).calls == s.calls[c := s.calls[c].(apc := Building)]
    ensures s.calls[c].Destroy? && s.calls[c].dpc.Unregistering? ==>
              Step(s, Advance(c, a)).calls == s.calls[c := s.calls[c].(dpc := Deleting)]
  {
  }

  // A table change that only puts a new vacant entry in, or takes one out.
  ghost predicate OnlyVacancies(t: UnitTable, t': UnitTable, unit: string) {
    && t.cancelJournal <= t'.cancelJournal
        && (forall o | |t.cancelJournal| <= o < |t'.cancelJournal| :: t'.cancelJournal[o].None?)
    && (forall u | u in t'.units && u != unit :: u in t.units && t'.units[u] == t.units[u])
    && (unit in t'.units ==> |t.cancelJournal| <= t'.units[unit] < |t'.cancelJournal|)
  }

  lemma TableStepKeeps(x: System, s': State, m': M.State, k: nat, unit: string)
    requires StreamInv(x) && ReadersInv(x) && OnlyVacancies(x.m.t, m'.t, unit)
    requires m'.readers == x.m.readers && k !in x.m.calls && k in m'.calls && m'.calls == x.m.calls[k := m'.calls[k]]
    requires m'.calls[k].Retire?
    requires s'.w.handlers == x.s.w.handlers
    requires forall c | Launching(x.s, c) || Launching(s', c) ::
               Launching(x.s, c) && Launching(s', c) && s'.calls[c] == x.s.calls[c]
    requires forall c | Opened(x.s, c) :: Opened(s', c)
    requires forall c | Setting(s', c) ::
               (Setting(x.s, c) && s'.calls[c].unit == x.s.calls[c].unit) || s'.calls[c].unit == unit
    ensures StreamInv(x.(s := s', m := m')) && ReadersInv(x.(s := s', m := m'))
  {
    var x' := x.(s := s', m := m');
    forall j | j in x'.m.calls ensures StreamOk(x', j) {
      assert j != k ==> StreamOk(x, j);
    }
    TableStepKeepsReaders(x, x');
    hide ReadersInv, StreamOk;
    forall c | Setting(x'.s, c) && NotJoined(x', c) ensures Vacant(x'.m.t, x'.s.calls[c].unit) {
      assert forall j | j in x.callers && x.callers[j] == c :: j in x.m.calls && j != k;
      assert NotJoined(x, c);
    }
  }

  lemma TableStepKeepsReaders(x: System, x': System)
    requires ReadersInv(x) && x'.readers == x.readers && x'.s.w.handlers == x.s.w.handlers
    requires x'.m.readers == x.m.readers
    requires exists unit :: OnlyVacancies(x.m.t, x'.m.t, unit)
    ensures ReadersInv(x')
  {
    assert forall o: nat, r: nat :: P.Cancels(x'.m, o, r) ==> P.Cancels(x.m, o, r);
    forall h | h in x'.readers ensures ReaderOk(x', h) {
      assert ReaderOk(x, h);
    }
  }

  lemma DisplacedTable(m: M.State, k: nat, unit: string, registering: bool)
    requires k !in m.calls
    ensures var m' := O.Displaced(m, k, unit, registering);
            && OnlyVacancies(m.t, m'.t, unit) && m'.readers == m.readers
            && k in m'.calls && m'.calls == m.calls[k := m'.calls[k]] && m'.calls[k].Retire?
  {
  }

  lemma RegistersKeeps(x: System, c: nat, a: Answer, k: nat)
    requires StreamInv(x) && ReadersInv(x) && CanDo(x, Registers(c, a, k))
    ensures var x' := x.(s := Step(x.s, Advance(c, a)), m := O.Displaced(x.m, k, x.s.calls[c].unit, true));
            StreamInv(x') && ReadersInv(x')
  {
    CallsAtTheTable(x.s, c, a);
    DisplacedTable(x.m, k, x.s.calls[c].unit, true);
    hide StreamInv, ReadersInv, Step, Enabled, O.Displaced, OnlyVacancies;
    TableStepKeeps(x, Step(x.s, Advance(c, a)), O.Displaced(x.m, k, x.s.calls[c].unit, true), k, x.s.calls[c].unit);
  }

  lemma UnregistersKeeps(x: System, c: nat, a: Answer, k: nat)
    requires StreamInv(x) && ReadersInv(x) && CanDo(x, Unregisters(c, a, k))
    ensures var x' := x.(s := Step(x.s, Advance(c, a)), m := O.Displaced(x.m, k, x.s.calls[c].unit, false));
            StreamInv(x') && ReadersInv(x')
  {
    CallsAtTheTable(x.s, c, a);
    DisplacedTable(x.m, k, x.s.calls[c].unit, false);
    hide StreamInv, ReadersInv, Step, Enabled, O.Displaced, OnlyVacancies;
    TableStepKeeps(x, Step(x.s, Advance(c, a)), O.Displaced(x.m, k, x.s.calls[c].unit, false), k, x.s.calls[c].unit);
  }

  // StreamLogs call k begins for the call c that is at Handler.Start.
  lemma OpensKeeps(x: System, c: nat, k: nat, m': M.State)
    requires StreamInv(x) && ReadersInv(x) && Launching(x.s, c)
    requires (forall j | j in x.callers :: x.callers[j] != c) && k !in x.m.calls && k !in x.callers
    requires m' == x.m.(calls := x.m.calls[k := M.Stream(x.s.calls[c].unit, M.Opening)])
    ensures StreamInv(x.(m := m', callers := x.callers[k := c]))
    ensures ReadersInv(x.(m := m', callers := x.callers[k := c]))
  {
    var x' := x.(m := m', callers := x.callers[k := c]);
    forall j | j in m'.calls ensures StreamOk(x', j) {
      assert j != k ==> StreamOk(x, j);
    }
    forall h | h in x'.readers ensures ReaderOk(x', h) {
      assert ReaderOk(x, h);
    }
    assert forall o: nat, r: nat :: P.Cancels(m', o, r) ==> P.Cancels(x.m, o, r);
    forall d | Setting(x'.s, d) && NotJoined(x', d) ensures Vacant(m'.t, x'.s.calls[d].unit) {
      forall j | j in x.callers && x.callers[j] == d ensures j in x.m.calls && !HasJoined(x.m.calls[j]) {
        assert j in x'.callers && x'.callers[j] == d;
      }
      assert NotJoined(x, d);
    }
  }

  // ---- Steps of the manager ----

  // Readers not yet joined, and those of registered handlers, are left alone.
  ghost predicate ReadersKept(x: System, readers': seq<M.Reader>) {
    && |x.m.readers| <= |readers'|
    && (forall r | 0 <= r < |x.m.readers| ::
          if x.m.readers[r].status.Made? then readers'[r] == x.m.readers[r] else !readers'[r].status.Made?)
    && (forall h | h in x.readers && ReaderOk(x, h) && Current(x.s.w.handlers[h], x.m.t) ::
          readers'[x.readers[h]] == x.m.readers[x.readers[h]])
  }

  predicate JoinsMade(m: M.State, k: nat)
    requires k in m.calls
  {
    m.calls[k].Stream? && m.calls[k].pc.Joining? ==>
      m.calls[k].pc.r < |m.readers| && m.readers[m.calls[k].pc.r].status.Made?
  }

  lemma ManagersCallsAreOk(m: M.State)
    requires P.Inv(m)
    ensures forall k | k in m.calls :: P.CallOk(m, m.calls[k]) && JoinsMade(m, k)
    ensures m.t.Valid()
  {
    forall k | k in m.calls ensures P.CallOk(m, m.calls[k]) && JoinsMade(m, k) {
      assert P.CallOk(m, m.calls[k]);
    }
  }

  // Call k moves, without joining, and the readers of others are left alone.
  lemma CallMoves(x: System, m': M.State, k: nat)
    requires StreamInv(x) && ReadersInv(x) && ReadersKept(x, m'.readers)
    requires forall j | j in x.m.calls :: JoinsMade(x.m, j)
    requires m'.t == x.m.t && k in x.m.calls && k in m'.calls && m'.calls == x.m.calls[k := m'.calls[k]]
    requires M.StreamAt(x.m, k) ==> M.StreamAt(m', k)
    requires HasJoined(m'.calls[k]) <==> HasJoined(x.m.calls[k])
    requires StreamOk(x.(m := m'), k)
    ensures StreamInv(x.(m := m')) && ReadersInv(x.(m := m'))
  {
    var x' := x.(m := m');
    forall j | j in m'.calls ensures StreamOk(x', j) {
      assert j != k ==> StreamOk(x, j) && JoinsMade(x.m, j);
    }
    forall h | h in x'.readers ensures ReaderOk(x', h) {
      assert ReaderOk(x, h);
    }
    assert forall o: nat, r: nat :: P.Cancels(m', o, r) <==> P.Cancels(x.m, o, r);
    forall c | Setting(x'.s, c) && NotJoined(x', c) ensures Vacant(m'.t, x'.s.calls[c].unit) {
      forall j | j in x.callers && x.callers[j] == c ensures j in x.m.calls && !HasJoined(x.m.calls[j]) {
        assert j in m'.calls && !HasJoined(m'.calls[j]);
      }
      assert NotJoined(x, c);
    }
  }

  // Nothing but readers changes.
  lemma ReadersMove(x: System, m': M.State)
    requires StreamInv(x) && ReadersInv(x) && ReadersKept(x, m'.readers)
    requires forall j | j in x.m.calls :: JoinsMade(x.m, j)
    requires m'.t == x.m.t && m'.calls == x.m.calls
    ensures StreamInv(x.(m := m')) && ReadersInv(x.(m := m'))
  {
    var x' := x.(m := m');
    forall j | j in m'.calls ensures StreamOk(x', j) {
      assert StreamOk(x, j) && JoinsMade(x.m, j);
    }
    forall h | h in x'.readers ensures ReaderOk(x', h) {
      assert ReaderOk(x, h);
    }
    assert forall o: nat, r: nat :: P.Cancels(m', o, r) <==> P.Cancels(x.m, o, r);
    forall c | Setting(x'.s, c) && NotJoined(x', c) ensures Vacant(m'.t, x'.s.calls[c].unit) {
      assert NotJoined(x, c);
    }
  }

  lemma OpenedStep(x: System, k: nat, available: bool)
    requires M.Enabled(x.m, M.JournalOpened(k, available)) && StreamOk(x, k)
    ensures var m' := M.Step(x.m, M.JournalOpened(k, available));
            && m'.t == x.m.t && x.m.readers <= m'.readers
            && k in m'.calls && m'.calls == x.m.calls[k := m'.calls[k]] && M.StreamAt(m', k) && !HasJoined(m'.calls[k])
            && StreamOk(x.(m := m'), k)
  {
  }

  lemma OpenedKeeps(x: System, k: nat, available: bool)
    requires Sound(x) && M.Enabled(x.m, M.JournalOpened(k, available))
    ensures var x' := x.(m := M.Step(x.m, M.JournalOpened(k, available)));
            StreamInv(x') && ReadersInv(x')
  {
    ManagersCallsAreOk(x.m);
    assert StreamOk(x, k);
    hide Tied, StreamInv, ReadersInv;
    OpenedStep(x, k, available);
    assert M.StreamAt(x.m, k) && x.m.calls[k].pc.Opening?;
    hide M.Step, M.Enabled;
    CallMoves(x, M.Step(x.m, M.JournalOpened(k, available)), k);
  }

  lemma CancelPreviousKeeps(x: System, k: nat)
    requires Sound(x) && M.Enabled(x.m, M.CancelPrevious(k))
    ensures var x' := x.(m := M.Step(x.m, M.CancelPrevious(k)));
            StreamInv(x') && ReadersInv(x')
  {
    ManagersCallsAreOk(x.m);
    hide Tied;
    var m' := M.Step(x.m, M.CancelPrevious(k));
    assert StreamOk(x, k);
    CallMoves(x, m', k);
  }

  // What a displaced entry's reader is: joined, and no registered handler's.
  lemma DisplacedReaderIsNobodys(x: System, k: nat)
    requires Sound(x) && M.Enabled(x.m, M.CancelOld(k))
    ensures var o := x.m.calls[k].rpc.o;
            var r := if o.Some? && o.value < |x.m.t.cancelJournal| then x.m.t.cancelJournal[o.value] else None;
            ReadersKept(x, if r.Some? then M.WithCancelled(x.m.readers, r.value) else x.m.readers)
  {
    ManagersCallsAreOk(x.m);
    hide Tied, StreamInv;
    var o := x.m.calls[k].rpc.o;
    assert P.CallOk(x.m, x.m.calls[k]);
    if o.Some? && x.m.t.cancelJournal[o.value].Some? {
      var r := x.m.t.cancelJournal[o.value].value;
      assert P.Cancels(x.m, o.value, r);
      forall h | h in x.readers && ReaderOk(x, h) && Current(x.s.w.handlers[h], x.m.t)
        ensures x.readers[h] != r
      {
        assert P.Cancels(x.m, x.s.w.handlers[h].wake.value, x.readers[h]);
      }
    }
  }

  lemma CancelOldKeeps(x: System, k: nat)
    requires Sound(x) && M.Enabled(x.m, M.CancelOld(k))
    ensures var x' := x.(m := M.Step(x.m, M.CancelOld(k)));
            StreamInv(x') && ReadersInv(x')
  {
    ManagersCallsAreOk(x.m);
    DisplacedReaderIsNobodys(x, k);
    hide Tied, ReadersKept;
    CallMoves(x, M.Step(x.m, M.CancelOld(k)), k);
  }

  lemma ReaderExitsKeeps(x: System, r: nat)
    requires Sound(x) && M.Enabled(x.m, M.ReaderExits(r))
    ensures var x' := x.(m := M.Step(x.m, M.ReaderExits(r)));
            StreamInv(x') && ReadersInv(x')
  {
    ManagersCallsAreOk(x.m);
    assert !x.m.ctxDone;
    hide Tied;
    ReadersMove(x, M.Step(x.m, M.ReaderExits(r)));
  }

  /** StreamLogs as Handler.Start calls it is never refused for the unit: when its reader is about to join, the unit
      is registered, with a vacant entry that is the one the handler polls. */
  lemma NoStartIsRefused(x: System, k: nat)
    requires Sound(x) && M.Enabled(x.m, M.JoinReaders(k))
    ensures Joins(x, k) && Launching(x.s, x.callers[k]) && x.s.calls[x.callers[k]].unit == x.m.calls[k].unit
    ensures Vacant(x.m.t, x.m.calls[k].unit)
    ensures var h := x.s.calls[x.callers[k]].h;
            h < |x.s.w.handlers| && x.s.w.handlers[h].unit == x.m.calls[k].unit && Current(x.s.w.handlers[h], x.m.t)
    ensures M.StartJournalReader(x.m, k).calls[k].pc == M.Displacing(None)
  {
    var c := x.callers[k];
    assert StreamOk(x, k);
    LaunchingIsCurrent(x, c);
    assert !x.m.stopping;
    hide Tied;
    assert NotJoined(x, c);
    assert Setting(x.s, c);
  }

  ghost predicate Joined(x: System, x': System, k: nat) {
    && M.StreamAt(x.m, k) && x.m.calls[k].pc.Joining? && k in x.callers && x.callers[k] in x.s.calls
        && x.s.calls[x.callers[k]].Acquire?
    && x.m.calls[k].unit in x.m.t.units && x.m.t.units[x.m.calls[k].unit] < |x.m.t.cancelJournal|
        && x.m.calls[k].pc.r < |x.m.readers|
    && var o, r := x.m.t.units[x.m.calls[k].unit], x.m.calls[k].pc.r;
       && x.m.t.cancelJournal[o].None? && x.m.readers[r].status.Made? && !x.m.readers[r].cancelled
       && x'.s == x.s && x'.callers == x.callers && x'.readers == x.readers[x.s.calls[x.callers[k]].h := r]
       && x'.m.t == x.m.t.(cancelJournal := x.m.t.cancelJournal[o := Some(r)])
       && x'.m.readers == x.m.readers[r := x.m.readers[r].(status := M.Running)]
       && x'.m.calls == x.m.calls[k := x.m.calls[k].(pc := M.Displacing(None))]
  }

  lemma JoinStep(x: System, k: nat)
    requires Sound(x) && CanDo(x, OfManager(M.JoinReaders(k)))
    ensures Joined(x, Do(x, OfManager(M.JoinReaders(k))), k)
    ensures var h := x.s.calls[x.callers[k]].h;
            h < |x.s.w.handlers| && x.s.w.handlers[h].unit == x.m.calls[k].unit && Current(x.s.w.handlers[h], x.m.t)
    ensures Launching(x.s, x.callers[k]) && x.s.calls[x.callers[k]].unit == x.m.calls[k].unit
    ensures x.m.t.Valid() && OwnInv(x.s)
  {
    NoStartIsRefused(x, k);
    ManagersCallsAreOk(x.m);
    assert StreamOk(x, k) && JoinsMade(x.m, k);
    hide Sound, Tied, StreamInv, ReadersInv, P.CallOk;
  }

  lemma JoinedKeepsReaders(x: System, x': System, k: nat)
    requires ReadersInv(x) && Joined(x, x', k) && x.m.t.Valid()
    requires var h := x.s.calls[x.callers[k]].h;
             h < |x.s.w.handlers| && x.s.w.handlers[h].unit == x.m.calls[k].unit && Current(x.s.w.handlers[h], x.m.t)
    ensures ReadersInv(x')
  {
    var o, r := x.m.t.units[x.m.calls[k].unit], x.m.calls[k].pc.r;
    assert forall p: nat, q: nat :: P.Cancels(x'.m, p, q) ==> (p == o && q == r) || (p != o && P.Cancels(x.m, p, q));
    forall h | h in x'.readers ensures ReaderOk(x', h) {
      if h != x.s.calls[x.callers[k]].h {
        assert ReaderOk(x, h);
        assert P.Cancels(x.m, x.s.w.handlers[h].wake.value, x.readers[h]);
      }
    }
  }

  lemma JoinedKeepsStreams(x: System, x': System, k: nat)
    requires StreamInv(x) && Joined(x, x', k) && x.m.t.Valid() && OwnInv(x.s)
    requires Launching(x.s, x.callers[k]) && x.s.calls[x.callers[k]].unit == x.m.calls[k].unit
    ensures StreamInv(x')
  {
    hide StreamOk, Vacant, NotJoined, Setting, OwnInv, Launching;
    forall j | j in x'.m.calls ensures StreamOk(x', j) {
      JoinedStreamOk(x, x', k, j);
    }
    JoinedKeepsVacancies(x, x', k);
    assert forall j | j in x.callers :: M.StreamAt(x.m, j) && Opened(x.s, x.callers[j]);
  }

  lemma JoinedStreamOk(x: System, x': System, k: nat, j: nat)
    requires j in x.m.calls && StreamOk(x, j) && Joined(x, x', k) && Launching(x.s, x.callers[k])
    requires x.s.calls[x.callers[k]].unit == x.m.calls[k].unit
    ensures j in x'.m.calls && StreamOk(x', j)
  {
  }

  lemma JoinedKeepsVacancies(x: System, x': System, k: nat)
    requires StreamInv(x) && Joined(x, x', k) && x.m.t.Valid() && OwnInv(x.s)
    requires Launching(x.s, x.callers[k]) && x.s.calls[x.callers[k]].unit == x.m.calls[k].unit
    ensures forall c | Setting(x'.s, c) && NotJoined(x', c) :: Vacant(x'.m.t, x'.s.calls[c].unit)
  {
    hide StreamOk;
    forall c | Setting(x'.s, c) && NotJoined(x', c) ensures Vacant(x'.m.t, x'.s.calls[c].unit) {
      forall j | j in x.callers && x.callers[j] == c ensures j in x.m.calls && !HasJoined(x.m.calls[j]) {
        assert j in x'.m.calls && !HasJoined(x'.m.calls[j]);
      }
      assert NotJoined(x, c);
      assert HasJoined(x'.m.calls[k]);
      if x.s.calls[c].unit == x.m.calls[k].unit {
        OneSetsUp(x.s, c, x.callers[k]);
      }
    }
  }

  lemma JoinKeeps(x: System, k: nat)
    requires Sound(x) && CanDo(x, OfManager(M.JoinReaders(k)))
    ensures StreamInv(Do(x, OfManager(M.JoinReaders(k)))) && ReadersInv(Do(x, OfManager(M.JoinReaders(k))))
  {
    JoinStep(x, k);
    hide Tied, StreamInv, ReadersInv, Joined, Do, CanDo;
    JoinedKeepsReaders(x, Do(x, OfManager(M.JoinReaders(k))), k);
    JoinedKeepsStreams(x, Do(x, OfManager(M.JoinReaders(k))), k);
  }

  // ---- Runs ----

  lemma ManagerKeepsReaders(x: System, me: M.Event)
    requires Sound(x) && CanDo(x, OfManager(me)) && !me.JoinReaders?
    ensures StreamInv(x.(m := M.Step(x.m, me))) && ReadersInv(x.(m := M.Step(x.m, me)))
  {
    match me
    case JournalOpened(k, available) => OpenedKeeps(x, k, available);
    case CancelPrevious(k) => CancelPreviousKeeps(x, k);
    case CancelOld(k) => CancelOldKeeps(x, k);
    case ReaderExits(r) => ReaderExitsKeeps(x, r);
    case _ => LoopsKeep(x, me);
  }

  predicate MovesReaders(me: M.Event) {
    me.JoinReaders? || me.JournalOpened? || me.CancelPrevious? || me.CancelOld? || me.ReaderExits?
  }

  lemma LoopsLeaveReaders(x: System, me: M.Event)
    requires CanDo(x, OfManager(me)) && !MovesReaders(me) && x.m.stop == M.NotStopping
    ensures var m' := M.Step(x.m, me);
            m'.t == x.m.t && m'.readers == x.m.readers && m'.calls == x.m.calls
  {
  }

  lemma LoopsKeep(x: System, me: M.Event)
    requires Sound(x) && CanDo(x, OfManager(me)) && !MovesReaders(me)
    ensures StreamInv(x.(m := M.Step(x.m, me))) && ReadersInv(x.(m := M.Step(x.m, me)))
  {
    LoopsLeaveReaders(x, me);
    ManagersCallsAreOk(x.m);
    hide Tied, StreamInv, ReadersInv, M.Step, M.Enabled, CanDo;
    ReadersMove(x, M.Step(x.m, me));
  }

  lemma DoKeepsReaders(x: System, e: Event)
    requires Sound(x) && CanDo(x, e)
    ensures StreamInv(Do(x, e)) && ReadersInv(Do(x, e))
  {
    hide Tied, StreamInv, ReadersInv, M.Enabled, Enabled;
    match e
    case OfDriver(le) =>
      OthersAreUndisturbed(x, le);
      DriverKeepsReaders(x, Step(x.s, le));
    case Registers(c, a, k) => RegistersKeeps(x, c, a, k);
    case Unregisters(c, a, k) => UnregistersKeeps(x, c, a, k);
    case Opens(c, k) => StartOpens(x, c, k);
    case Launches(c, a, k) =>
      LaunchIsUndisturbed(x, c, a, k);
      DriverKeepsReaders(x, Step(x.s, Advance(c, a)));
    case OfManager(me) =>
      if me.JoinReaders? {
        JoinKeeps(x, me.c);
      } else {
        ManagerKeepsReaders(x, me);
      }
  }

  // StreamLogs' first look finds the unit.
  lemma StartOpens(x: System, c: nat, k: nat)
    requires Sound(x) && CanDo(x, Opens(c, k))
    ensures Do(x, Opens(c, k)).m.calls[k].pc.Opening?
    ensures StreamInv(Do(x, Opens(c, k))) && ReadersInv(Do(x, Opens(c, k)))
  {
    LaunchingIsCurrent(x, c);
    hide Tied, StreamInv, ReadersInv;
    OpensKeeps(x, c, k, M.Step(x.m, M.BeginStream(k, x.s.calls[c].unit)));
  }

  lemma StartIsSound()
    ensures Sound(Start)
  {
    assert OwnInv(Start.s) && RegInv(Start.s);
    assert P.Inv(M.Init) && P.UnitInv(M.Init);
  }

  lemma {:induction false} GoingKeepsSound(x: System, es: seq<Event>, x': System)
    requires Sound(x) && Goes(x, es, x')
    ensures Sound(x')
    decreases |es|
  {
    if es != [] {
      DoKeepsTied(x, es[0]);
      DoKeepsReaders(x, es[0]);
      hide Tied, StreamInv, ReadersInv, Do, CanDo;
      GoingKeepsSound(Do(x, es[0]), es[1..], x');
    }
  }

  /** Handler.Start finds its unit registered, first and last: on every run its StreamLogs call fails only for want
      of a journal, and when it succeeds the task's handler has its reader. */
  lemma StartsAreNotRefused(es: seq<Event>, x: System)
    requires Goes(Start, es, x)
    ensures forall c, k | CanDo(x, Opens(c, k)) :: Do(x, Opens(c, k)).m.calls[k].pc.Opening?
    ensures forall k | M.Enabled(x.m, M.JoinReaders(k)) ::
              M.StartJournalReader(x.m, k).calls[k].pc == M.Displacing(None)
    ensures forall c, a, k | CanDo(x, Launches(c, a, k)) && x.m.calls[k].pc.ok :: x.s.calls[c].h in x.readers
  {
    StartIsSound();
    GoingKeepsSound(Start, es, x);
    hide Sound, Do;
    forall c, k | CanDo(x, Opens(c, k)) ensures Do(x, Opens(c, k)).m.calls[k].pc.Opening? {
      StartOpens(x, c, k);
    }
    forall k | M.Enabled(x.m, M.JoinReaders(k)) ensures M.StartJournalReader(x.m, k).calls[k].pc == M.Displacing(None) {
      NoStartIsRefused(x, k);
    }
    forall c, a, k | CanDo(x, Launches(c, a, k)) && x.m.calls[k].pc.ok ensures x.s.calls[c].h in x.readers {
      LaunchedHasReader(x, c, a, k);
    }
  }

  lemma LaunchedHasReader(x: System, c: nat, a: Answer, k: nat)
    requires Sound(x) && CanDo(x, Launches(c, a, k)) && x.m.calls[k].pc.ok
    ensures x.s.calls[c].h in x.readers
  {
    assert StreamOk(x, k);
  }

  lemma NobodyCancels(x: System, h: nat)
    requires Sound(x) && h in x.readers && ReaderOk(x, h) && Current(x.s.w.handlers[h], x.m.t)
    ensures P.Settled(x.m, x.readers[h])
  {
    var r := x.readers[h];
    ManagersCallsAreOk(x.m);
    assert x.m.stop == M.NotStopping;
    hide Tied;
    assert P.Cancels(x.m, x.s.w.handlers[h].wake.value, r);
    forall k ensures !P.AboutToCancel(x.m, k, r) {
      if k in x.m.calls {
        assert StreamOk(x, k) && P.CallOk(x.m, x.m.calls[k]);
      }
    }
  }

  /** A tracked task whose Handler.Start opened its log has exactly one live reader, the one that Start made: it
      runs, nobody has cancelled it or is about to, and no other reader of the unit is alive - until the task's own
      destroy has unregistered the unit, from when on the unit has none. */
  lemma TasksHaveOneReader(es: seq<Event>, x: System, id: string)
    requires Goes(Start, es, x) && id in x.s.w.tasks
    ensures x.s.w.tasks[id] < |x.s.w.handlers|
    ensures var h := x.s.w.tasks[id];
            var unit := x.s.w.handlers[h].unit;
            if exists c :: UnregisteredBy(x.s, c, id) then
              forall q: nat | P.Settled(x.m, q) :: x.m.readers[q].unit != unit
            else
              h in x.readers ==>
                forall q: nat | q < |x.m.readers| ::
                  P.Settled(x.m, q) && x.m.readers[q].unit == unit <==> q == x.readers[h]
  {
    StartIsSound();
    GoingKeepsSound(Start, es, x);
    P.SettledReadersAreRegistered(x.m);
    assert TrackedOk(x.s.w, id);
    var h := x.s.w.tasks[id];
    var unit := x.s.w.handlers[h].unit;
    if c :| UnregisteredBy(x.s, c, id) {
      UnregisteredUnit(x, c, id);
    } else if h in x.readers {
      TrackedIsCurrent(x, id);
      assert ReaderOk(x, h);
      NobodyCancels(x, h);
      ReadersUnit(x, h);
    }
  }

  lemma UnregisteredUnit(x: System, c: nat, id: string)
    requires Tied(x) && UnregisteredBy(x.s, c, id) && id in x.s.w.tasks
    ensures x.s.w.tasks[id] < |x.s.w.handlers| && x.s.w.handlers[x.s.w.tasks[id]].unit !in x.m.t.units
  {
    assert CallOk(x.s.w, x.s.calls[c]) && RegCallOk(x.s.w, x.s.calls[c]);
  }

  lemma TrackedIsCurrent(x: System, id: string)
    requires Tied(x) && id in x.s.w.tasks && forall c :: !UnregisteredBy(x.s, c, id)
    ensures x.s.w.tasks[id] < |x.s.w.handlers| && Current(x.s.w.handlers[x.s.w.tasks[id]], x.m.t)
  {
    assert TrackedOk(x.s.w, id) && TrackedReg(x.s.w, id);
  }

  lemma ReadersUnit(x: System, h: nat)
    requires Tied(x) && h in x.readers && ReaderOk(x, h) && Current(x.s.w.handlers[h], x.m.t)
    ensures x.m.readers[x.readers[h]].unit == x.s.w.handlers[h].unit
    ensures P.Cancels(x.m, x.m.t.units[x.s.w.handlers[h].unit], x.readers[h])
  {
    assert P.StopsOwnReader(x.m.t, x.m.readers, x.s.w.handlers[h].unit);
  }
}
