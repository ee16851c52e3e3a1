/** The Manager's methods in program order (pkg/systemd/systemd.go, journal.go and unit.go). Between any two
    critical sections, waits and cancellations Interfere lets every other call, loop and reader run as it
    likes; whatever they do, each method's run is a run of the machine in Managers. */
module ManagerObjects {
  import opened Options
  import opened UnitTables
  import opened Backoff
  import opened Managers
  import opened ManagerProofs
  import opened ManagerEnds
  import opened Schedules

  ghost predicate Reaches(s: State, s': State) {
    exists es :: Path(s, es, s')
  }

  lemma {:induction false} PathsCompose(s: State, es: seq<Event>, mid: State, fs: seq<Event>, s': State)
    requires Path(s, es, mid) && Path(mid, fs, s')
    ensures Path(s, es + fs, s')
    decreases |es|
  {
    hide Step, Enabled;
    if es == [] {
      assert es + fs == fs;
    } else {
      PathsCompose(Step(s, es[0]), es[1..], mid, fs, s');
      assert (es + fs)[1..] == es[1..] + fs;
    }
  }

  lemma ReachesOn(s: State, mid: State, s': State)
    requires Reaches(s, mid) && Reaches(mid, s')
    ensures Reaches(s, s')
  {
    var es :| Path(s, es, mid);
    var fs :| Path(mid, fs, s');
    PathsCompose(s, es, mid, fs, s');
  }

  lemma OneStep(s: State, e: Event)
    requires Inv(s) && Enabled(s, e)
    ensures Inv(Step(s, e)) && Reaches(s, Step(s, e))
  {
    StepKeepsInv(s, e);
    hide Inv, Step, Enabled;
    assert Path(Step(s, e), [], Step(s, e));
    assert [e][1..] == [];
    assert Path(s, [e], Step(s, e));
  }

  // Whose program counter must not move while others run.
  datatype Me = Caller(c: nat) | Looper | Stopper

  predicate Mine(e: Event, me: Me) {
    match me
    case Caller(c) =>
      (e.BeginStream? || e.BeginRetire? || e.JournalOpened? || e.JoinReaders? || e.CancelPrevious? || e.ReplaceEntry?
          || e.CancelOld?)
      && e.c == c
    case Looper => TouchesConn(e) && !e.CloseConn?
    case Stopper => e in {BeginStop, LoopsJoined, CancelNext, ReadersJoined, CloseConn} || e.Seal?
  }

  predicate Joined(readers: seq<Reader>, r: nat) {
    r < |readers| && (readers[r].status.Running? || readers[r].status.Done?)
  }

  predicate GivenUp(readers: seq<Reader>, r: nat) {
    r < |readers| && readers[r].status.Abandoned? && readers[r].cancelled
  }

  predicate Cancelled(readers: seq<Reader>, r: nat) {
    r < |readers| && readers[r].cancelled
  }

  // What never comes back: readers forgotten, uncancelled or not joined any more; a manager unsealed.
  ghost predicate Onward(s: State, s': State) {
    && |s.readers| <= |s'.readers|
    && (forall r | Joined(s.readers, r) :: Joined(s'.readers, r))
    && (forall r | Cancelled(s.readers, r) :: Cancelled(s'.readers, r))
    && (s.stopping ==> s'.stopping)
    && (s.ctxDone ==> s'.ctxDone)
  }

  // What me finds again after others have run.
  ghost predicate StillThere(s: State, s': State, me: Me) {
    match me
    case Caller(c) =>
      && c in s.calls && c in s'.calls && s'.calls[c] == s.calls[c]
      && (DisplacedEntry(s, c).Some? ==> DisplacedEntry(s', c) == DisplacedEntry(s, c))
    case Looper =>
      && s'.loop == s.loop && s'.conn == s.conn && s'.backoff == s.backoff && s'.failures == s.failures
      && |s'.closes| == |s.closes|
    case Stopper =>
      s'.stop == s.stop && (s.loop == LoopExited ==> s'.loop == LoopExited) && (!s.dispatching ==> !s'.dispatching)
  }

  // The reader of the entry that call c has taken out of the table.
  function DisplacedEntry(s: State, c: nat): Option<Option<nat>> {
    if RetireAt(s, c) && s.calls[c].rpc.CancellingOld? && s.calls[c].rpc.o.Some?
        && s.calls[c].rpc.o.value < |s.t.cancelJournal|
    then Some(s.t.cancelJournal[s.calls[c].rpc.o.value]) else None
  }

  lemma OthersStep(s: State, e: Event, me: Me)
    requires ReaderInv(s) && Enabled(s, e) && !Mine(e, me) && (me.Caller? ==> me.c in s.calls)
    ensures StillThere(s, Step(s, e), me)
  {
    if me.Caller? {
      assert CallOk(s, s.calls[me.c]);
      hide ReaderInv;
      OthersStepAroundCall(s, e, me.c);
    } else {
      hide ReaderInv;
      OthersStepAroundLoops(s, e, me);
    }
  }

  lemma OthersStepAroundLoops(s: State, e: Event, me: Me)
    requires Enabled(s, e) && !Mine(e, me) && !me.Caller?
    ensures StillThere(s, Step(s, e), me)
  {
    hide Doubled, WithCancelled;
  }

  // Once out of the table, an entry's reader is settled.
  lemma OthersStepAroundCall(s: State, e: Event, c: nat)
    requires Enabled(s, e) && !Mine(e, Caller(c)) && c in s.calls && CallOk(s, s.calls[c])
    ensures StillThere(s, Step(s, e), Caller(c))
  {
    hide Doubled, WithCancelled;
  }

  lemma StepIsOnward(s: State, e: Event)
    requires ReaderInv(s) && Enabled(s, e)
    ensures Onward(s, Step(s, e))
  {
    if e.JoinReaders? {
      assert CallOk(s, s.calls[e.c]);
    }
    hide ReaderInv;
    OnwardUnlessRejoined(s, e);
  }

  lemma OnwardUnlessRejoined(s: State, e: Event)
    requires Enabled(s, e) && (e.JoinReaders? ==> CallOk(s, s.calls[e.c]))
    ensures Onward(s, Step(s, e))
  {
    hide Doubled;
  }

  // A sound state that the machine can get to from s.
  ghost predicate After(s: State, s': State) {
    Inv(s') && Reaches(s, s') && Onward(s, s')
  }

  lemma Section(s: State, e: Event)
    requires Inv(s) && Enabled(s, e)
    ensures After(s, Step(s, e))
  {
    OneStep(s, e);
    StepIsOnward(s, e);
  }

  lemma Then(s: State, mid: State, s': State)
    requires After(s, mid) && After(mid, s')
    ensures After(s, s')
  {
    ReachesOn(s, mid, s');
    hide Reaches, Inv;
  }

  lemma Still(s: State)
    requires Inv(s)
    ensures After(s, s)
  {
    assert Path(s, [], s);
  }

  // The reader that unit's entry can cancel.
  function ReaderOf(s: State, unit: string): Option<nat> {
    var o := s.t.Lookup(unit);
    if o.Some? && o.value < |s.t.cancelJournal| then s.t.cancelJournal[o.value] else None
  }

  function Displaced(s: State, c: nat, unit: string, registering: bool): State {
    WithCall(s.(t := if registering then Register(s.t, unit) else Unregister(s.t, unit)),
             c, Retire(unit, registering, CancellingOld(s.t.Lookup(unit))))
  }

  lemma SealSection(s: State, order: seq<nat>)
    requires Inv(s) && s.stop == Sealing && Collected(s, order)
    ensures After(s, s.(stopping := true, t := Emptied(s.t), stop := CancellingReaders(order)))
    ensures forall u | u in s.t.units :: forall p | ReaderOf(s, u) == Some(p) :: p in order
  {
    Section(s, Seal(order));
    hide Inv, After;
  }

  // Entering RegisterUnit or UnregisterUnit and replacing the entry, in one go.
  lemma RetireSection(s: State, c: nat, unit: string, registering: bool)
    requires Inv(s) && c !in s.calls
    ensures After(s, Displaced(s, c, unit, registering))
  {
    var begin := BeginRetire(c, unit, registering);
    RetireSteps(s, c, unit, registering);
    hide Inv, Step, Enabled, Displaced;
    Section(s, begin);
    Section(Step(s, begin), ReplaceEntry(c));
    Then(s, Step(s, begin), Displaced(s, c, unit, registering));
  }

  lemma RetireSteps(s: State, c: nat, unit: string, registering: bool)
    requires c !in s.calls
    ensures var begin := BeginRetire(c, unit, registering);
            Enabled(s, begin) && Enabled(Step(s, begin), ReplaceEntry(c)) &&
            Step(Step(s, begin), ReplaceEntry(c)) == Displaced(s, c, unit, registering)
  {
    var begun := Step(s, BeginRetire(c, unit, registering));
    assert Step(begun, ReplaceEntry(c)).calls == Displaced(s, c, unit, registering).calls;
  }

  // The displaced entry keeps its reader.
  lemma DisplacedKeepsReader(s: State, c: nat, unit: string, registering: bool)
    requires ReaderOf(s, unit).Some?
    ensures DisplacedEntry(Displaced(s, c, unit, registering), c) == Some(ReaderOf(s, unit))
  {
  }

  // One firing of the reconnect loop's timer, or its cancelled context if cut.
  datatype Round = Round(cut: bool, healthy: bool, up: bool, env: seq<seq<Event>>)

  // How many of the first k rounds, counted back from the k-th, left no connection.
  function StreakAt(rounds: seq<Round>, k: nat): nat
    requires k <= |rounds|
  {
    Streak(seq(k, i requires 0 <= i < k => rounds[i].healthy || rounds[i].up))
  }

  lemma StreakGoesOn(rounds: seq<Round>, k: nat)
    requires k <= |rounds|
    ensures StreakAt(rounds, 0) == 0
    ensures k < |rounds| ==>
              StreakAt(rounds, k + 1) == if rounds[k].healthy || rounds[k].up then 0 else StreakAt(rounds, k) + 1
  {
    if k < |rounds| {
      var next := seq(k + 1, i requires 0 <= i < k + 1 => rounds[i].healthy || rounds[i].up);
      assert next[..k] == seq(k, i requires 0 <= i < k => rounds[i].healthy || rounds[i].up);
    }
  }

  // How many of the first k rounds found no connection and dialled one.
  function Redials(rounds: seq<Round>, k: nat): nat
    requires k <= |rounds|
  {
    if k == 0 then 0 else Redials(rounds, k - 1) + if !rounds[k - 1].healthy && rounds[k - 1].up then 1 else 0
  }

  // The reconnect delay after k failures in a row.
  function Capped(k: nat): int {
    Min(RECONNECT_INTERVAL * Pow2(k), RECONNECT_BACKOFF_MAX)
  }

  lemma BackoffIsCapped(s: State)
    requires Inv(s)
    ensures s.backoff == Capped(s.failures)
    ensures s.failures == 0 ==> s.backoff == RECONNECT_INTERVAL
  {
    DelayIsCappedDoubling(RECONNECT_INTERVAL, RECONNECT_BACKOFF_MAX, s.failures);
  }

  // What happens while Stop waits, in the order of its waits, and what the loops are told meanwhile.
  datatype Waits = Waits(
    loops: seq<seq<Event>>, answers: seq<Answer>, sealing: seq<Event>, cancels: seq<seq<Event>>,
    readers: seq<seq<Event>>, closing: seq<Event>)

  datatype Answer = Answer(healthy: bool, up: bool)

  lemma NobodyRuns(s: State)
    requires Inv(s) && s.journalWg == 0
    ensures forall r | 0 <= r < |s.readers| :: !s.readers[r].status.Running?
  {
    forall r | 0 <= r < |s.readers| ensures !s.readers[r].status.Running? {
      NoneRunning(s.readers, r);
    }
  }

  class Manager {
    var units: map<string, nat>
    var cancelJournal: seq<Option<nat>>
    var stopping: bool
    var journalWg: nat
    var conn: nat
    var ctxDone: bool
    // The readers and goroutines it has started, the calls in flight and the connections it has dialled.
    var readers: seq<Reader>
    var dispatching: bool
    var loop: LoopPc
    var backoff: int
    var failures: nat
    var closes: seq<nat>
    var calls: map<nat, Call>
    var stop: StopPc

    function View(): State
      reads this
    {
      State(UnitTable(units, cancelJournal), stopping, journalWg, readers, ctxDone, dispatching,
            loop, backoff, failures, conn, closes, calls, stop)
    }

    ghost predicate Valid()
      reads this
    {
      Inv(View())
    }

    constructor ()
      ensures Valid() && View() == Init
    {
      units, cancelJournal, stopping, journalWg, readers, ctxDone, dispatching := map[], [], false, 0, [], false, true;
      loop, backoff, failures, conn, closes, calls, stop := Sleeping, RECONNECT_INTERVAL, 0, 0, [0], map[], NotStopping;
    }

    method Become(s: State)
      modifies this
      ensures View() == s
    {
      units, cancelJournal, stopping, journalWg, readers, ctxDone :=
          s.t.units, s.t.cancelJournal, s.stopping, s.journalWg, s.readers, s.ctxDone;
      BecomeConnected(s);
    }

    method BecomeConnected(s: State)
      modifies this`dispatching, this`loop, this`backoff, this`failures, this`conn, this`closes, this`calls, this`stop
      ensures dispatching == s.dispatching && loop == s.loop && backoff == s.backoff && failures == s.failures
      ensures conn == s.conn && closes == s.closes && calls == s.calls && stop == s.stop
    {
      dispatching, loop, backoff, failures := s.dispatching, s.loop, s.backoff, s.failures;
      conn, closes, calls, stop := s.conn, s.closes, s.calls, s.stop;
    }

    // Everything but me, in the order of schedule es. What cannot happen does not.
    method Interfere(me: Me, es: seq<Event>)
      requires Valid() && (me.Caller? ==> me.c in calls)
      modifies this
      ensures After(old(View()), View()) && StillThere(old(View()), View(), me)
      ensures es == [] ==> View() == old(View())
    {
      ghost var s0 := View();
      Still(s0);
      for i := 0 to |es|
        invariant After(s0, View()) && StillThere(s0, View(), me)
        invariant i == 0 ==> View() == s0
      {
        var s, e := View(), es[i];
        if !Mine(e, me) && Enabled(s, e) {
          Section(s, e);
          OthersStep(s, e, me);
          hide Inv, Step, Enabled, Reaches, Onward;
          Then(s0, s, Step(s, e));
          Become(Step(s, e));
        }
      }
    }

    method At(c: nat, call: Call)
      modifies this`calls
      ensures calls == old(calls)[c := call]
    {
      calls := calls[c := call];
    }

    /** StreamLogs as call c. It succeeds only for a unit registered when it looked, on a manager not yet
        sealed, and then its reader is counted; a reader it made and could not register is abandoned. */
    method StreamLogs(c: nat, unit: string, available: bool, env: seq<seq<Event>>) returns (ok: bool, reader: nat)
      requires Valid() && c !in calls && |env| == 3
      modifies this
      ensures After(old(View()), View())
      ensures c in calls && calls[c] == Stream(unit, Streamed(ok))
      ensures ok ==> unit in old(units) && available && !old(stopping)
      ensures env[0] == [] && env[1] == [] ==> (ok <==> unit in old(units) && available && !old(stopping))
      ensures ok ==> |old(readers)| <= reader && Joined(readers, reader)
      ensures !ok && |old(readers)| <= reader < |readers| ==> GivenUp(readers, reader)
    {
      ghost var s0 := View();
      reader := |readers|;
      hide Inv, Reaches, Step, Enabled;
      ok := LookUp(c, unit);
      if ok {
        ghost var s1 := View();
        Interfere(Caller(c), env[0]);
        Then(s0, s1, View());
        s1 := View();
        ok, reader := OpenAndJoin(c, available, env[1..]);
        Then(s0, s1, View());
      }
    }

    // The first look at the table.
    method LookUp(c: nat, unit: string) returns (registered: bool)
      requires Valid() && c !in calls
      modifies this`calls
      ensures After(old(View()), View())
      ensures registered <==> unit in units
      ensures c in calls && calls[c] == Stream(unit, if registered then Opening else Streamed(false))
    {
      Section(View(), BeginStream(c, unit));
      registered := unit in units;
      At(c, Stream(unit, if registered then Opening else Streamed(false)));
    }

    // The rest of StreamLogs: open the journal, make the reader's context, register the reader.
    method OpenAndJoin(c: nat, available: bool, env: seq<seq<Event>>) returns (ok: bool, reader: nat)
      requires Valid() && StreamAt(View(), c) && calls[c].pc.Opening? && |env| == 2
      modifies this
      ensures After(old(View()), View())
      ensures c in calls && calls[c] == Stream(old(calls[c]).unit, Streamed(ok))
      ensures ok ==> available && !old(stopping) && Joined(readers, reader)
      ensures |old(readers)| <= reader
      ensures env[0] == [] ==> (ok <==> available && !old(stopping) && old(calls[c]).unit in old(units))
      ensures !ok && |old(readers)| <= reader < |readers| ==> GivenUp(readers, reader)
    {
      ghost var s0 := View();
      var unit := calls[c].unit;
      reader := |readers|;
      Section(s0, JournalOpened(c, available));
      if !available {
        At(c, Stream(unit, Streamed(false)));
        return false, reader;
      }
      readers := readers + [Reader(Made, false, unit)];
      At(c, Stream(unit, Joining(reader)));
      ghost var s1 := View();
      assert s1 == Step(s0, JournalOpened(c, available));
      hide Inv, Reaches, Step, Enabled;
      Interfere(Caller(c), env[0]);
      Then(s0, s1, View());
      s1 := View();
      ok := StartJournalReader(c, env[1]);
      Then(s0, s1, View());
    }

    /** startJournalReader: the reader joins exactly when the unit is registered and the manager not sealed
        at that moment, and then the reader it displaces, if any, is cancelled. */
    method StartJournalReader(c: nat, env: seq<Event>) returns (ok: bool)
      requires Valid() && StreamAt(View(), c) && calls[c].pc.Joining?
      modifies this
      ensures After(old(View()), View())
      ensures c in calls && calls[c] == Stream(old(calls[c]).unit, Streamed(ok))
      ensures ok <==> !old(stopping) && old(calls[c]).unit in old(units)
      ensures ok ==> Joined(readers, old(calls[c]).pc.r)
      ensures !ok ==> GivenUp(readers, old(calls[c]).pc.r)
      ensures ok ==> forall p | ReaderOf(old(View()), old(calls[c]).unit) == Some(p) :: Cancelled(readers, p)
    {
      ghost var s0 := View();
      ok := Join(c);
      if ok {
        ghost var s1 := View();
        hide Inv, Reaches, Step, Enabled;
        Interfere(Caller(c), env);
        Then(s0, s1, View());
        s1 := View();
        CancelPreviousReader(c);
        Then(s0, s1, View());
      }
    }

    // Its critical section.
    method Join(c: nat) returns (ok: bool)
      requires Valid() && StreamAt(View(), c) && calls[c].pc.Joining?
      modifies this
      ensures After(old(View()), View())
      ensures ok <==> !old(stopping) && old(calls[c]).unit in old(units)
      ensures old(calls[c]).pc.r < |readers|
      ensures if ok then readers[old(calls[c]).pc.r].status.Running? else GivenUp(readers, old(calls[c]).pc.r)
      ensures c in calls && calls[c].Stream? && calls[c].unit == old(calls[c]).unit
      ensures calls[c].pc == if ok then Displacing(ReaderOf(old(View()), old(calls[c]).unit)) else Streamed(false)
    {
      ghost var s0 := View();
      assert CallOk(s0, s0.calls[c]) && s0.t.Valid();
      Section(s0, JoinReaders(c));
      hide Inv, After;
      ok := EnterTable(c);
    }

    method EnterTable(c: nat) returns (ok: bool)
      requires Enabled(View(), JoinReaders(c)) && View().t.Valid()
      modifies this`cancelJournal, this`journalWg, this`readers, this`calls
      ensures View() == Managers.StartJournalReader(old(View()), c)
      ensures ok <==> !stopping && old(calls[c]).unit in old(units)
    {
      var unit, r := calls[c].unit, calls[c].pc.r;
      if stopping || unit !in units {
        readers := readers[r := readers[r].(status := Abandoned, cancelled := true)];
        At(c, Stream(unit, Streamed(false)));
        return false;
      }
      var previous := cancelJournal[units[unit]];
      cancelJournal := cancelJournal[units[unit] := Some(r)];
      journalWg := journalWg + 1;
      readers := readers[r := readers[r].(status := Running)];
      At(c, Stream(unit, Displacing(previous)));
      return true;
    }

    method CancelPreviousReader(c: nat)
      requires Valid() && StreamAt(View(), c) && calls[c].pc.Displacing?
      modifies this
      ensures After(old(View()), View())
      ensures c in calls && calls[c] == Stream(old(calls[c]).unit, Streamed(true))
      ensures old(calls[c]).pc.previous.Some? ==> Cancelled(readers, old(calls[c]).pc.previous.value)
    {
      ghost var s := View();
      var previous := calls[c].pc.previous;
      assert CallOk(s, s.calls[c]);
      Section(s, CancelPrevious(c));
      if previous.Some? {
        readers := readers[previous.value := readers[previous.value].(cancelled := true)];
      }
      At(c, calls[c].(pc := Streamed(true)));
    }

    /** RegisterUnit as call c: the entry it displaces has its reader cancelled by the time it returns,
        however readers come and go meanwhile. */
    method RegisterUnit(c: nat, unit: string, env: seq<Event>)
      requires Valid() && c !in calls
      modifies this
      ensures After(old(View()), View())
      ensures c in calls && calls[c] == Retire(unit, true, Retired)
      ensures forall p | ReaderOf(old(View()), unit) == Some(p) :: Cancelled(readers, p)
      ensures env == [] ==>
                units == old(units)[unit := |old(cancelJournal)|] && cancelJournal == old(cancelJournal) + [None]
    {
      ghost var s0 := View();
      RetireSection(s0, c, unit, true);
      hide Inv, Reaches;
      PutEntry(c, unit);
      ghost var s1 := View();
      CancelDisplaced(c, env);
      Then(s0, s1, View());
      if ReaderOf(s0, unit).Some? {
        DisplacedKeepsReader(s0, c, unit, true);
      }
    }

    method PutEntry(c: nat, unit: string)
      modifies this`units, this`cancelJournal, this`calls
      ensures View() == Displaced(old(View()), c, unit, true)
      ensures units == old(units)[unit := |old(cancelJournal)|] && cancelJournal == old(cancelJournal) + [None]
      ensures ReaderOf(View(), unit) == None
    {
      var previous := if unit in units then Some(units[unit]) else None;
      units := units[unit := |cancelJournal|];
      cancelJournal := cancelJournal + [None];
      At(c, Retire(unit, true, CancellingOld(previous)));
    }

    /** UnregisterUnit as call c. */
    method UnregisterUnit(c: nat, unit: string, env: seq<Event>)
      requires Valid() && c !in calls
      modifies this
      ensures After(old(View()), View())
      ensures c in calls && calls[c] == Retire(unit, false, Retired)
      ensures forall p | ReaderOf(old(View()), unit) == Some(p) :: Cancelled(readers, p)
      ensures env == [] ==> units == old(units) - {unit} && cancelJournal == old(cancelJournal)
    {
      ghost var s0 := View();
      RetireSection(s0, c, unit, false);
      hide Inv, Reaches;
      RemoveEntry(c, unit);
      ghost var s1 := View();
      CancelDisplaced(c, env);
      Then(s0, s1, View());
      if ReaderOf(s0, unit).Some? {
        DisplacedKeepsReader(s0, c, unit, false);
      }
    }

    method RemoveEntry(c: nat, unit: string)
      modifies this`units, this`calls
      ensures View() == Displaced(old(View()), c, unit, false)
      ensures units == old(units) - {unit}
    {
      var st := if unit in units then Some(units[unit]) else None;
      units := units - {unit};
      At(c, Retire(unit, false, CancellingOld(st)));
    }

    // Outside the lock: the displaced entry's reader is looked up and cancelled.
    method CancelDisplaced(c: nat, env: seq<Event>)
      requires Valid() && RetireAt(View(), c) && calls[c].rpc.CancellingOld?
      modifies this
      ensures After(old(View()), View())
      ensures c in calls && calls[c] == old(calls[c]).(rpc := Retired)
      ensures forall p | DisplacedEntry(old(View()), c) == Some(Some(p)) :: Cancelled(readers, p)
      ensures env == [] ==> units == old(units) && cancelJournal == old(cancelJournal)
    {
      ghost var s0 := View();
      Interfere(Caller(c), env);
      ghost var s1 := View();
      CancelEntry(c);
      hide Inv, Reaches, Step, Enabled;
      Then(s0, s1, View());
    }

    method CancelEntry(c: nat)
      requires Valid() && RetireAt(View(), c) && calls[c].rpc.CancellingOld?
      modifies this`readers, this`calls
      ensures After(old(View()), View())
      ensures c in calls && calls[c] == old(calls[c]).(rpc := Retired)
      ensures forall p | DisplacedEntry(old(View()), c) == Some(Some(p)) :: Cancelled(readers, p)
    {
      ghost var s := View();
      assert CallOk(s, s.calls[c]);
      Section(s, CancelOld(c));
      var o := calls[c].rpc.o;
      if o.Some? && cancelJournal[o.value].Some? {
        var r := cancelJournal[o.value].value;
        assert r < |readers|;
        readers := readers[r := readers[r].(cancelled := true)];
      }
      At(c, calls[c].(rpc := Retired));
      assert View() == Step(s, CancelOld(c));
    }

    /** setConn swaps first and closes the replaced connection after: never is a closed one current. */
    method SetConn(env: seq<Event>)
      requires Valid() && loop.Adopting?
      modifies this
      ensures After(old(View()), View())
      ensures loop == Refreshing && conn == old(loop).dialed && old(conn) != conn
      ensures conn < |closes| && closes[conn] == 0 && old(conn) < |closes| && closes[old(conn)] == 1
      ensures |closes| == |old(closes)|
    {
      ghost var s0 := View();
      Section(s0, SwapConn);
      var replaced := conn;
      conn := loop.dialed;
      loop := ClosingOld(replaced);
      ghost var s1 := View();
      assert s1 == Step(s0, SwapConn);
      Interfere(Looper, env);
      Then(s0, s1, View());
      s1 := View();
      CloseReplaced();
      Then(s0, s1, View());
    }

    method CloseReplaced()
      requires Valid() && loop.ClosingOld?
      modifies this`closes, this`loop
      ensures After(old(View()), View()) && loop == Refreshing
      ensures |closes| == |old(closes)|
      ensures old(loop).replaced < |closes| && closes[old(loop).replaced] == 1 && closes[conn] == 0
    {
      ghost var s := View();
      Section(s, CloseOld);
      var replaced := loop.replaced;
      closes := closes[replaced := closes[replaced] + 1];
      loop := Refreshing;
    }

    /** tryReconnect: it fails without touching anything, or the connection it dialled is current and open
        and the one before it closed. */
    method TryReconnect(up: bool, env: seq<seq<Event>>) returns (ok: bool)
      requires Valid() && loop == Dialing && |env| == 2
      modifies this
      ensures After(old(View()), View()) && ok == up
      ensures !ok ==> View() == old(View())
      ensures ok ==> loop == Refreshing && conn == |old(closes)| && old(conn) < |closes| && closes[old(conn)] == 1
      ensures ok ==> conn < |closes| && closes[conn] == 0 && |closes| == |old(closes)| + 1
    {
      ghost var s0 := View();
      if !up {
        Still(s0);
        return false;
      }
      Section(s0, Dialed(true));
      closes, loop := closes + [0], Adopting(|closes|);
      ghost var s1 := View();
      assert s1 == Step(s0, Dialed(true));
      hide Inv, Reaches, Step, Enabled;
      Interfere(Looper, env[0]);
      Then(s0, s1, View());
      s1 := View();
      SetConn(env[1]);
      Then(s0, s1, View());
      ok := true;
    }

    /** One round: a health check, and a reconnect if it fails. A healthy connection is left alone. */
    method CheckAndReconnect(round: Round)
      requires Valid() && loop == Checking && |round.env| == 5
      modifies this
      ensures After(old(View()), View()) && loop == Sleeping
      ensures failures == if round.healthy || round.up then 0 else old(failures) + 1
      ensures if !round.healthy && round.up then conn == |old(closes)| && |closes| == conn + 1
              else conn == old(conn) && |closes| == |old(closes)|
    {
      ghost var s0 := View();
      hide Inv, Reaches, Step, Enabled;
      Interfere(Looper, round.env[0]);
      ghost var s1 := View();
      Check(round.(env := round.env[1..]));
      Then(s0, s1, View());
    }

    method Check(round: Round)
      requires Valid() && loop == Checking && |round.env| == 4
      modifies this
      ensures After(old(View()), View()) && loop == Sleeping
      ensures failures == if round.healthy || round.up then 0 else old(failures) + 1
      ensures if !round.healthy && round.up then conn == |old(closes)| && |closes| == conn + 1
              else conn == old(conn) && |closes| == |old(closes)|
    {
      ghost var s0 := View();
      Section(s0, Checked(round.healthy));
      if round.healthy {
        loop, backoff, failures := Sleeping, RECONNECT_INTERVAL, 0;
        return;
      }
      loop := Dialing;
      ghost var s1 := View();
      assert s1 == Step(s0, Checked(round.healthy));
      hide Inv, Reaches, Step, Enabled;
      Interfere(Looper, round.env[0]);
      Then(s0, s1, View());
      s1 := View();
      Reconnect(round);
      Then(s0, s1, View());
    }

    method Reconnect(round: Round)
      requires Valid() && loop == Dialing && |round.env| == 4
      modifies this
      ensures After(old(View()), View()) && loop == Sleeping
      ensures failures == if round.up then 0 else old(failures) + 1
      ensures if round.up then conn == |old(closes)| && |closes| == conn + 1
              else conn == old(conn) && |closes| == |old(closes)|
    {
      ghost var s0 := View();
      hide Inv, Reaches, Step, Enabled;
      var ok := TryReconnect(round.up, round.env[1..3]);
      ghost var s1 := View();
      Interfere(Looper, round.env[3]);
      Then(s0, s1, View());
      s1 := View();
      SetBackoff(ok);
      Then(s0, s1, View());
    }

    method SetBackoff(ok: bool)
      requires Valid() && loop == if ok then Refreshing else Dialing
      modifies this`loop, this`backoff, this`failures
      ensures After(old(View()), View()) && loop == Sleeping
      ensures failures == if ok then 0 else old(failures) + 1
    {
      ghost var s := View();
      Section(s, if ok then Refreshed else Dialed(false));
      hide Inv, After;
      if ok {
        loop, backoff, failures := Sleeping, RECONNECT_INTERVAL, 0;
        assert View() == Step(s, Refreshed);
      } else {
        loop, backoff, failures := Sleeping, Doubled(backoff, RECONNECT_BACKOFF_MAX), failures + 1;
        assert View() == Step(s, Dialed(false));
      }
    }

    /** reconnectLoop over any rounds: it ends only for a cancelled context, the delays its timer is set to are the
        capped doublings of the failures in a row, and it dials exactly when it finds no connection. */
    method ReconnectLoop(rounds: seq<Round>) returns (delays: seq<int>)
      requires Valid() && loop == Sleeping && failures == 0 && forall i | 0 <= i < |rounds| :: |rounds[i].env| == 6
      modifies this
      ensures After(old(View()), View())
      ensures if loop == LoopExited then ctxDone && |delays| <= |rounds|
                else loop == Sleeping && |delays| == |rounds| + 1
      ensures old(ctxDone) && loop == Sleeping ==> forall i | 0 <= i < |rounds| :: !rounds[i].cut
      ensures forall i | 0 <= i < |delays| :: delays[i] == Capped(StreakAt(rounds, i))
      ensures 0 < |delays| && |closes| == |old(closes)| + Redials(rounds, |delays| - 1)
      ensures conn == if Redials(rounds, |delays| - 1) == 0 then old(conn) else |closes| - 1
    {
      ghost var s0 := View();
      hide Inv, After, Capped, StreakAt;
      ResetBackoff();
      StreakGoesOn(rounds, 0);
      delays := [backoff];
      for i := 0 to |rounds|
        invariant After(s0, View()) && Valid() && loop == Sleeping && |delays| == i + 1
        invariant s0.ctxDone ==> ctxDone && forall j | 0 <= j < i :: !rounds[j].cut
        invariant failures == StreakAt(rounds, i)
        invariant |closes| == |s0.closes| + Redials(rounds, i)
        invariant conn == if Redials(rounds, i) == 0 then s0.conn else |closes| - 1
        invariant forall j | 0 <= j <= i :: delays[j] == Capped(StreakAt(rounds, j))
      {
        ghost var s1 := View();
        RunRound(rounds[i]);
        Then(s0, s1, View());
        if loop == LoopExited {
          return;
        }
        StreakGoesOn(rounds, i);
        delays := delays + [backoff];
      }
    }

    method ResetBackoff()
      requires Valid() && failures == 0
      modifies this`backoff
      ensures View() == old(View()) && After(old(View()), View()) && backoff == Capped(0)
    {
      Still(View());
      BackoffIsCapped(View());
      backoff := RECONNECT_INTERVAL;
    }

    method RunRound(round: Round)
      requires Valid() && loop == Sleeping && |round.env| == 6
      modifies this
      ensures After(old(View()), View()) && Valid()
      ensures (loop == LoopExited && ctxDone) || loop == Sleeping
      ensures old(ctxDone) ==> ctxDone && (round.cut ==> loop == LoopExited)
      ensures loop == Sleeping ==> failures == if round.healthy || round.up then 0 else old(failures) + 1
      ensures loop == Sleeping ==> backoff == Capped(failures)
      ensures if loop == Sleeping && !round.healthy && round.up then conn == |old(closes)| && |closes| == conn + 1
              else conn == old(conn) && |closes| == |old(closes)|
    {
      ghost var s0 := View();
      hide Inv, Reaches, Capped;
      var go := AwaitTimer(round.cut, round.env[0]);
      if go {
        ghost var s1 := View();
        CheckAndReconnect(round.(env := round.env[1..]));
        Then(s0, s1, View());
        BackoffIsCapped(View());
      }
    }

    // The loop's select.
    method AwaitTimer(cut: bool, env: seq<Event>) returns (go: bool)
      requires Valid() && loop == Sleeping
      modifies this
      ensures After(old(View()), View()) && failures == old(failures)
      ensures conn == old(conn) && |closes| == |old(closes)|
      ensures if go then loop == Checking else loop == LoopExited && ctxDone
      ensures go <==> !(cut && ctxDone)
      ensures old(ctxDone) ==> ctxDone
    {
      ghost var s0 := View();
      Interfere(Looper, env);
      ghost var s1 := View();
      if ctxDone && cut {
        Section(s1, LoopExits);
        loop := LoopExited;
        go := false;
      } else {
        Section(s1, LoopTick);
        loop := Checking;
        go := true;
      }
      Then(s0, s1, View());
    }

    /** Stop. Whatever runs during its waits, it returns, with every loop and every reader gone and every
        connection ever dialled closed once. */
    method Stop(waits: Waits)
      requires Valid() && stop == NotStopping
      modifies this
      ensures After(old(View()), View())
      ensures ctxDone && stop == Stopped && stopping && loop == LoopExited && !dispatching && journalWg == 0
      ensures forall i | 0 <= i < |closes| :: closes[i] == 1
      ensures forall r | 0 <= r < |readers| :: !readers[r].status.Running?
    {
      ghost var s0 := View();
      Section(s0, BeginStop);
      ctxDone, stop := true, AwaitingLoops;
      ghost var s1 := View();
      assert s1 == Step(s0, BeginStop);
      hide Inv, Reaches, Step, Enabled;
      AwaitLoops(waits.loops, waits.answers);
      Then(s0, s1, View());
      s1 := View();
      StopAfterLoops(waits);
      Then(s0, s1, View());
      NobodyRuns(View());
    }

    /** wg.Wait in Stop. Others run for as long as env has something for them; after each slice one of the two
        loops goes on, and the waiting is over when both have left. */
    method AwaitLoops(env: seq<seq<Event>>, answers: seq<Answer>)
      requires Valid() && stop == AwaitingLoops
      modifies this
      ensures After(old(View()), View()) && stop == AwaitingLoops && loop == LoopExited && !dispatching
    {
      ghost var s0 := View();
      Still(s0);
      hide Inv, Reaches, Step, Enabled;
      var i := 0;
      while loop != LoopExited || dispatching
        invariant After(s0, View()) && stop == AwaitingLoops
        decreases if i < |env| then |env| - i else 0, LoopLeft(loop) + Dispatchers(View())
      {
        ghost var s1 := View();
        Interfere(Stopper, Scheduled(env, i));
        Then(s0, s1, View());
        if loop != LoopExited || dispatching {
          s1 := View();
          LoopGoesOn(if i < |answers| then answers[i] else Answer(false, false));
          Then(s0, s1, View());
        }
        i := i + 1;
      }
    }

    // The dispatch loop's or the reconnect loop's next step.
    method LoopGoesOn(answer: Answer)
      requires Valid() && stop == AwaitingLoops && (dispatching || loop != LoopExited)
      modifies this
      ensures After(old(View()), View()) && stop == AwaitingLoops
      ensures LoopLeft(loop) + Dispatchers(View()) < LoopLeft(old(loop)) + Dispatchers(old(View()))
    {
      var s := View();
      var e := NextLoopStep(s, answer.healthy, answer.up);
      LoopsCanLeave(s, answer.healthy, answer.up);
      Section(s, e);
      hide After, Inv, Enabled;
      Become(Step(s, e));
    }

    method StopAfterLoops(waits: Waits)
      requires Valid() && stop == AwaitingLoops && loop == LoopExited && !dispatching
      modifies this
      ensures After(old(View()), View())
      ensures stop == Stopped && stopping && loop == LoopExited && !dispatching && journalWg == 0
      ensures forall i | 0 <= i < |closes| :: closes[i] == 1
    {
      ghost var s0 := View();
      Section(s0, LoopsJoined);
      stop := Sealing;
      ghost var s1 := View();
      hide Inv, Reaches, Step, Enabled;
      Interfere(Stopper, waits.sealing);
      Then(s0, s1, View());
      s1 := View();
      SealUnits();
      Then(s0, s1, View());
      s1 := View();
      CancelReaders(waits.cancels);
      Then(s0, s1, View());
      s1 := View();
      AwaitReaders(waits.readers);
      Then(s0, s1, View());
      s1 := View();
      CloseCurrent(waits.closing);
      Then(s0, s1, View());
    }

    /** journalWg.Wait in Stop. Others run for as long as env has something for them, and after each slice some
        reader leaves; none can join, so the waiting ends. */
    method AwaitReaders(env: seq<seq<Event>>)
      requires Valid() && stop == AwaitingReaders
      modifies this
      ensures After(old(View()), View()) && stop == AwaitingReaders && journalWg == 0
    {
      ghost var s0 := View();
      Still(s0);
      hide Inv, Reaches, Step, Enabled;
      var i := 0;
      while journalWg > 0
        invariant After(s0, View()) && stop == AwaitingReaders
        decreases if i < |env| then |env| - i else 0, journalWg
      {
        ghost var s1 := View();
        Interfere(Stopper, Scheduled(env, i));
        Then(s0, s1, View());
        if journalWg > 0 {
          s1 := View();
          SomeReaderLeaves();
          Then(s0, s1, View());
        }
        i := i + 1;
      }
    }

    method SomeReaderLeaves()
      requires Valid() && stop == AwaitingReaders && journalWg > 0
      modifies this`readers, this`journalWg
      ensures After(old(View()), View()) && journalWg == old(journalWg) - 1
    {
      ghost var someone := SomeoneRuns(readers);
      var r :| 0 <= r < |readers| && readers[r].status.Running?;
      ghost var s := View();
      Section(s, ReaderExits(r));
      hide Inv, After;
      readers := readers[r := readers[r].(status := Done)];
      journalWg := journalWg - 1;
      assert View() == Step(s, ReaderExits(r));
    }

    // The cancels of every registered unit's reader, in any order.
    method CollectCancels() returns (cancels: seq<nat>)
      requires View().t.Valid()
      ensures Collected(View(), cancels)
    {
      cancels := [];
      var left := units.Keys;
      while left != {}
        invariant left <= units.Keys
        invariant forall r | r in cancels :: Cancellable(View(), r)
        invariant forall u | u in units.Keys - left && cancelJournal[units[u]].Some? ::
                    cancelJournal[units[u]].value in cancels
        decreases |left|
      {
        var u :| u in left;
        left := left - {u};
        if cancelJournal[units[u]].Some? {
          cancels := cancels + [cancelJournal[units[u]].value];
        }
      }
    }

    method SealUnits()
      requires Valid() && stop == Sealing
      modifies this`stopping, this`units, this`stop
      ensures After(old(View()), View())
      ensures stop.CancellingReaders? && stopping && units == map[]
      ensures forall u | u in old(units) :: forall p | ReaderOf(old(View()), u) == Some(p) :: p in stop.left
    {
      ghost var s := View();
      assert s.t.Valid();
      var cancels := CollectCancels();
      SealSection(s, cancels);
      hide Inv, After, Collected, ReaderOf;
      stopping := true;
      units := map[];
      stop := CancellingReaders(cancels);
    }

    method CancelReaders(env: seq<seq<Event>>)
      requires Valid() && stop.CancellingReaders?
      modifies this
      ensures After(old(View()), View()) && stop == AwaitingReaders
      ensures forall r | r in old(stop).left && r < |old(readers)| :: Cancelled(readers, r)
    {
      ghost var s0 := View();
      Still(s0);
      hide Inv, Reaches;
      var i := 0;
      while stop.left != []
        invariant After(s0, View()) && stop.CancellingReaders?
        invariant forall r | r in s0.stop.left && r < |s0.readers| :: r in stop.left || Cancelled(readers, r)
        decreases |stop.left|
      {
        ghost var s1 := View();
        CancelOne(Scheduled(env, i));
        Then(s0, s1, View());
        i := i + 1;
      }
      ghost var s2 := View();
      EndCancelling();
      Then(s0, s2, View());
    }

    method CancelOne(env: seq<Event>)
      requires Valid() && stop.CancellingReaders? && stop.left != []
      modifies this
      ensures After(old(View()), View()) && stop == CancellingReaders(old(stop).left[1..])
      ensures old(stop).left[0] < |old(readers)| ==> Cancelled(readers, old(stop).left[0])
    {
      hide Inv, Reaches;
      ghost var s0 := View();
      Interfere(Stopper, env);
      ghost var s1 := View();
      CancelFirst();
      Then(s0, s1, View());
    }

    method EndCancelling()
      requires Valid() && stop == CancellingReaders([])
      modifies this`stop
      ensures After(old(View()), View()) && stop == AwaitingReaders && readers == old(readers)
    {
      Section(View(), CancelNext);
      stop := AwaitingReaders;
    }

    method CancelFirst()
      requires Valid() && stop.CancellingReaders? && stop.left != []
      modifies this`readers, this`stop
      ensures After(old(View()), View()) && stop == CancellingReaders(old(stop).left[1..])
      ensures readers == WithCancelled(old(readers), old(stop).left[0])
    {
      Section(View(), CancelNext);
      var r := stop.left[0];
      if r < |readers| {
        readers := readers[r := readers[r].(cancelled := true)];
      }
      stop := CancellingReaders(stop.left[1..]);
    }

    method CloseCurrent(env: seq<Event>)
      requires Valid() && stop == AwaitingReaders && journalWg == 0
      modifies this
      ensures After(old(View()), View()) && stop == Stopped && stopping && loop == LoopExited && !dispatching
      ensures journalWg == 0
      ensures forall i | 0 <= i < |closes| :: closes[i] == 1
    {
      ghost var s0 := View();
      Section(s0, ReadersJoined);
      stop := ClosingConn;
      ghost var s1 := View();
      assert s1 == Step(s0, ReadersJoined);
      hide Inv, Reaches, Step, Enabled;
      Interfere(Stopper, env);
      Then(s0, s1, View());
      ghost var s2 := View();
      CloseLast();
      Then(s0, s2, View());
    }

    method CloseLast()
      requires Valid() && stop == ClosingConn
      modifies this`closes, this`stop
      ensures After(old(View()), View()) && stop == Stopped && stopping && loop == LoopExited && !dispatching
      ensures journalWg == 0
      ensures forall i | 0 <= i < |closes| :: closes[i] == 1
    {
      ghost var s := View();
      Section(s, CloseConn);
      closes := closes[conn := closes[conn] + 1];
      stop := Stopped;
      assert View() == Step(s, CloseConn);
    }
  }
}