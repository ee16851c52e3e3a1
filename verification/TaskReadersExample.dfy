/** A run of TaskReaders on which a task is started and its log opened: what is promised there of a tracked task's
    reader is promised of something. */
module TaskReadersExample {
  import opened Options
  import opened Systemd
  import opened UnitTables
  import opened Lifecycle
  import opened LifecycleRegistration
  import opened TaskReaders
  import M = Managers
  import H = TaskHandler

  lemma {:induction false} GoesOn(x0: System, es: seq<TaskReaders.Event>, x: System, e: TaskReaders.Event)
    requires Goes(x0, es, x) && CanDo(x, e)
    ensures Goes(x0, es + [e], Do(x, e))
    decreases |es|
  {
    hide CanDo, Do;
    if es == [] {
      assert (es + [e])[1..] == [];
    } else {
      GoesOn(Do(x0, es[0]), es[1..], x, e);
      assert (es + [e])[1..] == es[1..] + [e];
    }
  }

  // The call that starts task "a", in its world and its manager, before Handler.Start.
  function StartingAt(apc: AcquirePc, seen: bool): Call {
    Acquire("a", "x.service", false, apc, 0, 0, if seen then TaskRunning else TaskUnknown,
            if seen then Active else Other(""), [])
  }

  lemma RunToClaim() returns (es: seq<TaskReaders.Event>, x: System)
    ensures Goes(Start, es, x)
    ensures x == Start.(s := State(World(map["x.service" := "a"], map[], [], [NoUnits]),
                                   map[0 := StartingAt(Encoding, false)]))
  {
    var e1, e := OfDriver(BeginAcquire(0, "a", "x.service", false)), OfDriver(Advance(0, Silent));
    GoesOn(Start, [], Start, e1);
    var x1 := Do(Start, e1);
    GoesOn(Start, [] + [e1], x1, e);
    var x2 := Do(x1, e);
    GoesOn(Start, [] + [e1] + [e], x2, e);
    var x3 := Do(x2, e);
    GoesOn(Start, [] + [e1] + [e] + [e], x3, e);
    es, x := [] + [e1] + [e] + [e] + [e], Do(x3, e);
    assert x.s.calls == map[0 := StartingAt(Encoding, false)];
  }

  lemma RunToRegistering() returns (es: seq<TaskReaders.Event>, x: System)
    ensures Goes(Start, es, x)
    ensures x == Start.(s := State(World(map["x.service" := "a"], map[], [], [NoUnits]),
                                   map[0 := StartingAt(Registering, true)]))
  {
    var es0, x0 := RunToClaim();
    var e1, e2 := OfDriver(Advance(0, Silent)), OfDriver(Advance(0, Reported(Active)));
    GoesOn(Start, es0, x0, e1);
    var x1 := Do(x0, e1);
    GoesOn(Start, es0 + [e1], x1, e2);
    es, x := es0 + [e1] + [e2], Do(x1, e2);
    assert x.s.calls == map[0 := StartingAt(Registering, true)];
  }

  const OneEntry := UnitTable(map["x.service" := 0], [None])

  ghost predicate AtRegistered(x: System) {
    && x.m == M.Init.(t := OneEntry, calls := map[0 := M.Retire("x.service", true, M.CancellingOld(None))])
    && x.callers == map[] && x.readers == map[]
  }

  lemma RunToBuilding() returns (es: seq<TaskReaders.Event>, x: System)
    ensures Goes(Start, es, x) && AtRegistered(x)
    ensures x.s.w == World(map["x.service" := "a"], map[], [], [OneEntry])
    ensures x.s.calls == map[0 := StartingAt(Building, true)]
  {
    var es0, x0 := RunToRegistering();
    var e := Registers(0, Silent, 0);
    GoesOn(Start, es0, x0, e);
    es, x := es0 + [e], Do(x0, e);
    assert x.s.w.mgrs == [OneEntry] && x.m.t == OneEntry;
  }

  lemma RunToStart() returns (es: seq<TaskReaders.Event>, x: System)
    ensures Goes(Start, es, x) && AtRegistered(x)
    ensures x.s.w == World(map["x.service" := "a"], map[],
                           [Handler("a", "x.service", 0, Some(0), H.New(TaskRunning))], [OneEntry])
    ensures x.s.calls == map[0 := StartingAt(Lifecycle.Launching, true)]
  {
    var es0, x0 := RunToBuilding();
    var e := OfDriver(Advance(0, Silent));
    GoesOn(Start, es0, x0, e);
    es, x := es0 + [e], Do(x0, e);
  }

  // From Handler.Start on the driver's state stays put until StreamLogs has returned.
  ghost predicate AtStart(x: System) {
    && x.s.w.owners == map["x.service" := "a"] && x.s.w.tasks == map[] && x.s.w.mgrs == [OneEntry]
    && x.s.w.handlers == [Handler("a", "x.service", 0, Some(0), H.New(TaskRunning))]
    && x.s.calls == map[0 := StartingAt(Lifecycle.Launching, true)]
  }

  lemma RunToOpened() returns (es: seq<TaskReaders.Event>, x: System)
    ensures Goes(Start, es, x) && AtStart(x) && x.callers == map[1 := 0] && x.readers == map[]
    ensures x.m.t == OneEntry && x.m.readers == [M.Reader(M.Made, false, "x.service")] && !x.m.stopping
    ensures 1 in x.m.calls && x.m.calls[1] == M.Stream("x.service", M.Joining(0))
  {
    var es0, x0 := RunToStart();
    var e1, e2 := Opens(0, 1), OfManager(M.JournalOpened(1, true));
    GoesOn(Start, es0, x0, e1);
    var x1 := Do(x0, e1);
    GoesOn(Start, es0 + [e1], x1, e2);
    es, x := es0 + [e1] + [e2], Do(x1, e2);
  }

  lemma RunToJoining() returns (es: seq<TaskReaders.Event>, x: System)
    ensures Goes(Start, es, x) && AtStart(x) && x.callers == map[1 := 0] && x.readers == map[0 := 0]
    ensures 1 in x.m.calls && x.m.calls[1] == M.Stream("x.service", M.Displacing(None))
  {
    var es0, x0 := RunToOpened();
    var e := OfManager(M.JoinReaders(1));
    GoesOn(Start, es0, x0, e);
    es, x := es0 + [e], Do(x0, e);
  }

  lemma RunToJoined() returns (es: seq<TaskReaders.Event>, x: System)
    ensures Goes(Start, es, x) && AtStart(x) && x.callers == map[1 := 0] && x.readers == map[0 := 0]
    ensures 1 in x.m.calls && x.m.calls[1] == M.Stream("x.service", M.Streamed(true))
  {
    var es0, x0 := RunToJoining();
    var e := OfManager(M.CancelPrevious(1));
    GoesOn(Start, es0, x0, e);
    es, x := es0 + [e], Do(x0, e);
  }

  lemma RunToLaunched() returns (es: seq<TaskReaders.Event>, x: System)
    ensures Goes(Start, es, x) && x.readers == map[0 := 0]
    ensures |x.s.w.handlers| == 1 && x.s.w.tasks == map[]
    ensures x.s.calls == map[0 := StartingAt(Publishing, true)]
  {
    var es0, x0 := RunToJoined();
    var e := Launches(0, Silent, 1);
    GoesOn(Start, es0, x0, e);
    es, x := es0 + [e], Do(x0, e);
  }

  /** A task tracked with a handler that has its reader. */
  lemma SomeTaskHasItsReader() returns (es: seq<TaskReaders.Event>, x: System)
    ensures Goes(Start, es, x) && "a" in x.s.w.tasks && x.s.w.tasks["a"] in x.readers
    ensures forall c :: !UnregisteredBy(x.s, c, "a")
  {
    var es0, x0 := RunToLaunched();
    var e := OfDriver(Advance(0, Silent));
    GoesOn(Start, es0, x0, e);
    es, x := es0 + [e], Do(x0, e);
  }
}
