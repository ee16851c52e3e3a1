/** Why the hypotheses are there: concrete runs that break each promise without them. */
module LifecycleLimits {
  import opened Systemd
  import opened Ownership
  import opened UnitTables
  import opened Lifecycle
  import opened LifecycleProofs
  import opened LifecycleTheorems
  import opened LifecycleRegistration

  datatype Rule = NoOverlaps | NoShutdown | NoSwaps

  // Every hypothesis but the broken one.
  predicate Obeys(broken: Rule, s: State, e: Event) {
    && (broken == NoOverlaps || Serialized(s, e))
    && (broken == NoShutdown || e != EmptyStore)
    && (broken == NoSwaps || SwapsWhenIdle(s, e))
  }

  ghost predicate Path(broken: Rule, s: State, es: seq<Event>, s': State)
    decreases |es|
  {
    if es == [] then s' == s
    else Enabled(s, es[0]) && Obeys(broken, s, es[0]) && Path(broken, Step(s, es[0]), es[1..], s')
  }

  lemma {:induction false} Extend(broken: Rule, s0: State, es: seq<Event>, s: State, e: Event)
    requires Path(broken, s0, es, s) && Enabled(s, e) && Obeys(broken, s, e)
    ensures Path(broken, s0, es + [e], Step(s, e))
    decreases |es|
  {
    if es == [] {
      assert (es + [e])[1..] == [];
    } else {
      Extend(broken, Step(s0, es[0]), es[1..], s, e);
      assert (es + [e])[1..] == es[1..] + [e];
    }
  }

  // A run on which only the swaps break their rule.
  lemma {:induction false} SwappingRun(s: State, es: seq<Event>, s': State)
    requires Path(NoSwaps, s, es, s')
    ensures Run(s, es, s')
    decreases |es|
  {
    if es != [] {
      SwappingRun(Step(s, es[0]), es[1..], s');
    }
  }

  // A StartTask call alone, from its claim on, for a unit that is already running.
  lemma StartToBuilding(broken: Rule, s0: State, es0: seq<Event>, s: State, c: nat) returns (es: seq<Event>, s': State)
    requires Path(broken, s0, es0, s) && c in s.calls && s.calls[c].Acquire? && s.calls[c].apc.Encoding?
    requires !s.calls[c].recovering
    requires s.calls[c].mgr < |s.w.mgrs|
    ensures Path(broken, s0, es, s')
    ensures s'.calls == s.calls[c := s.calls[c].(apc := Building, initial := TaskRunning, seen := Active)]
    ensures s'.w == s.w.(mgrs := s.w.mgrs[s.calls[c].mgr := Register(s.w.mgrs[s.calls[c].mgr], s.calls[c].unit)])
  {
    var e1, e2 := Advance(c, Silent), Advance(c, Reported(Active));
    EncodeAndQuery(s, c);
    hide Step, Enabled;
    Extend(broken, s0, es0, s, e1);
    var s1 := Step(s, e1);
    Extend(broken, s0, es0 + [e1], s1, e2);
    var s2 := Step(s1, e2);
    RegisterStep(s2, c);
    Extend(broken, s0, es0 + [e1] + [e2], s2, e1);
    es, s' := es0 + [e1] + [e2] + [e1], Step(s2, e1);
  }

  lemma EncodeAndQuery(s: State, c: nat)
    requires c in s.calls && s.calls[c].Acquire? && s.calls[c].apc.Encoding? && !s.calls[c].recovering
    ensures Enabled(s, Advance(c, Silent)) && Enabled(Step(s, Advance(c, Silent)), Advance(c, Reported(Active)))
    ensures Step(Step(s, Advance(c, Silent)), Advance(c, Reported(Active))) ==
            s.(calls := s.calls[c := s.calls[c].(apc := Registering, initial := TaskRunning, seen := Active)])
  {
  }

  lemma RegisterStep(s: State, c: nat)
    requires c in s.calls && s.calls[c].Acquire? && s.calls[c].apc.Registering? && s.calls[c].mgr < |s.w.mgrs|
    ensures Enabled(s, Advance(c, Silent))
    ensures var s', call := Step(s, Advance(c, Silent)), s.calls[c];
            && s'.calls == s.calls[c := call.(apc := Building)]
            && s'.w == s.w.(mgrs := s.w.mgrs[call.mgr := Register(s.w.mgrs[call.mgr], call.unit)])
  {
  }

  lemma BuildingToAcquired(broken: Rule, s0: State, es0: seq<Event>, s: State, c: nat)
      returns (es: seq<Event>, s': State)
    requires Path(broken, s0, es0, s) && c in s.calls && s.calls[c].Acquire? && s.calls[c].apc.Building?
    requires !s.calls[c].recovering
    requires s.calls[c].mgr < |s.w.mgrs| && s.calls[c].initial == TaskRunning
    ensures Path(broken, s0, es, s')
    ensures s'.calls == s.calls[c := s.calls[c].(apc := Acquired(true), h := |s.w.handlers|)]
    ensures s'.w.owners == s.w.owners && s'.w.mgrs == s.w.mgrs
    ensures s'.w.tasks == s.w.tasks[s.calls[c].id := |s.w.handlers|]
    ensures |s'.w.handlers| == |s.w.handlers| + 1 && s'.w.handlers[..|s.w.handlers|] == s.w.handlers
    ensures s'.w.handlers[|s.w.handlers|].id == s.calls[c].id
    ensures s'.w.handlers[|s.w.handlers|].unit == s.calls[c].unit && s'.w.handlers[|s.w.handlers|].mgr == s.calls[c].mgr
  {
    var e := Advance(c, Silent);
    Extend(broken, s0, es0, s, e);
    BuildingStep(s, c);
    hide Step, Enabled;
    es, s' := LaunchingToAcquired(broken, s0, es0 + [e], Step(s, e), c);
  }

  lemma BuildingStep(s: State, c: nat)
    requires c in s.calls && s.calls[c].Acquire? && s.calls[c].apc.Building? && !s.calls[c].recovering
    requires s.calls[c].mgr < |s.w.mgrs|
    ensures Enabled(s, Advance(c, Silent))
    ensures var s', call, n := Step(s, Advance(c, Silent)), s.calls[c], |s.w.handlers|;
            && s'.calls == s.calls[c := call.(apc := Launching, h := n)]
            && s'.w == s.w.(handlers := s'.w.handlers) && |s'.w.handlers| == n + 1 && s'.w.handlers[..n] == s.w.handlers
            && s'.w.handlers[n].id == call.id && s'.w.handlers[n].unit == call.unit
                && s'.w.handlers[n].mgr == call.mgr && !s'.w.handlers[n].h.started
  {
  }

  lemma LaunchingToAcquired(broken: Rule, s0: State, es0: seq<Event>, s: State, c: nat)
      returns (es: seq<Event>, s': State)
    requires Path(broken, s0, es0, s) && c in s.calls && s.calls[c].Acquire? && s.calls[c].apc.Launching?
    requires s.calls[c].h + 1 == |s.w.handlers| && !s.w.handlers[s.calls[c].h].h.started
    ensures Path(broken, s0, es, s')
    ensures s'.calls == s.calls[c := s.calls[c].(apc := Acquired(true))]
    ensures s'.w.owners == s.w.owners && s'.w.mgrs == s.w.mgrs && s'.w.tasks == s.w.tasks[s.calls[c].id := s.calls[c].h]
    ensures |s'.w.handlers| == |s.w.handlers| && s'.w.handlers[..s.calls[c].h] == s.w.handlers[..s.calls[c].h]
    ensures s'.w.handlers[s.calls[c].h] == s.w.handlers[s.calls[c].h].(h := s'.w.handlers[s.calls[c].h].h)
  {
    var e := Advance(c, Silent);
    LaunchStep(s, c);
    hide Step, Enabled;
    Extend(broken, s0, es0, s, e);
    var s1 := Step(s, e);
    PublishStep(s1, c);
    Extend(broken, s0, es0 + [e], s1, e);
    es, s' := es0 + [e] + [e], Step(s1, e);
  }

  lemma LaunchStep(s: State, c: nat)
    requires c in s.calls && s.calls[c].Acquire? && s.calls[c].apc.Launching?
    requires s.calls[c].h < |s.w.handlers| && !s.w.handlers[s.calls[c].h].h.started
    ensures Enabled(s, Advance(c, Silent))
    ensures var s', h := Step(s, Advance(c, Silent)), s.calls[c].h;
            && s'.calls == s.calls[c := s.calls[c].(apc := Publishing)]
            && |s'.w.handlers| == |s.w.handlers|
            && s'.w == s.w.(handlers := s.w.handlers[h := s.w.handlers[h].(h := s'.w.handlers[h].h)])
  {
  }

  lemma PublishStep(s: State, c: nat)
    requires c in s.calls && s.calls[c].Acquire? && s.calls[c].apc.Publishing? && s.calls[c].h < |s.w.handlers|
    ensures Enabled(s, Advance(c, Silent))
    ensures var s' := Step(s, Advance(c, Silent));
            && s'.calls == s.calls[c := s.calls[c].(apc := Acquired(true))]
            && s'.w == s.w.(tasks := s.w.tasks[s.calls[c].id := s.calls[c].h])
  {
  }

  // ... and up to its claim.
  lemma BeginToClaiming(broken: Rule, s0: State, es0: seq<Event>, s: State, c: nat, id: string, unit: string)
    returns (es: seq<Event>, s': State)
    requires Path(broken, s0, es0, s) && c !in s.calls && id !in s.w.tasks && |s.w.mgrs| == 1
    requires broken == NoOverlaps || NoneBusy(s, id)
    ensures Path(broken, s0, es, s') && s'.w == s.w
    ensures s'.calls == s.calls[c := Acquire(id, unit, false, Claiming, 0, 0, TaskUnknown, Other(""), [])]
  {
    var e1, e := BeginAcquire(c, id, unit, false), Advance(c, Silent);
    Extend(broken, s0, es0, s, e1);
    var s1 := Step(s, e1);
    Extend(broken, s0, es0 + [e1], s1, e);
    var s2 := Step(s1, e);
    Extend(broken, s0, es0 + [e1] + [e], s2, e);
    es, s' := es0 + [e1] + [e] + [e], Step(s2, e);
  }

  lemma ClaimingToAcquired(broken: Rule, s0: State, es0: seq<Event>, s: State, c: nat)
      returns (es: seq<Event>, s': State)
    requires Path(broken, s0, es0, s) && c in s.calls && s.calls[c].Acquire? && s.calls[c].apc.Claiming?
    requires !s.calls[c].recovering
    requires |s.w.mgrs| == 1 && s.calls[c].mgr == 0 && MayClaim(s.w.owners, s.calls[c].unit, s.calls[c].id)
    ensures Path(broken, s0, es, s') && s'.calls.Keys == s.calls.Keys && |s'.w.mgrs| == 1
    ensures s'.calls[c] == s.calls[c].(apc := Acquired(true), initial := TaskRunning, seen := Active,
                                          h := |s.w.handlers|)
    ensures forall d | d in s.calls && d != c :: s'.calls[d] == s.calls[d]
    ensures s'.w.owners == s.w.owners[s.calls[c].unit := s.calls[c].id]
    ensures s'.w.tasks == s.w.tasks[s.calls[c].id := |s.w.handlers|]
    ensures |s'.w.handlers| == |s.w.handlers| + 1 && s'.w.handlers[..|s.w.handlers|] == s.w.handlers
    ensures s'.w.handlers[|s.w.handlers|].id == s.calls[c].id
    ensures s'.w.handlers[|s.w.handlers|].unit == s.calls[c].unit && s'.w.handlers[|s.w.handlers|].mgr == 0
  {
    var e := Advance(c, Silent);
    Extend(broken, s0, es0, s, e);
    var s1 := Step(s, e);
    var es2, s2 := StartToBuilding(broken, s0, es0 + [e], s1, c);
    es, s' := BuildingToAcquired(broken, s0, es2, s2, c);
  }

  lemma ManagerInstalled(broken: Rule) returns (s: State)
    ensures Path(broken, Init, [SwapManager], s) && s == State(World(map[], map[], [], [NoUnits]), map[])
  {
    s := Step(Init, SwapManager);
  }

  /** Two overlapping starts of one task, with nothing else out of order: the second re-claims the unit, the
      first fails and releases the claim they share, and then another task can take the same unit. Two tracked
      tasks share it, and one of them does not own it. */
  lemma OverlappingStartsShareAUnit() returns (es: seq<Event>, s: State)
    ensures Path(NoOverlaps, Init, es, s)
    ensures Tracks(s.w, "a", "x.service") && Tracks(s.w, "b", "x.service") && !Owns(s.w, "a", "x.service")
  {
    var broken := NoOverlaps;
    var s0 := ManagerInstalled(broken);
    var es1, s1 := BeginToClaiming(broken, Init, [SwapManager], s0, 0, "a", "x.service");
    var es2, s2 := BeginToClaiming(broken, Init, es1, s1, 1, "a", "x.service");
    var es3, s3 := ClaimAndFail(broken, Init, es2, s2);
    var es4, s4 := EncodingToAcquired(broken, Init, es3, s3);
    var es5, s5 := BeginToClaiming(broken, Init, es4, s4, 2, "b", "x.service");
    assert s5.w.handlers == s4.w.handlers;
    es, s := ClaimingToAcquired(broken, Init, es5, s5, 2);
    assert s.w.handlers[0] == s.w.handlers[..1][0];
  }

  // Both calls claim; call 0 then fails to encode its state and releases.
  lemma ClaimAndFail(broken: Rule, s0: State, es0: seq<Event>, s: State) returns (es: seq<Event>, s': State)
    requires Path(broken, s0, es0, s)
    requires s.w == World(map[], map[], [], [NoUnits]) && s.calls.Keys == {0, 1}
    requires s.calls[0] == s.calls[1] == Acquire("a", "x.service", false, Claiming, 0, 0, TaskUnknown, Other(""), [])
    ensures Path(broken, s0, es, s') && s'.w == s.w && s'.calls.Keys == {0, 1}
    ensures s'.calls[1] == s.calls[1].(apc := Encoding)
  {
    var e1, e2 := Advance(0, Silent), Advance(1, Silent);
    Extend(broken, s0, es0, s, e1);
    var s1 := Step(s, e1);
    Extend(broken, s0, es0 + [e1], s1, e2);
    var s2 := Step(s1, e2);
    es, s' := FailAndRelease(broken, s0, es0 + [e1] + [e2], s2);
  }

  lemma FailAndRelease(broken: Rule, s0: State, es0: seq<Event>, s: State) returns (es: seq<Event>, s': State)
    requires Path(broken, s0, es0, s) && s.calls.Keys == {0, 1} && s.calls[0].Acquire? && s.calls[0].apc.Encoding?
    ensures Path(broken, s0, es, s') && s'.calls.Keys == {0, 1} && s'.calls[1] == s.calls[1]
    ensures s'.w == s.w.(owners := s.w.owners - {s.calls[0].unit})
  {
    var e1, e2 := Advance(0, Refused), Advance(0, Silent);
    Extend(broken, s0, es0, s, e1);
    var s1 := Step(s, e1);
    Extend(broken, s0, es0 + [e1], s1, e2);
    es, s' := es0 + [e1] + [e2], Step(s1, e2);
  }

  lemma EncodingToAcquired(broken: Rule, s0: State, es0: seq<Event>, s: State) returns (es: seq<Event>, s': State)
    requires Path(broken, s0, es0, s)
    requires s.w == World(map[], map[], [], [NoUnits]) && s.calls.Keys == {0, 1}
    requires s.calls[1] == Acquire("a", "x.service", false, Encoding, 0, 0, TaskUnknown, Other(""), [])
    ensures Path(broken, s0, es, s') && s'.calls.Keys == {0, 1} && |s'.w.mgrs| == 1
    ensures s'.w.owners == map[] && s'.w.tasks == map["a" := 0] && |s'.w.handlers| == 1
    ensures s'.w.handlers[0].unit == "x.service"
  {
    var es1, s1 := StartToBuilding(broken, s0, es0, s, 1);
    es, s' := BuildingToAcquired(broken, s0, es1, s1, 1);
  }

  // A task started alone on a fresh driver.
  lemma StartedTask(broken: Rule) returns (es: seq<Event>, s: State)
    ensures Path(broken, Init, es, s)
    ensures s.w.owners == map["x.service" := "a"] && s.w.tasks == map["a" := 0] && |s.w.handlers| == 1
    ensures s.w.handlers[0].unit == "x.service" && s.w.handlers[0].mgr == 0 && s.w.handlers[0].id == "a"
    ensures |s.w.mgrs| == 1
    ensures s.calls.Keys == {0} && Finished(s.calls[0])
  {
    var s0 := ManagerInstalled(broken);
    var es1, s1 := BeginToClaiming(broken, Init, [SwapManager], s0, 0, "a", "x.service");
    es, s := ClaimingToAcquired(broken, Init, es1, s1, 0);
  }

  /** A config reload while a task is tracked, with nothing else out of order: the unit of the task is not
      registered with the current manager, and no destroy is on its way to account for that. */
  lemma SwapLosesRegistrations() returns (es: seq<Event>, s: State)
    ensures Path(NoSwaps, Init, es, s) && Run(Init, es, s)
    ensures "a" in s.w.tasks && HandlerIs(s.w, s.w.tasks["a"], "a")
    ensures Registration(s.w, s.w.handlers[s.w.tasks["a"]].unit).None? && !Registered(s.w, s.w.handlers[s.w.tasks["a"]])
    ensures forall c :: !UnregisteredBy(s, c, "a")
  {
    var es1, s1 := StartedTask(NoSwaps);
    Extend(NoSwaps, Init, es1, s1, SwapManager);
    es, s := es1 + [SwapManager], Step(s1, SwapManager);
    SwappingRun(Init, es, s);
  }

  /** Shutdown empties the store and keeps the claims, with nothing else out of order: the unit is owned, and
      neither a tracked task nor a call in flight accounts for that. */
  lemma ShutdownLeaksClaims() returns (es: seq<Event>, s: State)
    ensures Path(NoShutdown, Init, es, s)
    ensures Owns(s.w, "a", "x.service") && !Tracks(s.w, "a", "x.service") && s.w.tasks == map[]
    ensures forall c :: !HeldBy(s, c, "a", "x.service")
  {
    var es1, s1 := StartedTask(NoShutdown);
    Extend(NoShutdown, Init, es1, s1, EmptyStore);
    es, s := es1 + [EmptyStore], Step(s1, EmptyStore);
  }
}
