/** The manager together with the loop that each of its journal readers runs (pkg/systemd/journal.go): every
    reader registered in Managers is a LogPipeline of its own, cancelled with its context and leaving the
    wait group when its loop returns. */
module ReaderSystem {
  import M = Managers
  import P = ManagerProofs
  import E = ManagerEnds
  import L = LogPipeline

  // logs[r] is the loop, channel and writer of reader r.
  datatype State = State(m: M.State, logs: seq<L.State>)

  datatype Event =
    // A step of the manager. A reader it makes writes to a handler whose files could be opened or not.
    | OfManager(e: M.Event, open: bool, separate: bool)
    // A step of reader r's loop, or of the handler that takes from its channel.
    | OfLog(r: nat, le: L.Event)
    // Reader r's deferred Done.
    | Leaves(r: nat)

  const Init := State(M.Init, [])

  predicate Runs(m: M.State, r: nat) {
    r < |m.readers| && m.readers[r].status.Running?
  }

  // A reader's context hangs below the manager's.
  predicate ContextDone(m: M.State, r: nat)
    requires r < |m.readers|
  {
    m.readers[r].cancelled || m.ctxDone
  }

  predicate Enabled(s: State, e: Event) {
    match e
    case OfManager(me, _, _) => !me.ReaderExits? && M.Enabled(s.m, me)
    case OfLog(r, le) =>
      && r < |s.logs| && le != L.Cancel && L.Enabled(s.logs[r], le)
      && (L.ReaderEvent(le) ==> Runs(s.m, r))
    // Nothing but the loop's return lets a reader leave.
    case Leaves(r) => Runs(s.m, r) && r < |s.logs| && s.logs[r].reader == L.Done && s.m.journalWg > 0
  }

  function Log(m: M.State, logs: seq<L.State>, r: nat, open: bool, separate: bool): L.State
    requires r < |m.readers|
  {
    var log := if r < |logs| then logs[r] else L.New(open, separate);
    if ContextDone(m, r) then L.Step(log, L.Cancel) else log
  }

  function Step(s: State, e: Event): State
    requires Enabled(s, e)
  {
    match e
    case OfManager(me, open, separate) =>
      var m := M.Step(s.m, me);
      State(m, seq(|m.readers|, r requires 0 <= r < |m.readers| => Log(m, s.logs, r, open, separate)))
    case OfLog(r, le) => s.(logs := s.logs[r := L.Step(s.logs[r], le)])
    case Leaves(r) =>
      s.(m := s.m.(readers := s.m.readers[r := s.m.readers[r].(status := M.Done)], journalWg := s.m.journalWg - 1))
  }

  ghost predicate Path(s: State, es: seq<Event>, s': State)
    decreases |es|
  {
    if es == [] then s' == s
    else Enabled(s, es[0]) && Path(Step(s, es[0]), es[1..], s')
  }

  ghost predicate Inv(s: State) {
    && P.Inv(s.m)
    && |s.logs| == |s.m.readers|
    && forall r | 0 <= r < |s.logs| :: L.Inv(s.logs[r]) && (s.logs[r].cancelled <==> ContextDone(s.m, r))
  }

  // What a step is to the manager alone.
  function Managed(e: Event): seq<M.Event> {
    match e
    case OfManager(me, _, _) => [me]
    case OfLog(_, _) => []
    case Leaves(r) => [M.ReaderExits(r)]
  }

  function AllManaged(es: seq<Event>): seq<M.Event> {
    if es == [] then [] else Managed(es[0]) + AllManaged(es[1..])
  }

  /** A reader's leaving is the manager's ReaderExits: its loop returns only for a done context. */
  lemma LeavingIsCancelled(s: State, r: nat)
    requires Inv(s) && Enabled(s, Leaves(r))
    ensures M.Enabled(s.m, M.ReaderExits(r)) && Step(s, Leaves(r)).m == M.Step(s.m, M.ReaderExits(r))
  {
    assert L.Inv(s.logs[r]);
  }

  lemma ReadersGrow(m: M.State, e: M.Event)
    requires M.Enabled(m, e)
    ensures var m' := M.Step(m, e);
            |m.readers| <= |m'.readers| && forall r | 0 <= r < |m.readers| && ContextDone(m, r) :: ContextDone(m', r)
  {
    if e.JoinReaders? {
      hide M.WithCancelled;
    } else {
      forall q ensures |M.WithCancelled(m.readers, q)| == |m.readers|
        ensures forall r | 0 <= r < |m.readers| && m.readers[r].cancelled :: M.WithCancelled(m.readers, q)[r].cancelled
      {
      }
      hide M.StartJournalReader, M.WithCancelled;
    }
  }

  lemma CancelKeepsLog(log: L.State)
    requires L.Inv(log)
    ensures var log' := L.Step(log, L.Cancel);
            L.Inv(log') && log'.cancelled && log'.reader == log.reader
  {
    L.StepKeepsInv(log, L.Cancel);
  }

  lemma FreshLogIsSound(open: bool, separate: bool)
    ensures L.Inv(L.New(open, separate)) && !L.New(open, separate).cancelled
  {
  }

  lemma ManagerKeepsLog(s: State, e: Event, r: nat)
    requires Inv(s) && Enabled(s, e) && e.OfManager? && r < |Step(s, e).logs|
    ensures var s' := Step(s, e);
            && L.Inv(s'.logs[r]) && (s'.logs[r].cancelled <==> ContextDone(s'.m, r))
            && (r < |s.logs| ==> s'.logs[r].reader == s.logs[r].reader)
  {
    ReadersGrow(s.m, e.e);
    var m := M.Step(s.m, e.e);
    FreshLogIsSound(e.open, e.separate);
    var log := if r < |s.logs| then s.logs[r] else L.New(e.open, e.separate);
    CancelKeepsLog(log);
    hide M.Step, M.Enabled, L.Step, L.Inv, P.Inv;
  }

  lemma LogStepKeeps(s: State, e: Event)
    requires Inv(s) && Enabled(s, e) && e.OfLog?
    ensures Inv(Step(s, e))
  {
    L.StepKeepsInv(s.logs[e.r], e.le);
    hide P.Inv, L.Inv;
  }

  lemma LeavingKeeps(s: State, e: Event)
    requires Inv(s) && Enabled(s, e) && e.Leaves?
    ensures Inv(Step(s, e))
  {
    LeavingIsCancelled(s, e.r);
    P.StepKeepsInv(s.m, M.ReaderExits(e.r));
    hide P.Inv, L.Inv, M.Step, M.Enabled;
  }

  lemma StepKeepsInv(s: State, e: Event)
    requires Inv(s) && Enabled(s, e)
    ensures Inv(Step(s, e))
  {
    match e
    case OfManager(me, _, _) =>
      P.StepKeepsInv(s.m, me);
      forall r | 0 <= r < |Step(s, e).logs|
        ensures L.Inv(Step(s, e).logs[r]) && (Step(s, e).logs[r].cancelled <==> ContextDone(Step(s, e).m, r))
      {
        ManagerKeepsLog(s, e, r);
      }
      hide P.Inv, L.Inv, M.Step, M.Enabled, L.Step, Log;
    case OfLog(_, _) => LogStepKeeps(s, e);
    case Leaves(_) => LeavingKeeps(s, e);
  }

  lemma {:induction false} RunKeepsInv(s: State, es: seq<Event>, s': State)
    requires Inv(s) && Path(s, es, s')
    ensures Inv(s')
    decreases |es|
  {
    if es != [] {
      StepKeepsInv(s, es[0]);
      hide Inv, Enabled, Step;
      RunKeepsInv(Step(s, es[0]), es[1..], s');
    }
  }

  lemma StepIsManaged(s: State, e: Event)
    requires Inv(s) && Enabled(s, e)
    ensures if Managed(e) == [] then Step(s, e).m == s.m
            else M.Enabled(s.m, Managed(e)[0]) && Step(s, e).m == M.Step(s.m, Managed(e)[0])
  {
    if e.Leaves? {
      LeavingIsCancelled(s, e.r);
    }
    hide Inv, M.Step, M.Enabled;
  }

  /** The whole run is a run of the manager, so all that is proved of Managers holds with the readers' loops
      in place of the assumption that a reader leaves only when its context is done. */
  lemma {:induction false} RunsAreManagerRuns(s: State, es: seq<Event>, s': State)
    requires Inv(s) && Path(s, es, s')
    ensures M.Path(s.m, AllManaged(es), s'.m)
    decreases |es|
  {
    hide Inv, Step, Enabled, M.Step, M.Enabled;
    if es != [] {
      StepKeepsInv(s, es[0]);
      StepIsManaged(s, es[0]);
      RunsAreManagerRuns(Step(s, es[0]), es[1..], s');
      if Managed(es[0]) != [] {
        assert AllManaged(es)[1..] == AllManaged(es[1..]);
      } else {
        assert AllManaged(es) == AllManaged(es[1..]);
      }
    }
  }

  /** From the first manager on, each reader's log is conserved and it has left only after a cancellation. */
  lemma EveryReadersLogIsConserved(es: seq<Event>, s: State, r: nat)
    requires Path(Init, es, s) && r < |s.logs|
    ensures |s.logs| == |s.m.readers|
    ensures var log := s.logs[r];
            && log.fetched == log.handed + log.buffer + L.InFlight(log) && |log.buffer| <= L.LOG_CHANNEL_SIZE
            && (log.reader == L.Done ==> ContextDone(s.m, r))
  {
    assert Inv(Init);
    RunKeepsInv(Init, es, s);
  }

  // ---- The wait for the readers ends ----

  // A reader's own steps.
  predicate Own(e: Event) {
    e.Leaves? || (e.OfLog? && L.ReaderEvent(e.le))
  }

  function OwnSteps(es: seq<Event>): nat {
    if es == [] then 0 else (if Own(es[0]) then 1 else 0) + OwnSteps(es[1..])
  }

  // What a cancelled reader has left to do, its leaving included.
  function WorkOf(s: State, r: nat): nat {
    if Runs(s.m, r) && r < |s.logs| then L.StepsLeft(s.logs[r]) + 1 else 0
  }

  function Work(s: State, n: nat): nat {
    if n == 0 then 0 else Work(s, n - 1) + WorkOf(s, n - 1)
  }

  lemma {:induction false} WorkShrinks(s: State, s': State, n: nat)
    requires forall r | 0 <= r < n :: WorkOf(s', r) <= WorkOf(s, r)
    ensures Work(s', n) <= Work(s, n)
    ensures forall r | 0 <= r < n && WorkOf(s', r) < WorkOf(s, r) :: Work(s', n) < Work(s, n)
  {
    if n > 0 {
      WorkShrinks(s, s', n - 1);
    }
  }

  lemma {:induction false} NoWorkBeyond(s: State, n: nat, k: nat)
    requires n <= k && forall r | n <= r < k :: WorkOf(s, r) == 0
    ensures Work(s, k) == Work(s, n)
    decreases k
  {
    if n < k {
      NoWorkBeyond(s, n, k - 1);
    }
  }

  lemma {:induction false} WorkIsBounded(s: State, n: nat)
    requires n <= |s.m.readers| == |s.logs|
    ensures P.Running(s.m.readers[..n]) <= Work(s, n) <= 5 * P.Running(s.m.readers[..n])
  {
    if n > 0 {
      WorkIsBounded(s, n - 1);
      assert s.m.readers[..n][..n - 1] == s.m.readers[..n - 1];
    }
  }

  lemma WorkIsTheReaders(s: State)
    requires Inv(s)
    ensures s.m.journalWg <= Work(s, |s.logs|) <= 5 * s.m.journalWg
  {
    WorkIsBounded(s, |s.logs|);
    assert s.m.readers[..|s.logs|] == s.m.readers;
  }

  lemma OwnStepWorks(s: State, e: Event)
    requires Inv(s) && s.m.stopping && Enabled(s, e) && Own(e)
    ensures Work(Step(s, e), |s.logs|) < Work(s, |s.logs|)
  {
    var s' := Step(s, e);
    var r := e.r;
    if e.OfLog? {
      L.CancelledStepCounts(s.logs[e.r], e.le);
    }
    assert WorkOf(s', r) < WorkOf(s, r);
    assert forall q | 0 <= q < |s.logs| && q != r :: WorkOf(s', q) == WorkOf(s, q);
    hide Inv, Step, Enabled, WorkOf;
    WorkShrinks(s, s', |s.logs|);
  }

  lemma OthersAddNoWork(s: State, e: Event)
    requires Inv(s) && s.m.stopping && Enabled(s, e) && !Own(e)
    ensures Work(Step(s, e), |Step(s, e).logs|) <= Work(s, |s.logs|)
  {
    var s' := Step(s, e);
    match e
    case OfManager(me, _, _) =>
      P.SealedStep(s.m, me);
      forall r | 0 <= r < |s'.logs| ensures WorkOf(s', r) <= WorkOf(s, r) {
        ManagerKeepsLog(s, e, r);
      }
      hide Inv, Step, Enabled, M.Step, M.Enabled;
      WorkShrinks(s, s', |s.logs|);
      NoWorkBeyond(s', |s.logs|, |s'.logs|);
    case OfLog(r, le) =>
      L.CancelledStepCounts(s.logs[r], le);
      hide Inv, Enabled;
      WorkShrinks(s, s', |s.logs|);
    case Leaves(_) =>
  }

  lemma SealedStays(s: State, e: Event)
    requires Inv(s) && s.m.stopping && Enabled(s, e)
    ensures Step(s, e).m.stopping && |s.logs| <= |Step(s, e).logs|
    ensures !e.OfManager? ==> |Step(s, e).logs| == |s.logs|
  {
    if e.OfManager? {
      P.SealedStep(s.m, e.e);
      hide M.Step, M.Enabled;
    }
  }

  /** Once the manager is sealed its readers take, all together, at most five more steps each, whatever the
      journal answers, however full the channels are and whatever else happens. */
  lemma {:induction false} ReadersRunOut(s: State, es: seq<Event>, s': State)
    requires Inv(s) && s.m.stopping && Path(s, es, s')
    ensures Inv(s') && s'.m.stopping
    ensures OwnSteps(es) + Work(s', |s'.logs|) <= Work(s, |s.logs|) <= 5 * s.m.journalWg
    decreases |es|
  {
    WorkIsTheReaders(s);
    if es != [] {
      var next := Step(s, es[0]);
      StepKeepsInv(s, es[0]);
      SealedStays(s, es[0]);
      if Own(es[0]) {
        OwnStepWorks(s, es[0]);
      } else {
        OthersAddNoWork(s, es[0]);
      }
      hide Inv, Step, Enabled, Own, Work;
      ReadersRunOut(next, es[1..], s');
    }
  }

  /** ... and as long as one of them runs, each that does has a step to take: none waits for anybody. */
  lemma RunningReadersCanMove(s: State, r: nat)
    requires Inv(s) && s.m.stopping && Runs(s.m, r)
    ensures if s.logs[r].reader == L.Done then Enabled(s, Leaves(r))
            else exists le :: L.ReaderEvent(le) && Enabled(s, OfLog(r, le))
  {
    assert s.logs[r].cancelled;
    if s.logs[r].reader == L.Done {
      if s.m.journalWg == 0 {
        P.NoneRunning(s.m.readers, r);
      }
    } else {
      L.ReaderBlocksOnlyOnAFullChannel(s.logs[r]);
      var le :| L.ReaderEvent(le) && L.Enabled(s.logs[r], le);
      assert Enabled(s, OfLog(r, le));
    }
  }

  /** So Stop's wait for the readers ends: every run from a sealed manager that goes on until no reader can take a
      further step has no reader left, and Stop has gone on already or may. */
  lemma ReadersWaitEnds(s: State, es: seq<Event>, s': State)
    requires Inv(s) && s.m.stopping && Path(s, es, s')
    requires forall e | Own(e) :: !Enabled(s', e)
    ensures s'.m.journalWg == 0 && forall r :: !Runs(s'.m, r)
    ensures s'.m.stop == M.AwaitingReaders ==> M.Enabled(s'.m, M.ReadersJoined)
  {
    ReadersRunOut(s, es, s');
    forall r ensures !Runs(s'.m, r) {
      if Runs(s'.m, r) {
        RunningReadersCanMove(s', r);
      }
    }
    if s'.m.journalWg > 0 {
      var r := E.SomeoneRuns(s'.m.readers);
      assert Runs(s'.m, r);
    }
  }
}
