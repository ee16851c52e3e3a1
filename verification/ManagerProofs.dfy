/** What every interleaving of the manager's machinery keeps. */
module ManagerProofs {
  import opened Options
  import opened UnitTables
  import opened Backoff
  import opened Managers

  // ---- Journal readers ----

  function Running(readers: seq<Reader>): nat {
    if readers == [] then 0
    else Running(readers[..|readers| - 1]) + if readers[|readers| - 1].status.Running? then 1 else 0
  }

  lemma {:induction false} RunningAfterUpdate(readers: seq<Reader>, r: nat, x: Reader)
    requires r < |readers|
    ensures Running(readers[r := x]) ==
            Running(readers) + (if x.status.Running? then 1 else 0) - (if readers[r].status.Running? then 1 else 0)
  {
    var n := |readers| - 1;
    if r == n {
      assert readers[r := x][..n] == readers[..n];
    } else {
      RunningAfterUpdate(readers[..n], r, x);
      assert readers[r := x][..n] == readers[..n][r := x];
    }
  }

  lemma {:induction false} NoneRunning(readers: seq<Reader>, r: nat)
    requires Running(readers) == 0 && r < |readers|
    ensures !readers[r].status.Running?
  {
    if r < |readers| - 1 {
      NoneRunning(readers[..|readers| - 1], r);
    }
  }

  // A registered unit's cancelJournal stops reader r.
  ghost predicate Attached(s: State, r: nat) {
    exists u :: u in s.t.units && Cancels(s, s.t.units[u], r)
  }

  predicate Cancels(s: State, o: nat, r: nat) {
    o < |s.t.cancelJournal| && s.t.cancelJournal[o] == Some(r)
  }

  // Call c, or Stop, is on its way to cancelling reader r.
  predicate AboutToCancel(s: State, c: nat, r: nat) {
    && c in s.calls
    && match s.calls[c]
       case Stream(_, pc) => pc == Displacing(Some(r))
       case Retire(_, _, rpc) => rpc.CancellingOld? && rpc.o.Some? && Cancels(s, rpc.o.value, r)
  }

  // An uncancelled reader is a registered unit's, or somebody is about to cancel it.
  ghost predicate Reachable(s: State, r: nat)
    requires r < |s.readers|
  {
    || s.readers[r].cancelled
    || Attached(s, r)
    || (exists c :: AboutToCancel(s, c, r))
    || (s.stop.CancellingReaders? && r in s.stop.left)
  }

  predicate CallOk(s: State, call: Call) {
    match call
    case Stream(_, pc) =>
      && (pc.Joining? ==> pc.r < |s.readers| && s.readers[pc.r].status == Made)
      && (pc.Displacing? && pc.previous.Some? ==> pc.previous.value < |s.readers|)
    case Retire(_, _, rpc) =>
      rpc.CancellingOld? && rpc.o.Some? ==>
        rpc.o.value < |s.t.cancelJournal| && forall u | u in s.t.units :: s.t.units[u] != rpc.o.value
  }

  ghost predicate ReaderInv(s: State) {
    && s.t.Valid()
    && (forall o | 0 <= o < |s.t.cancelJournal| && s.t.cancelJournal[o].Some? ::
        s.t.cancelJournal[o].value < |s.readers|)
    && s.journalWg == Running(s.readers)
    && (forall c | c in s.calls :: CallOk(s, s.calls[c]))
    && (forall c, d | c in s.calls && d in s.calls && JoinsSame(s.calls[c], s.calls[d]) :: c == d)
    && (forall r | 0 <= r < |s.readers| && s.readers[r].status.Running? :: Reachable(s, r))
  }

  predicate JoinsSame(a: Call, b: Call) {
    a.Stream? && b.Stream? && a.pc.Joining? && b.pc == a.pc
  }

  // ---- Stop, the loops and the connections ----

  // A connection that is current, freshly dialled, or replaced and about to be closed.
  predicate InUse(s: State, i: nat) {
    || (i == s.conn && s.stop != Stopped)
    || (s.loop.Adopting? && i == s.loop.dialed)
    || (s.loop.ClosingOld? && i == s.loop.replaced)
  }

  ghost predicate ConnsOk(s: State) {
    && s.conn < |s.closes|
    && (s.loop.Adopting? ==> s.loop.dialed < |s.closes| && s.loop.dialed != s.conn)
    && (s.loop.ClosingOld? ==> s.loop.replaced < |s.closes| && s.loop.replaced != s.conn)
    && (forall i | 0 <= i < |s.closes| :: s.closes[i] == if InUse(s, i) then 0 else 1)
  }

  ghost predicate ConnInv(s: State) {
    && ConnsOk(s)
    && s.backoff == Delay(RECONNECT_INTERVAL, RECONNECT_BACKOFF_MAX, s.failures)
  }

  predicate Sealed(s: State) {
    s.stop.CancellingReaders? || s.stop == AwaitingReaders || s.stop == ClosingConn || s.stop == Stopped
  }

  ghost predicate StopInv(s: State) {
    && (s.stop != NotStopping ==> s.ctxDone)
    && (s.stop == Sealing || Sealed(s) ==> s.loop == LoopExited && !s.dispatching)
    && (s.stopping <==> Sealed(s))
    && (s.stop == ClosingConn || s.stop == Stopped ==> s.journalWg == 0)
  }

  ghost predicate Inv(s: State) {
    ReaderInv(s) && ConnInv(s) && StopInv(s)
  }

  // The reconnect loop's own steps, and Stop's last one.
  predicate TouchesConn(e: Event) {
    e.LoopTick? || e.LoopExits? || e.Checked? || e.Dialed? || e.SwapConn? || e.CloseOld? || e.Refreshed? || e.CloseConn?
  }

  lemma LoopKeepsConn(s: State, e: Event)
    requires ConnInv(s) && StopInv(s) && Enabled(s, e) && TouchesConn(e)
    ensures ConnInv(Step(s, e))
  {
    LoopKeepsConns(s, e);
    hide ConnsOk, StopInv, Doubled;
  }

  lemma LoopKeepsConns(s: State, e: Event)
    requires ConnsOk(s) && StopInv(s) && Enabled(s, e) && TouchesConn(e)
    ensures ConnsOk(Step(s, e))
  {
    hide StartJournalReader, WithCall, WithCancelled, Doubled;
  }

  lemma StepKeepsConn(s: State, e: Event)
    requires ConnInv(s) && StopInv(s) && Enabled(s, e)
    ensures ConnInv(Step(s, e))
  {
    if TouchesConn(e) {
      LoopKeepsConn(s, e);
    } else {
      var s' := Step(s, e);
      assert s'.conn == s.conn && s'.closes == s.closes && s'.loop == s.loop && s'.backoff == s.backoff
          && s'.failures == s.failures;
      hide Step, Enabled, StopInv;
    }
  }

  lemma StepKeepsStop(s: State, e: Event)
    requires StopInv(s) && Enabled(s, e)
    ensures StopInv(Step(s, e))
  {
    hide WithCancelled, Doubled, Running;
  }

  // ---- Readers, one kind of step at a time ----

  // Nothing about units or readers changes but call c.
  lemma CallMoves(s: State, c: nat, call': Call)
    requires ReaderInv(s) && CallOk(s, call')
    requires call'.Stream? && call'.pc.Joining? ==> c in s.calls && s.calls[c] == call'
    requires c in s.calls ==>
               forall r: nat | AboutToCancel(s, c, r) && r < |s.readers| && s.readers[r].status.Running? ::
               s.readers[r].cancelled || Attached(s, r)
    ensures ReaderInv(WithCall(s, c, call'))
  {
    var s' := WithCall(s, c, call');
    forall r | 0 <= r < |s.readers| && s.readers[r].status.Running?
      ensures Reachable(s', r)
    {
      assert Reachable(s, r);
      if u :| u in s.t.units && Cancels(s, s.t.units[u], r) {
        assert Cancels(s', s'.t.units[u], r);
      } else if d :| AboutToCancel(s, d, r) {
        assert d != c ==> AboutToCancel(s', d, r);
      }
    }
  }

  // Reader r is cancelled and nothing else changes.
  lemma CancelKeeps(s: State, r: nat)
    requires ReaderInv(s) && r < |s.readers|
    ensures ReaderInv(s.(readers := WithCancelled(s.readers, r)))
  {
    var s' := s.(readers := WithCancelled(s.readers, r));
    RunningAfterUpdate(s.readers, r, s.readers[r].(cancelled := true));
    forall q | 0 <= q < |s'.readers| && s'.readers[q].status.Running?
      ensures Reachable(s', q)
    {
      assert Reachable(s, q);
      if u :| u in s.t.units && Cancels(s, s.t.units[u], q) {
        assert Cancels(s', s'.t.units[u], q);
      } else if d :| AboutToCancel(s, d, q) {
        assert AboutToCancel(s', d, q);
      }
    }
  }

  lemma JournalOpenedKeeps(s: State, c: nat, available: bool)
    requires ReaderInv(s) && Enabled(s, JournalOpened(c, available))
    ensures ReaderInv(Step(s, JournalOpened(c, available)))
  {
    if !available {
      CallMoves(s, c, s.calls[c].(pc := Streamed(false)));
    } else {
      var s' := Step(s, JournalOpened(c, available));
      assert s'.readers[..|s.readers|] == s.readers;
      forall r | 0 <= r < |s'.readers| && s'.readers[r].status.Running?
        ensures Reachable(s', r)
      {
        assert Reachable(s, r);
        if u :| u in s.t.units && Cancels(s, s.t.units[u], r) {
          assert Cancels(s', s'.t.units[u], r);
        } else if d :| AboutToCancel(s, d, r) {
          assert AboutToCancel(s', d, r);
        }
      }
    }
  }

  lemma CancelPreviousKeeps(s: State, c: nat)
    requires ReaderInv(s) && Enabled(s, CancelPrevious(c))
    ensures ReaderInv(Step(s, CancelPrevious(c)))
  {
    var previous := s.calls[c].pc.previous;
    assert CallOk(s, s.calls[c]);
    if previous.Some? {
      CancelKeeps(s, previous.value);
      CallMoves(s.(readers := WithCancelled(s.readers, previous.value)), c, s.calls[c].(pc := Streamed(true)));
    } else {
      CallMoves(s, c, s.calls[c].(pc := Streamed(true)));
    }
  }

  lemma CancelOldKeeps(s: State, c: nat)
    requires ReaderInv(s) && Enabled(s, CancelOld(c))
    ensures ReaderInv(Step(s, CancelOld(c)))
  {
    var o := s.calls[c].rpc.o;
    assert CallOk(s, s.calls[c]);
    if o.Some? && s.t.cancelJournal[o.value].Some? {
      var r := s.t.cancelJournal[o.value].value;
      CancelKeeps(s, r);
      CallMoves(s.(readers := WithCancelled(s.readers, r)), c, s.calls[c].(rpc := Retired));
    } else {
      CallMoves(s, c, s.calls[c].(rpc := Retired));
    }
  }

  lemma ReplaceEntryReaches(s: State, c: nat, r: nat)
    requires ReaderInv(s) && Enabled(s, ReplaceEntry(c)) && r < |s.readers| && s.readers[r].status.Running?
    ensures Reachable(Step(s, ReplaceEntry(c)), r)
  {
    var s', unit := Step(s, ReplaceEntry(c)), s.calls[c].unit;
    assert Reachable(s, r);
    if u :| u in s.t.units && Cancels(s, s.t.units[u], r) {
      if u == unit {
        assert AboutToCancel(s', c, r);
      } else {
        assert Cancels(s', s'.t.units[u], r);
      }
    } else if d :| AboutToCancel(s, d, r) {
      assert AboutToCancel(s', d, r);
    }
  }

  // The entry a registration displaces, or an unregistration removes, is nobody's any more.
  lemma ReplaceEntryKeeps(s: State, c: nat)
    requires ReaderInv(s) && Enabled(s, ReplaceEntry(c))
    ensures ReaderInv(Step(s, ReplaceEntry(c)))
  {
    var s' := Step(s, ReplaceEntry(c));
    forall r | 0 <= r < |s'.readers| && s'.readers[r].status.Running?
      ensures Reachable(s', r)
    {
      ReplaceEntryReaches(s, c, r);
    }
    hide Reachable, Running;
  }

  lemma ReaderExitsKeeps(s: State, r: nat)
    requires ReaderInv(s) && Enabled(s, ReaderExits(r))
    ensures ReaderInv(Step(s, ReaderExits(r)))
  {
    var s' := Step(s, ReaderExits(r));
    RunningAfterUpdate(s.readers, r, s.readers[r].(status := Done));
    forall q | 0 <= q < |s'.readers| && s'.readers[q].status.Running?
      ensures Reachable(s', q)
    {
      assert Reachable(s, q);
      if u :| u in s.t.units && Cancels(s, s.t.units[u], q) {
        assert Cancels(s', s'.t.units[u], q);
      } else if d :| AboutToCancel(s, d, q) {
        assert AboutToCancel(s', d, q);
      }
    }
  }

  lemma JoinRefusedReaches(s: State, c: nat, q: nat)
    requires ReaderInv(s) && Enabled(s, JoinReaders(c)) && StartJournalReader(s, c).calls[c].pc.Streamed?
    requires q < |s.readers| && s.readers[q].status.Running?
    ensures Reachable(StartJournalReader(s, c), q)
  {
    var s' := StartJournalReader(s, c);
    assert Reachable(s, q);
    if u :| u in s.t.units && Cancels(s, s.t.units[u], q) {
      assert Cancels(s', s'.t.units[u], q);
    } else if d :| AboutToCancel(s, d, q) {
      assert AboutToCancel(s', d, q);
    }
  }

  // startJournalReader turns the reader away.
  lemma JoinRefusedKeeps(s: State, c: nat)
    requires ReaderInv(s) && Enabled(s, JoinReaders(c)) && StartJournalReader(s, c).calls[c].pc.Streamed?
    ensures ReaderInv(StartJournalReader(s, c))
  {
    var s', r := StartJournalReader(s, c), s.calls[c].pc.r;
    assert CallOk(s, s.calls[c]);
    RunningAfterUpdate(s.readers, r, s'.readers[r]);
    forall d | d in s'.calls ensures CallOk(s', s'.calls[d]) {
      assert d != c ==> CallOk(s, s.calls[d]) && !JoinsSame(s.calls[c], s.calls[d]);
    }
    forall q | 0 <= q < |s'.readers| && s'.readers[q].status.Running?
      ensures Reachable(s', q)
    {
      JoinRefusedReaches(s, c, q);
    }
    hide Reachable, Running, CallOk;
  }

  // The reader that the new one displaces is about to be cancelled; any other stays where it was.
  lemma JoinAdmittedReaches(s: State, c: nat, q: nat)
    requires ReaderInv(s) && Enabled(s, JoinReaders(c)) && !StartJournalReader(s, c).calls[c].pc.Streamed?
    requires q < |s.readers| && (s.readers[q].status.Running? || q == s.calls[c].pc.r)
    ensures Reachable(StartJournalReader(s, c), q)
  {
    var s', r, unit := StartJournalReader(s, c), s.calls[c].pc.r, s.calls[c].unit;
    if q == r {
      assert Cancels(s', s'.t.units[unit], r);
    } else {
      assert Reachable(s, q);
      if u :| u in s.t.units && Cancels(s, s.t.units[u], q) {
        if u == unit {
          assert AboutToCancel(s', c, q);
        } else {
          assert Cancels(s', s'.t.units[u], q);
        }
      } else if d :| AboutToCancel(s, d, q) {
        assert CallOk(s, s.calls[d]);
        assert AboutToCancel(s', d, q);
      }
    }
  }

  lemma JoinAdmittedKeeps(s: State, c: nat)
    requires ReaderInv(s) && Enabled(s, JoinReaders(c)) && !StartJournalReader(s, c).calls[c].pc.Streamed?
    ensures ReaderInv(StartJournalReader(s, c))
  {
    var s', r := StartJournalReader(s, c), s.calls[c].pc.r;
    assert CallOk(s, s.calls[c]);
    RunningAfterUpdate(s.readers, r, s'.readers[r]);
    forall d | d in s'.calls ensures CallOk(s', s'.calls[d]) {
      assert d != c ==> CallOk(s, s.calls[d]) && !JoinsSame(s.calls[c], s.calls[d]);
    }
    forall q | 0 <= q < |s'.readers| && s'.readers[q].status.Running?
      ensures Reachable(s', q)
    {
      JoinAdmittedReaches(s, c, q);
    }
  }

  lemma SealKeeps(s: State, order: seq<nat>)
    requires ReaderInv(s) && Enabled(s, Seal(order))
    ensures ReaderInv(Step(s, Seal(order)))
  {
    var s' := Step(s, Seal(order));
    forall q | 0 <= q < |s'.readers| && s'.readers[q].status.Running?
      ensures Reachable(s', q)
    {
      assert Reachable(s, q);
      if u :| u in s.t.units && Cancels(s, s.t.units[u], q) {
        assert Cancellable(s, q);
      } else if d :| AboutToCancel(s, d, q) {
        assert AboutToCancel(s', d, q);
      }
    }
  }

  lemma CancelNextKeeps(s: State)
    requires ReaderInv(s) && Enabled(s, CancelNext)
    ensures ReaderInv(Step(s, CancelNext))
  {
    var mid := s;
    if s.stop.left != [] && s.stop.left[0] < |s.readers| {
      mid := s.(readers := WithCancelled(s.readers, s.stop.left[0]));
      CancelKeeps(s, s.stop.left[0]);
    }
    StopMovesOn(mid, Step(s, CancelNext).stop);
  }

  // Stop has cancelled the first reader on its list.
  lemma StopMovesOn(s: State, stop': StopPc)
    requires ReaderInv(s) && s.stop.CancellingReaders?
    requires forall q | q in s.stop.left && q < |s.readers| && s.readers[q].status.Running? ::
               s.readers[q].cancelled || (stop'.CancellingReaders? && q in stop'.left)
    ensures ReaderInv(s.(stop := stop'))
  {
    var s' := s.(stop := stop');
    forall q | 0 <= q < |s'.readers| && s'.readers[q].status.Running?
      ensures Reachable(s', q)
    {
      assert Reachable(s, q);
      if u :| u in s.t.units && Cancels(s, s.t.units[u], q) {
        assert Cancels(s', s'.t.units[u], q);
      } else if d :| AboutToCancel(s, d, q) {
        assert AboutToCancel(s', d, q);
      }
    }
  }

  // Steps of the loops and of Stop's waits leave units, readers and calls alone.
  lemma OtherKeeps(s: State, s': State)
    requires ReaderInv(s) && s'.t == s.t && s'.readers == s.readers && s'.journalWg == s.journalWg
    requires s'.calls == s.calls
    requires s'.stop == s.stop || !s.stop.CancellingReaders?
    ensures ReaderInv(s')
  {
    forall q | 0 <= q < |s'.readers| && s'.readers[q].status.Running?
      ensures Reachable(s', q)
    {
      assert Reachable(s, q);
      if u :| u in s.t.units && Cancels(s, s.t.units[u], q) {
        assert Cancels(s', s'.t.units[u], q);
      } else if d :| AboutToCancel(s, d, q) {
        assert AboutToCancel(s', d, q);
      }
    }
  }

  lemma BeginKeeps(s: State, e: Event)
    requires ReaderInv(s) && Enabled(s, e) && (e.BeginStream? || e.BeginRetire?)
    ensures ReaderInv(Step(s, e))
  {
    CallMoves(s, e.c, Step(s, e).calls[e.c]);
  }

  lemma StepKeepsReaders(s: State, e: Event)
    requires ReaderInv(s) && Enabled(s, e)
    ensures ReaderInv(Step(s, e))
  {
    hide ReaderInv;
    match e
    case BeginStream(_, _) => BeginKeeps(s, e);
    case BeginRetire(_, _, _) => BeginKeeps(s, e);
    case JournalOpened(c, available) => JournalOpenedKeeps(s, c, available);
    case JoinReaders(c) =>
      if StartJournalReader(s, c).calls[c].pc.Streamed? {
        JoinRefusedKeeps(s, c);
      } else {
        JoinAdmittedKeeps(s, c);
      }
    case CancelPrevious(c) => CancelPreviousKeeps(s, c);
    case ReplaceEntry(c) => ReplaceEntryKeeps(s, c);
    case CancelOld(c) => CancelOldKeeps(s, c);
    case ReaderExits(r) => ReaderExitsKeeps(s, r);
    case Seal(order) => SealKeeps(s, order);
    case CancelNext => CancelNextKeeps(s);
    case _ => OtherKeeps(s, Step(s, e));
  }

  lemma StepKeepsInv(s: State, e: Event)
    requires Inv(s) && Enabled(s, e)
    ensures Inv(Step(s, e))
  {
    hide ReaderInv, ConnInv, StopInv, Step, Enabled;
    StepKeepsReaders(s, e);
    StepKeepsConn(s, e);
    StepKeepsStop(s, e);
  }

  lemma {:induction false} RunKeepsInv(s: State, es: seq<Event>, s': State)
    requires Inv(s) && Path(s, es, s')
    ensures Inv(s')
    decreases |es|
  {
    hide Inv, Enabled, Step;
    if es != [] {
      StepKeepsInv(s, es[0]);
      RunKeepsInv(Step(s, es[0]), es[1..], s');
    }
  }

  lemma ReachableIsOk(es: seq<Event>, s: State)
    requires Path(Init, es, s)
    ensures Inv(s)
  {
    assert Inv(Init);
    RunKeepsInv(Init, es, s);
  }

  // ---- Promises ----

  /** journalWg counts exactly the readers that are running, and every one of them that is not cancelled
      is the reader of a registered unit or is about to be cancelled by the call that displaced it. */
  lemma ReadersAreAccountedFor(es: seq<Event>, s: State)
    requires Path(Init, es, s)
    ensures s.journalWg == Running(s.readers)
    ensures forall r | 0 <= r < |s.readers| && s.readers[r].status.Running? && !s.readers[r].cancelled ::
              || Attached(s, r)
              || (exists c :: AboutToCancel(s, c, r))
              || (s.stop.CancellingReaders? && r in s.stop.left)
  {
    ReachableIsOk(es, s);
    assert forall r | 0 <= r < |s.readers| && s.readers[r].status.Running? :: Reachable(s, r);
  }

  lemma SealedStep(s: State, e: Event)
    requires StopInv(s) && s.stopping && Enabled(s, e)
    ensures var s' := Step(s, e);
            && s'.stopping && |s.readers| <= |s'.readers| && s'.journalWg <= s.journalWg
            && forall r | 0 <= r < |s'.readers| && s'.readers[r].status.Running? ::
                r < |s.readers| && s.readers[r].status.Running?
  {
    hide Doubled;
  }

  /** Once Stop has sealed the manager no reader ever joins again: whoever still runs was running then. */
  lemma {:induction false} NoReaderAfterSealing(s: State, es: seq<Event>, s': State)
    requires Inv(s) && s.stopping && Path(s, es, s')
    ensures s'.stopping && |s.readers| <= |s'.readers| && s'.journalWg <= s.journalWg
    ensures forall r | 0 <= r < |s'.readers| && s'.readers[r].status.Running? ::
              r < |s.readers| && s.readers[r].status.Running?
    decreases |es|
  {
    if es != [] {
      StepKeepsInv(s, es[0]);
      SealedStep(s, es[0]);
      hide Inv, ReaderInv, ConnInv, StopInv, Enabled, Step;
      NoReaderAfterSealing(Step(s, es[0]), es[1..], s');
    }
  }

  /** Stop closes the connection only when no reader and no loop is left. */
  lemma StopClosesLast(es: seq<Event>, s: State)
    requires Path(Init, es, s) && Enabled(s, CloseConn)
    ensures s.loop == LoopExited && !s.dispatching && s.stopping
    ensures forall r | 0 <= r < |s.readers| :: !s.readers[r].status.Running?
  {
    ReachableIsOk(es, s);
    forall r | 0 <= r < |s.readers| ensures !s.readers[r].status.Running? {
      NoneRunning(s.readers, r);
    }
  }

  /** While Stop waits for the readers each one that runs may leave, and the wait is over exactly when none
      does. */
  lemma StopWaitsForTheReaders(es: seq<Event>, s: State)
    requires Path(Init, es, s) && s.stop == AwaitingReaders
    ensures forall r | 0 <= r < |s.readers| && s.readers[r].status.Running? :: Enabled(s, ReaderExits(r))
    ensures (forall r | 0 <= r < |s.readers| :: !s.readers[r].status.Running?) <==> Enabled(s, ReadersJoined)
  {
    ReachableIsOk(es, s);
    hide ConnInv, CallOk, Reachable, JoinsSame;
    forall r | 0 <= r < |s.readers| && s.journalWg == 0 ensures !s.readers[r].status.Running? {
      NoneRunning(s.readers, r);
    }
    if forall r | 0 <= r < |s.readers| :: !s.readers[r].status.Running? {
      AllIdle(s.readers);
    }
  }

  lemma {:induction false} AllIdle(readers: seq<Reader>)
    requires forall r | 0 <= r < |readers| :: !readers[r].status.Running?
    ensures Running(readers) == 0
  {
    if readers != [] {
      AllIdle(readers[..|readers| - 1]);
    }
  }

  /** Every connection ever dialled is closed exactly once, except the current one and one that is just
      being swapped in or out, which are open. */
  lemma ConnectionsAreConserved(es: seq<Event>, s: State)
    requires Path(Init, es, s)
    ensures s.conn < |s.closes|
    ensures forall i | 0 <= i < |s.closes| :: s.closes[i] == if InUse(s, i) then 0 else 1
    ensures s.backoff == Min(RECONNECT_INTERVAL * Pow2(s.failures), RECONNECT_BACKOFF_MAX)
  {
    ReachableIsOk(es, s);
    DelayIsCappedDoubling(RECONNECT_INTERVAL, RECONNECT_BACKOFF_MAX, s.failures);
  }

  /** After Stop everything is closed for good: each connection exactly once, no reader runs, and nothing
      that still happens - late registrations, late StreamLogs calls - changes that. */
  lemma {:induction false} StopIsFinal(s: State, es: seq<Event>, s': State)
    requires Inv(s) && s.stop == Stopped && Path(s, es, s')
    ensures s'.stop == Stopped && s'.conn == s.conn && s'.closes == s.closes
    ensures forall i | 0 <= i < |s'.closes| :: s'.closes[i] == 1
    ensures forall r | 0 <= r < |s'.readers| :: !s'.readers[r].status.Running?
    decreases |es|
  {
    if es == [] {
      forall r | 0 <= r < |s.readers| ensures !s.readers[r].status.Running? {
        NoneRunning(s.readers, r);
      }
    } else {
      StepKeepsInv(s, es[0]);
      StopIsFinal(Step(s, es[0]), es[1..], s');
    }
  }

  // ---- Whose readers they are ----

  // A registered unit's cancelJournal stops a reader of that unit.
  ghost predicate UnitInv(s: State) {
    && (forall u | u in s.t.units :: StopsOwnReader(s.t, s.readers, u))
    && (forall c | c in s.calls :: JoinsOwnUnit(s.readers, s.calls[c]))
  }

  predicate StopsOwnReader(t: UnitTable, readers: seq<Reader>, u: string)
    requires u in t.units
  {
    t.units[u] < |t.cancelJournal| && t.cancelJournal[t.units[u]].Some? ==>
      var r := t.cancelJournal[t.units[u]].value;
      r < |readers| && readers[r].unit == u
  }

  predicate JoinsOwnUnit(readers: seq<Reader>, call: Call) {
    call.Stream? && call.pc.Joining? ==> call.pc.r < |readers| && readers[call.pc.r].unit == call.unit
  }

  lemma JoinKeepsUnits(s: State, c: nat)
    requires s.t.Valid() && UnitInv(s) && Enabled(s, JoinReaders(c))
    ensures UnitInv(StartJournalReader(s, c))
  {
    var s', call := StartJournalReader(s, c), s.calls[c];
    assert JoinsOwnUnit(s.readers, call);
    forall u | u in s'.t.units ensures StopsOwnReader(s'.t, s'.readers, u) {
      assert StopsOwnReader(s.t, s.readers, u);
      assert u != call.unit && call.unit in s.t.units ==> s.t.units[u] != s.t.units[call.unit];
    }
    forall d | d in s'.calls ensures JoinsOwnUnit(s'.readers, s'.calls[d]) {
      assert d != c ==> JoinsOwnUnit(s.readers, s.calls[d]);
    }
  }

  lemma ReplaceKeepsUnits(s: State, c: nat)
    requires s.t.Valid() && UnitInv(s) && Enabled(s, ReplaceEntry(c))
    ensures UnitInv(Step(s, ReplaceEntry(c)))
  {
    var s', unit := Step(s, ReplaceEntry(c)), s.calls[c].unit;
    forall u | u in s'.t.units ensures StopsOwnReader(s'.t, s'.readers, u) {
      assert u != unit ==> StopsOwnReader(s.t, s.readers, u);
    }
    forall d | d in s'.calls ensures JoinsOwnUnit(s'.readers, s'.calls[d]) {
      assert d != c ==> JoinsOwnUnit(s.readers, s.calls[d]);
    }
  }

  lemma OpenKeepsUnits(s: State, c: nat, available: bool)
    requires UnitInv(s) && Enabled(s, JournalOpened(c, available))
    ensures UnitInv(Step(s, JournalOpened(c, available)))
  {
    var s' := Step(s, JournalOpened(c, available));
    forall u | u in s'.t.units ensures StopsOwnReader(s'.t, s'.readers, u) {
      assert StopsOwnReader(s.t, s.readers, u);
    }
    forall d | d in s'.calls ensures JoinsOwnUnit(s'.readers, s'.calls[d]) {
      assert d != c ==> JoinsOwnUnit(s.readers, s.calls[d]);
    }
  }

  predicate KeepsTable(e: Event) {
    !(e.JoinReaders? || e.ReplaceEntry? || e.Seal? || e.JournalOpened?)
  }

  lemma CancellingKeepsUnits(readers: seq<Reader>, q: nat)
    ensures |WithCancelled(readers, q)| == |readers|
    ensures forall r | 0 <= r < |readers| :: WithCancelled(readers, q)[r].unit == readers[r].unit
  {
  }

  lemma TableStays(s: State, e: Event)
    requires Enabled(s, e) && KeepsTable(e)
    ensures var s' := Step(s, e);
            && s'.t == s.t && |s'.readers| == |s.readers|
            && (forall r | 0 <= r < |s.readers| :: s'.readers[r].unit == s.readers[r].unit)
            && (forall c | c in s'.calls && !(c in s.calls && s'.calls[c] == s.calls[c]) ::
                  !(s'.calls[c].Stream? && s'.calls[c].pc.Joining?))
  {
    forall q ensures |WithCancelled(s.readers, q)| == |s.readers|
      ensures forall r | 0 <= r < |s.readers| :: WithCancelled(s.readers, q)[r].unit == s.readers[r].unit
    {
      CancellingKeepsUnits(s.readers, q);
    }
    hide StartJournalReader, WithCancelled;
  }

  lemma StepKeepsUnits(s: State, e: Event)
    requires s.t.Valid() && UnitInv(s) && Enabled(s, e)
    ensures UnitInv(Step(s, e))
  {
    match e
    case JoinReaders(c) => JoinKeepsUnits(s, c);
    case ReplaceEntry(c) => ReplaceKeepsUnits(s, c);
    case JournalOpened(c, available) => OpenKeepsUnits(s, c, available);
    case Seal(_) => assert Step(s, e).t.units == map[];
    case _ =>
      TableStays(s, e);
      UnitsFollow(s, Step(s, e));
  }

  lemma UnitsFollow(s: State, s': State)
    requires UnitInv(s) && s'.t == s.t && |s'.readers| == |s.readers|
    requires forall r | 0 <= r < |s.readers| :: s'.readers[r].unit == s.readers[r].unit
    requires forall c | c in s'.calls && !(c in s.calls && s'.calls[c] == s.calls[c]) ::
               !(s'.calls[c].Stream? && s'.calls[c].pc.Joining?)
    ensures UnitInv(s')
  {
    forall u | u in s'.t.units ensures StopsOwnReader(s'.t, s'.readers, u) {
      assert StopsOwnReader(s.t, s.readers, u);
    }
  }

  lemma {:induction false} RunKeepsUnits(s: State, es: seq<Event>, s': State)
    requires Inv(s) && UnitInv(s) && Path(s, es, s')
    ensures UnitInv(s')
    decreases |es|
  {
    if es != [] {
      StepKeepsInv(s, es[0]);
      StepKeepsUnits(s, es[0]);
      hide Inv, UnitInv, Enabled, Step;
      RunKeepsUnits(Step(s, es[0]), es[1..], s');
    }
  }

  // Running, not cancelled, and nobody is on the way to cancelling it.
  ghost predicate Settled(s: State, r: nat) {
    && r < |s.readers| && s.readers[r].status.Running? && !s.readers[r].cancelled
    && (forall c :: !AboutToCancel(s, c, r))
    && !(s.stop.CancellingReaders? && r in s.stop.left)
  }

  lemma SettledReadersAreRegistered(s: State)
    requires Inv(s) && UnitInv(s)
    ensures forall r: nat | Settled(s, r) ::
              s.readers[r].unit in s.t.units && Cancels(s, s.t.units[s.readers[r].unit], r)
  {
    forall r: nat | Settled(s, r)
      ensures s.readers[r].unit in s.t.units && Cancels(s, s.t.units[s.readers[r].unit], r)
    {
      assert Reachable(s, r);
      var u :| u in s.t.units && Cancels(s, s.t.units[u], r);
    }
  }

  /** A unit has at most one reader that nobody has cancelled or is about to, and it has none unless it is
      registered. */
  lemma OneReaderPerUnit(es: seq<Event>, s: State)
    requires Path(Init, es, s)
    ensures forall r: nat | Settled(s, r) ::
              s.readers[r].unit in s.t.units && Cancels(s, s.t.units[s.readers[r].unit], r)
    ensures forall q: nat, r: nat | Settled(s, q) && Settled(s, r) && s.readers[q].unit == s.readers[r].unit :: q == r
  {
    ReachableIsOk(es, s);
    assert Inv(Init) && UnitInv(Init);
    RunKeepsUnits(Init, es, s);
    hide Inv, UnitInv;
    SettledReadersAreRegistered(s);
  }
}
