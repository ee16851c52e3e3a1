/** The Manager's concurrent machinery (pkg/systemd/systemd.go, journal.go and unit.go): journal readers
    being registered, displaced and cancelled, the reconnect loop replacing the connection, and Stop,
    interleaved at every critical section, wait and cancellation. */
module Managers {
  import opened Options
  import opened UnitTables
  import opened Backoff

  // A reader's context exists from Made on; it is counted by journalWg while Running.
  datatype ReaderStatus = Made | Running | Done | Abandoned

  // unit: what its StreamLogs call was for.
  datatype Reader = Reader(status: ReaderStatus, cancelled: bool, unit: string)

  datatype LoopPc =
    | Sleeping | Checking | Dialing | Adopting(dialed: nat) | ClosingOld(replaced: nat) | Refreshing | LoopExited

  datatype StreamPc = Opening | Joining(r: nat) | Displacing(previous: Option<nat>) | Streamed(ok: bool)

  datatype RetirePc = Replacing | CancellingOld(o: Option<nat>) | Retired

  datatype Call =
    | Stream(unit: string, pc: StreamPc)                     // StreamLogs, after its first look
    | Retire(unit: string, registering: bool, rpc: RetirePc) // RegisterUnit and UnregisterUnit

  datatype StopPc =
    | NotStopping | AwaitingLoops | Sealing | CancellingReaders(left: seq<nat>) | AwaitingReaders
    | ClosingConn | Stopped

  datatype State = State(
    t: UnitTable, stopping: bool, journalWg: nat, readers: seq<Reader>,
    ctxDone: bool, dispatching: bool,
    loop: LoopPc, backoff: int, failures: nat,
    conn: nat, closes: seq<nat>,           // every connection dialled, by order: how often it was closed
    calls: map<nat, Call>, stop: StopPc)

  datatype Event =
    | BeginStream(c: nat, unit: string) | BeginRetire(c: nat, unit: string, registering: bool)
    | JournalOpened(c: nat, available: bool) | JoinReaders(c: nat) | CancelPrevious(c: nat)
    | ReplaceEntry(c: nat) | CancelOld(c: nat)
    | ReaderExits(r: nat)
    | ParentCancelled | DispatchExits
    | LoopTick | LoopExits | Checked(healthy: bool) | Dialed(up: bool) | SwapConn | CloseOld | Refreshed
    | BeginStop | LoopsJoined | Seal(order: seq<nat>) | CancelNext | ReadersJoined | CloseConn

  // A manager just started: connected, nothing registered, both loops running.
  const Init := State(NoUnits, false, 0, [], false, true, Sleeping, RECONNECT_INTERVAL, 0, 0, [0], map[], NotStopping)

  predicate StreamAt(s: State, c: nat) {
    c in s.calls && s.calls[c].Stream?
  }

  predicate RetireAt(s: State, c: nat) {
    c in s.calls && s.calls[c].Retire?
  }

  predicate Cancellable(s: State, r: nat) {
    exists u | u in s.t.units :: s.t.units[u] < |s.t.cancelJournal| && s.t.cancelJournal[s.t.units[u]] == Some(r)
  }

  // The cancels Stop collects from the table, in whatever order the map yields them.
  predicate Collected(s: State, order: seq<nat>) {
    && (forall r | r in order :: Cancellable(s, r))
    && (forall u | u in s.t.units && s.t.units[u] < |s.t.cancelJournal| && s.t.cancelJournal[s.t.units[u]].Some? ::
          s.t.cancelJournal[s.t.units[u]].value in order)
  }

  predicate Enabled(s: State, e: Event) {
    match e
    case BeginStream(c, unit) => c !in s.calls
    case BeginRetire(c, _, _) => c !in s.calls
    case JournalOpened(c, _) => StreamAt(s, c) && s.calls[c].pc.Opening?
    case JoinReaders(c) => StreamAt(s, c) && s.calls[c].pc.Joining? && s.calls[c].pc.r < |s.readers|
    case CancelPrevious(c) => StreamAt(s, c) && s.calls[c].pc.Displacing?
    case ReplaceEntry(c) => RetireAt(s, c) && s.calls[c].rpc.Replacing?
    case CancelOld(c) => RetireAt(s, c) && s.calls[c].rpc.CancellingOld?
    // A reader leaves its loop only when its context, or the manager's above it, is done.
    case ReaderExits(r) =>
      && r < |s.readers| && s.readers[r].status == Running && (s.readers[r].cancelled || s.ctxDone)
      && s.journalWg > 0
    case ParentCancelled => true
    case DispatchExits => s.dispatching && s.ctxDone
    case LoopTick => s.loop == Sleeping
    case LoopExits => s.loop == Sleeping && s.ctxDone
    case Checked(_) => s.loop == Checking
    case Dialed(_) => s.loop == Dialing
    case SwapConn => s.loop.Adopting?
    case CloseOld => s.loop.ClosingOld? && s.loop.replaced < |s.closes|
    case Refreshed => s.loop == Refreshing
    case BeginStop => s.stop == NotStopping
    case LoopsJoined => s.stop == AwaitingLoops && s.loop == LoopExited && !s.dispatching
    case Seal(order) => s.stop == Sealing && Collected(s, order)
    case CancelNext => s.stop.CancellingReaders?
    case ReadersJoined => s.stop == AwaitingReaders && s.journalWg == 0
    case CloseConn => s.stop == ClosingConn && s.conn < |s.closes|
  }

  function WithCancelled(readers: seq<Reader>, r: nat): seq<Reader> {
    if r < |readers| then readers[r := readers[r].(cancelled := true)] else readers
  }

  function WithCall(s: State, c: nat, call: Call): State {
    s.(calls := s.calls[c := call])
  }

  function Step(s: State, e: Event): State
    requires Enabled(s, e)
  {
    match e
    case BeginStream(c, unit) =>
      WithCall(s, c, Stream(unit, if unit in s.t.units then Opening else Streamed(false)))
    case BeginRetire(c, unit, registering) => WithCall(s, c, Retire(unit, registering, Replacing))
    case JournalOpened(c, available) =>
      if !available then WithCall(s, c, s.calls[c].(pc := Streamed(false)))
      else WithCall(s.(readers := s.readers + [Reader(Made, false, s.calls[c].unit)]),
                    c, s.calls[c].(pc := Joining(|s.readers|)))
    case JoinReaders(c) => StartJournalReader(s, c)
    case CancelPrevious(c) =>
      var previous := s.calls[c].pc.previous;
      WithCall(s.(readers := if previous.Some? then WithCancelled(s.readers, previous.value) else s.readers),
               c, s.calls[c].(pc := Streamed(true)))
    case ReplaceEntry(c) =>
      var call := s.calls[c];
      WithCall(s.(t := if call.registering then Register(s.t, call.unit) else Unregister(s.t, call.unit)),
               c, call.(rpc := CancellingOld(s.t.Lookup(call.unit))))
    case CancelOld(c) =>
      // The entry's reader is looked up now, outside the lock.
      var o := s.calls[c].rpc.o;
      var r := if o.Some? && o.value < |s.t.cancelJournal| then s.t.cancelJournal[o.value] else None;
      WithCall(s.(readers := if r.Some? then WithCancelled(s.readers, r.value) else s.readers),
               c, s.calls[c].(rpc := Retired))
    case ReaderExits(r) => s.(readers := s.readers[r := s.readers[r].(status := Done)], journalWg := s.journalWg - 1)
    case ParentCancelled => s.(ctxDone := true)
    case DispatchExits => s.(dispatching := false)
    case LoopTick => s.(loop := Checking)
    case LoopExits => s.(loop := LoopExited)
    case Checked(healthy) =>
      if healthy then s.(loop := Sleeping, backoff := RECONNECT_INTERVAL, failures := 0) else s.(loop := Dialing)
    case Dialed(up) =>
      if up then s.(loop := Adopting(|s.closes|), closes := s.closes + [0])
      else s.(loop := Sleeping, backoff := Doubled(s.backoff, RECONNECT_BACKOFF_MAX), failures := s.failures + 1)
    case SwapConn => s.(conn := s.loop.dialed, loop := ClosingOld(s.conn))
    case CloseOld => s.(closes := s.closes[s.loop.replaced := s.closes[s.loop.replaced] + 1], loop := Refreshing)
    case Refreshed => s.(loop := Sleeping, backoff := RECONNECT_INTERVAL, failures := 0)
    case BeginStop => s.(ctxDone := true, stop := AwaitingLoops)
    case LoopsJoined => s.(stop := Sealing)
    case Seal(order) => s.(stopping := true, t := Emptied(s.t), stop := CancellingReaders(order))
    case CancelNext =>
      var left := s.stop.left;
      if left == [] then s.(stop := AwaitingReaders)
      else s.(readers := WithCancelled(s.readers, left[0]), stop := CancellingReaders(left[1..]))
    case ReadersJoined => s.(stop := ClosingConn)
    case CloseConn => s.(closes := s.closes[s.conn := s.closes[s.conn] + 1], stop := Stopped)
  }

  // startJournalReader's critical section; a reader that is refused is cancelled and abandoned.
  function StartJournalReader(s: State, c: nat): State
    requires Enabled(s, JoinReaders(c))
  {
    var call, r := s.calls[c], s.calls[c].pc.r;
    if s.stopping || call.unit !in s.t.units || s.t.units[call.unit] >= |s.t.cancelJournal| then
      WithCall(s.(readers := s.readers[r := s.readers[r].(status := Abandoned, cancelled := true)]),
               c, call.(pc := Streamed(false)))
    else
      var o := s.t.units[call.unit];
      WithCall(s.(t := s.t.(cancelJournal := s.t.cancelJournal[o := Some(r)]),
                  journalWg := s.journalWg + 1,
                  readers := s.readers[r := s.readers[r].(status := Running)]),
               c, call.(pc := Displacing(s.t.cancelJournal[o])))
  }

  ghost predicate Path(s: State, es: seq<Event>, s': State)
    decreases |es|
  {
    if es == [] then s' == s
    else Enabled(s, es[0]) && Path(Step(s, es[0]), es[1..], s')
  }
}
