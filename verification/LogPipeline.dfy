/** One unit's log pipeline: the journal reader of Manager.StreamLogs, the handler's buffered channel and
    the goroutine that writes entries out (pkg/systemd/journal.go and pkg/task/logs.go). */
module LogPipeline {
  import opened Options
  import opened Backoff

  datatype LogEntry = LogEntry(message: string, priority: string, identifier: string, timestamp: int)

  // A journald record: its fields and its receipt time.
  datatype Record = Record(fields: map<string, string>, realtimeUsec: nat)

  function Field(r: Record, name: string): string {
    if name in r.fields then r.fields[name] else ""
  }

  /** The entry that a record is delivered as. */
  predicate EntryOf(r: Record, e: LogEntry) {
    && "MESSAGE" in r.fields && e.message == r.fields["MESSAGE"]
    && (if "PRIORITY" in r.fields then e.priority == r.fields["PRIORITY"] else e.priority == "")
    && (if "SYSLOG_IDENTIFIER" in r.fields then e.identifier == r.fields["SYSLOG_IDENTIFIER"] else e.identifier == "")
    && (r.realtimeUsec * 1000 <= 0x7FFF_FFFF_FFFF_FFFF ==> e.timestamp == r.realtimeUsec * 1000)
  }

  // A record without MESSAGE is skipped. The conversion of the timestamp wraps like Go's.
  function Eligible(r: Record): (e: Option<LogEntry>)
    ensures e.Some? <==> "MESSAGE" in r.fields
    ensures e.Some? ==> EntryOf(r, e.value)
  {
    if "MESSAGE" !in r.fields then None
    else Some(LogEntry(r.fields["MESSAGE"], Field(r, "PRIORITY"), Field(r, "SYSLOG_IDENTIFIER"),
                       Int64(Int64(r.realtimeUsec) * 1000)))
  }

  const LOG_CHANNEL_SIZE: nat := 100

  datatype ReaderPc = Top | Advancing | BackingOff | AwaitingNew | Fetching | Sending(entry: LogEntry) | Done

  datatype State = State(
    reader: ReaderPc,
    cancelled: bool,                 // unitCtx
    errBackoff: int,
    failures: nat,                   // history: failed advances in a row
    buffer: seq<LogEntry>,           // logCh
    writing: bool,                   // the writer still listens
    stopped: bool,                   // the handler's ctx
    stdout: seq<string>, stderr: seq<string>, separate: bool,   // separate: stderr could be opened
    fetched: seq<LogEntry>,          // history: eligible records read from the journal
    handed: seq<LogEntry>,           // history: entries handed to the writer
    dropped: Option<LogEntry>)       // history: the entry given up at cancellation

  datatype Event =
    | Cancel | StopHandler
    | LoopTop | NextFails | NextEmpty | NextFound | BackoffOver | BackoffCut | WaitOver
    | FetchFails | Fetch(record: Record) | Send | SendCut
    | Take | Listen

  // open: stdout could be opened, within its five attempts. If not, nobody ever takes from the channel.
  function New(open: bool, separate: bool): State {
    State(Top, false, JOURNAL_BACKOFF_MIN, 0, [], open, false, [], [], separate, [], [], None)
  }

  predicate ReaderEvent(e: Event) {
    !e.Cancel? && !e.StopHandler? && !e.Take? && !e.Listen?
  }

  predicate Enabled(s: State, e: Event) {
    match e
    case Cancel => true
    case StopHandler => true
    case LoopTop => s.reader == Top
    case NextFails => s.reader == Advancing
    case NextEmpty => s.reader == Advancing
    case NextFound => s.reader == Advancing
    case BackoffOver => s.reader == BackingOff
    case BackoffCut => s.reader == BackingOff && s.cancelled
    case WaitOver => s.reader == AwaitingNew
    case FetchFails => s.reader == Fetching
    case Fetch(_) => s.reader == Fetching
    case Send => s.reader.Sending? && |s.buffer| < LOG_CHANNEL_SIZE
    case SendCut => s.reader.Sending? && s.cancelled
    case Take => s.writing && s.buffer != []
    case Listen => s.writing && s.stopped
  }

  function Step(s: State, e: Event): State
    requires Enabled(s, e)
  {
    match e
    case Cancel => s.(cancelled := true)
    case StopHandler => s.(stopped := true)
    // The select's default is taken only while the context is live.
    case LoopTop => s.(reader := if s.cancelled then Done else Advancing)
    case NextFails => s.(reader := BackingOff)
    case BackoffOver =>
      s.(reader := Top, errBackoff := Doubled(s.errBackoff, JOURNAL_BACKOFF_MAX), failures := s.failures + 1)
    case BackoffCut => s.(reader := Done)
    case NextEmpty => s.(reader := AwaitingNew, errBackoff := JOURNAL_BACKOFF_MIN, failures := 0)
    case NextFound => s.(reader := Fetching, errBackoff := JOURNAL_BACKOFF_MIN, failures := 0)
    case WaitOver => s.(reader := Top)
    case FetchFails => s.(reader := Top)
    case Fetch(record) =>
      var entry := Eligible(record);
      if entry.None? then s.(reader := Top)
      else s.(reader := Sending(entry.value), fetched := s.fetched + [entry.value])
    case Send => s.(reader := Top, buffer := s.buffer + [s.reader.entry])
    case SendCut => s.(reader := Done, dropped := Some(s.reader.entry))
    case Take => Write(s.(buffer := s.buffer[1..]), s.buffer[0])
    case Listen => s.(writing := false)
  }

  // writeLogEntry.
  predicate IsError(entry: LogEntry): (error: bool)
    ensures error <==> entry.priority in {"0", "1", "2", "3"}
  {
    entry.priority == "0" || entry.priority == "1" || entry.priority == "2" || entry.priority == "3"
  }

  function LevelName(priority: string): string {
    if priority == "0" then "EMERG" else if priority == "1" then "ALERT" else if priority == "2" then "CRIT"
    else if priority == "3" then "ERR" else if priority == "4" then "WARN" else if priority == "5" then "NOTICE"
    else if priority == "6" then "INFO" else if priority == "7" then "DEBUG" else "UNKNOWN"
  }

  // The name of a syslog priority.
  predicate Named(priority: string, level: string) {
    || (priority == "0" && level == "EMERG")
    || (priority == "1" && level == "ALERT")
    || (priority == "2" && level == "CRIT")
    || (priority == "3" && level == "ERR")
    || (priority == "4" && level == "WARN")
    || (priority == "5" && level == "NOTICE")
    || (priority == "6" && level == "INFO")
    || (priority == "7" && level == "DEBUG")
    || (priority !in {"0", "1", "2", "3", "4", "5", "6", "7"} && level == "UNKNOWN")
  }

  /** The line for a message: its level, its identifier if it has one, and the text. */
  ghost predicate Renders(line: string, priority: string, identifier: string, message: string) {
    exists level | Named(priority, level) ::
      line == if identifier == "" then "[" + level + "] " + message + "\n"
              else "[" + level + "] [" + identifier + "] " + message + "\n"
  }

  function Line(entry: LogEntry): (line: string)
    ensures Renders(line, entry.priority, entry.identifier, entry.message)
  {
    assert Named(entry.priority, LevelName(entry.priority));
    "[" + LevelName(entry.priority) + "] "
    + (if entry.identifier != "" then "[" + entry.identifier + "] " else "")
    + entry.message + "\n"
  }

  function Write(s: State, entry: LogEntry): State {
    var next := s.(handed := s.handed + [entry]);
    if IsError(entry) && s.separate then next.(stderr := s.stderr + [Line(entry)])
    else next.(stdout := s.stdout + [Line(entry)])
  }

  ghost predicate Path(s: State, es: seq<Event>, s': State)
    decreases |es|
  {
    if es == [] then s' == s
    else Enabled(s, es[0]) && Path(Step(s, es[0]), es[1..], s')
  }

  // ---- Conservation ----

  // The entry the reader has in hand, or gave up.
  function InFlight(s: State): seq<LogEntry> {
    if s.reader.Sending? then [s.reader.entry]
    else if s.dropped.Some? then [s.dropped.value]
    else []
  }

  // The lines of the entries that go to one of the two streams, in order.
  function Lines(entries: seq<LogEntry>, errors: bool): seq<string> {
    if entries == [] then []
    else
      var last := entries[|entries| - 1];
      Lines(entries[..|entries| - 1], errors) + if IsError(last) == errors then [Line(last)] else []
  }

  function AllLines(entries: seq<LogEntry>): seq<string> {
    seq(|entries|, i requires 0 <= i < |entries| => Line(entries[i]))
  }

  ghost predicate Inv(s: State) {
    && s.fetched == s.handed + s.buffer + InFlight(s)
    && |s.buffer| <= LOG_CHANNEL_SIZE
    && (s.dropped.Some? ==> s.reader == Done)
    && (s.reader == Done ==> s.cancelled)
    && s.errBackoff == Delay(JOURNAL_BACKOFF_MIN, JOURNAL_BACKOFF_MAX, s.failures)
    && (if s.separate then s.stdout == Lines(s.handed, false) && s.stderr == Lines(s.handed, true)
        else s.stdout == AllLines(s.handed) && s.stderr == [])
  }

  lemma HandOver(entries: seq<LogEntry>, entry: LogEntry)
    ensures AllLines(entries + [entry]) == AllLines(entries) + [Line(entry)]
    ensures forall errors ::
              Lines(entries + [entry], errors) ==
              Lines(entries, errors) + if IsError(entry) == errors then [Line(entry)] else []
  {
    assert (entries + [entry])[..|entries|] == entries;
  }

  lemma TakeMoves(s: State)
    requires Enabled(s, Take)
    ensures var s', entry := Step(s, Take), s.buffer[0];
            && s'.handed == s.handed + [entry] && s'.buffer == s.buffer[1..]
                && s'.handed + s'.buffer == s.handed + s.buffer
            && s'.reader == s.reader && s'.dropped == s.dropped && s'.fetched == s.fetched
                && s'.cancelled == s.cancelled
            && s'.errBackoff == s.errBackoff && s'.failures == s.failures && s'.separate == s.separate
            && (if s.separate && IsError(entry) then s'.stderr == s.stderr + [Line(entry)] && s'.stdout == s.stdout
                else s'.stdout == s.stdout + [Line(entry)] && s'.stderr == s.stderr)
  {
    hide Line, Named, Renders;
    assert s.buffer == [s.buffer[0]] + s.buffer[1..];
  }

  lemma TakeKeepsInv(s: State)
    requires Inv(s) && Enabled(s, Take)
    ensures Inv(Step(s, Take))
  {
    hide Step, Lines, AllLines, Delay, Line, Named, Renders;
    HandOver(s.handed, s.buffer[0]);
    TakeMoves(s);
  }

  lemma SendKeepsInv(s: State)
    requires Inv(s) && Enabled(s, Send)
    ensures Inv(Step(s, Send))
  {
    var s' := Step(s, Send);
    assert s'.handed + s'.buffer + InFlight(s') == s.handed + s.buffer + InFlight(s);
  }

  lemma StepKeepsInv(s: State, e: Event)
    requires Inv(s) && Enabled(s, e)
    ensures Inv(Step(s, e))
  {
    match e
    case Take => TakeKeepsInv(s);
    case Send => SendKeepsInv(s);
    case _ => hide Lines, AllLines, Doubled;
  }

  lemma {:induction false} RunKeepsInv(s: State, es: seq<Event>, s': State)
    requires Inv(s) && Path(s, es, s')
    ensures Inv(s')
    decreases |es|
  {
    if es != [] {
      StepKeepsInv(s, es[0]);
      RunKeepsInv(Step(s, es[0]), es[1..], s');
    }
  }

  /** Nothing is lost, duplicated or reordered: at every moment the eligible records read are those handed
      to the writer, then those buffered, never more than 100, then at most one that is being sent or was
      given up at cancellation. What was handed over has reached its stream in order: error priorities on
      stderr and the rest on stdout, or all on stdout when stderr could not be opened. */
  lemma LogsAreConserved(open: bool, separate: bool, es: seq<Event>, s: State)
    requires Path(New(open, separate), es, s)
    ensures s.fetched == s.handed + s.buffer + InFlight(s) && |InFlight(s)| <= 1 && |s.buffer| <= 100
    ensures s.dropped.Some? ==> s.reader == Done && s.cancelled
    ensures if separate then s.stdout == Lines(s.handed, false) && s.stderr == Lines(s.handed, true)
            else s.stdout == AllLines(s.handed) && s.stderr == []
    ensures s.errBackoff == Min(JOURNAL_BACKOFF_MIN * Pow2(s.failures), JOURNAL_BACKOFF_MAX)
  {
    RunKeepsInv(New(open, separate), es, s);
    DelayIsCappedDoubling(JOURNAL_BACKOFF_MIN, JOURNAL_BACKOFF_MAX, s.failures);
    SeparateIsFixed(New(open, separate), es, s);
  }

  lemma {:induction false} SeparateIsFixed(s: State, es: seq<Event>, s': State)
    requires Path(s, es, s')
    ensures s'.separate == s.separate
    decreases |es|
  {
    if es != [] {
      SeparateIsFixed(Step(s, es[0]), es[1..], s');
    }
  }

  // ---- From the record to its stream ----

  // The journal's records are only ever added to what was fetched.
  lemma {:induction false} FetchedGrows(s: State, es: seq<Event>, s': State)
    requires Path(s, es, s')
    ensures s.fetched <= s'.fetched && s'.separate == s.separate
    decreases |es|
  {
    if es != [] {
      FetchedStep(s, es[0]);
      hide Step, Enabled;
      FetchedGrows(Step(s, es[0]), es[1..], s');
    }
  }

  lemma FetchedStep(s: State, e: Event)
    requires Enabled(s, e)
    ensures s.fetched <= Step(s, e).fetched && Step(s, e).separate == s.separate
  {
    hide Doubled, Line, Renders, Eligible;
  }

  lemma {:induction false} SplitRun(s: State, es: seq<Event>, s': State, k: nat) returns (mid: State)
    requires Path(s, es, s') && k <= |es|
    ensures Path(s, es[..k], mid) && Path(mid, es[k..], s')
    decreases k
  {
    if k == 0 {
      mid := s;
    } else {
      mid := SplitRun(Step(s, es[0]), es[1..], s', k - 1);
      assert es[..k] == [es[0]] + es[1..][..k - 1];
      assert es[k..] == es[1..][k - 1..];
    }
  }

  lemma {:induction false} LineIsThere(entries: seq<LogEntry>, p: nat)
    requires p < |entries|
    ensures Line(entries[p]) in Lines(entries, IsError(entries[p]))
  {
    hide Line, Renders;
    if p < |entries| - 1 {
      LineIsThere(entries[..|entries| - 1], p);
    }
  }

  // A line for record r.
  ghost predicate Shows(line: string, r: Record) {
    "MESSAGE" in r.fields && Renders(line, Field(r, "PRIORITY"), Field(r, "SYSLOG_IDENTIFIER"), r.fields["MESSAGE"])
  }

  /** Every record with a MESSAGE that the reader fetches is delivered as that record: it is the p-th entry that is
      fetched, and once the writer has been handed that many and one, its line is on stderr, for a priority of 0 to
      3 when stderr could be opened, and on stdout otherwise. */
  lemma RecordsReachTheirStream(open: bool, separate: bool, es: seq<Event>, s: State, k: nat, record: Record)
      returns (p: nat, line: string)
    requires Path(New(open, separate), es, s) && k < |es| && es[k] == Fetch(record) && "MESSAGE" in record.fields
    ensures p < |s.fetched| && EntryOf(record, s.fetched[p])
    ensures p < |s.handed| ==>
              && Shows(line, record)
              && if separate && Field(record, "PRIORITY") in {"0", "1", "2", "3"} then line in s.stderr
                  else line in s.stdout
  {
    var before := SplitRun(New(open, separate), es, s, k);
    assert es[k..][0] == Fetch(record);
    var after := Step(before, Fetch(record));
    assert after.fetched == before.fetched + [Eligible(record).value];
    p := |before.fetched|;
    FetchedGrows(after, es[k..][1..], s);
    RunKeepsInv(New(open, separate), es, s);
    FetchedGrows(New(open, separate), es, s);
    line := Line(s.fetched[p]);
    if p < |s.handed| {
      LineIsThere(s.handed, p);
      AllLinesAreThere(s.handed, p);
    }
  }

  lemma AllLinesAreThere(entries: seq<LogEntry>, p: nat)
    requires p < |entries|
    ensures Line(entries[p]) in AllLines(entries)
  {
    assert AllLines(entries)[p] == Line(entries[p]);
  }

  // ---- The backoff ----

  // How many failed advances have been waited out in a row, at the end of a run.
  function FailuresInARow(es: seq<Event>): nat {
    if es == [] then 0
    else match es[|es| - 1]
      case BackoffOver => FailuresInARow(es[..|es| - 1]) + 1
      case NextEmpty => 0
      case NextFound => 0
      case _ => FailuresInARow(es[..|es| - 1])
  }

  lemma FailureStep(s: State, e: Event)
    requires Enabled(s, e)
    ensures Step(s, e).failures == if e == BackoffOver then s.failures + 1 else if e == NextEmpty || e == NextFound
              then 0 else s.failures
  {
    hide Doubled, Line, Renders, Eligible;
  }

  lemma {:induction false} FailuresAreCounted(s: State, es: seq<Event>, s': State)
    requires Path(s, es, s') && s.failures == 0
    ensures s'.failures == FailuresInARow(es)
    decreases |es|
  {
    if es != [] {
      var n := |es| - 1;
      var mid := SplitRun(s, es, s', n);
      FailuresAreCounted(s, es[..n], mid);
      assert es[n..] == [es[n]] && [es[n]][1..] == [];
      FailureStep(mid, es[n]);
    }
  }

  /** The reader's delay is half a second doubled for each failure in a row, capped at five seconds, and half a second
      again after any advance that succeeds. */
  lemma JournalBackoff(open: bool, separate: bool, es: seq<Event>, s: State)
    requires Path(New(open, separate), es, s)
    ensures s.errBackoff == Min(500_000_000 * Pow2(FailuresInARow(es)), 5_000_000_000)
  {
    LogsAreConserved(open, separate, es, s);
    FailuresAreCounted(New(open, separate), es, s);
  }

  // ---- Termination ----

  // Reader steps left once it is cancelled, and how many of them can be a send.
  function StepsLeft(s: State): nat {
    match s.reader
    case Done => 0
    case Top => 1
    case Advancing => 4
    case Fetching => 3
    case _ => 2
  }

  function SendsLeft(s: State): nat {
    if s.reader.Advancing? || s.reader.Fetching? || s.reader.Sending? then 1 else 0
  }

  function Count(es: seq<Event>, p: Event -> bool): nat {
    if es == [] then 0 else (if p(es[0]) then 1 else 0) + Count(es[1..], p)
  }

  predicate IsSend(e: Event) { e == Send }

  predicate IsLoopTop(e: Event) { e == LoopTop }

  lemma CancelledStepCounts(s: State, e: Event)
    requires s.cancelled && Enabled(s, e)
    ensures var s' := Step(s, e);
            && s'.cancelled
            && (if ReaderEvent(e) then StepsLeft(s') < StepsLeft(s) else s'.reader == s.reader)
            && (if IsSend(e) then SendsLeft(s') < SendsLeft(s) else SendsLeft(s') <= SendsLeft(s))
            && (IsLoopTop(e) ==> s'.reader == Done)
  {
    hide Doubled;
  }

  /** From any point of its loop, a cancelled reader takes at most four more steps, delivers at most one
      more record and passes the top of its loop at most once, to end there, whatever the journal answers
      and however full the channel is. */
  lemma {:induction false} CancelledReaderStops(s: State, es: seq<Event>, s': State)
    requires s.cancelled && Path(s, es, s')
    ensures s'.cancelled
    ensures Count(es, ReaderEvent) + StepsLeft(s') <= StepsLeft(s) <= 4
    ensures Count(es, IsSend) + SendsLeft(s') <= SendsLeft(s) <= 1
    ensures Count(es, IsLoopTop) <= 1
    decreases |es|
  {
    if es != [] {
      var next := Step(s, es[0]);
      CancelledStepCounts(s, es[0]);
      hide Step, Enabled;
      CancelledReaderStops(next, es[1..], s');
      if es[0] == LoopTop {
        DoneReaderRests(next, es[1..], s');
      }
    }
  }

  lemma {:induction false} DoneReaderRests(s: State, es: seq<Event>, s': State)
    requires s.reader == Done && Path(s, es, s')
    ensures s'.reader == Done && Count(es, IsLoopTop) == 0
    decreases |es|
  {
    if es != [] {
      DoneReaderRests(Step(s, es[0]), es[1..], s');
    }
  }

  /** ... and nobody has to help it: until it is done it has a step of its own, even with nobody reading
      the channel, which without a cancellation would block it exactly when the channel is full. */
  lemma ReaderBlocksOnlyOnAFullChannel(s: State)
    requires s.reader != Done
    ensures (exists e :: ReaderEvent(e) && Enabled(s, e)) <==>
            !(s.reader.Sending? && |s.buffer| >= LOG_CHANNEL_SIZE && !s.cancelled)
  {
    match s.reader
    case Top => assert ReaderEvent(LoopTop) && Enabled(s, LoopTop);
    case Advancing => assert ReaderEvent(NextEmpty) && Enabled(s, NextEmpty);
    case BackingOff => assert ReaderEvent(BackoffOver) && Enabled(s, BackoffOver);
    case AwaitingNew => assert ReaderEvent(WaitOver) && Enabled(s, WaitOver);
    case Fetching => assert ReaderEvent(FetchFails) && Enabled(s, FetchFails);
    case Sending(_) => assert ReaderEvent(Send) && ReaderEvent(SendCut) && (Enabled(s, SendCut) <==> s.cancelled);
  }

  // ---- The writer's end ----

  predicate WriterEvent(e: Event) { e == Take || e == Listen }

  predicate IsTake(e: Event) { e == Take }

  function Writers(s: State): nat {
    if s.writing then 1 else 0
  }

  lemma WriterStepCounts(s: State, e: Event)
    requires Enabled(s, e)
    ensures var s' := Step(s, e);
            && (s.stopped ==> s'.stopped)
            && (if WriterEvent(e) then 1 else 0) + Writers(s') == (if IsTake(e) then 1 else 0) + Writers(s)
            && |s'.buffer| + (if IsTake(e) then 1 else 0) == |s.buffer| + if IsSend(e) then 1 else 0
  {
    hide Line, IsError, Doubled, Eligible, Int64;
  }

  /** On every run the writer takes one step more than the entries it takes, at the most, and those are at most
      what was buffered and what is sent meanwhile. While it still listens and its handler is stopped, it has
      the step that ends it, even if there is always another entry to take. */
  lemma {:induction false} StoppedWriterRunsOut(s: State, es: seq<Event>, s': State)
    requires Path(s, es, s')
    ensures (s.stopped ==> s'.stopped)
    ensures Count(es, WriterEvent) + Writers(s') == Count(es, IsTake) + Writers(s)
    ensures Count(es, IsTake) + |s'.buffer| == |s.buffer| + Count(es, IsSend)
    ensures s.stopped && s'.writing ==> Enabled(s', Listen)
    decreases |es|
  {
    if es != [] {
      WriterStepCounts(s, es[0]);
      hide Step, Enabled, WriterEvent, IsTake, IsSend, Writers;
      StoppedWriterRunsOut(Step(s, es[0]), es[1..], s');
    }
  }

  /** So a stopped writer ends: it has on every run that goes on until it can take no further step. */
  lemma StoppedWriterEnds(s: State, es: seq<Event>, s': State)
    requires s.stopped && Path(s, es, s')
    requires forall e | WriterEvent(e) :: !Enabled(s', e)
    ensures !s'.writing
  {
    StoppedWriterRunsOut(s, es, s');
    assert WriterEvent(Listen);
  }
}
