/** The two ends of the log pipeline in program order: the journal reader's loop (pkg/systemd/journal.go) and
    the handler's writer (pkg/task/logs.go). Between any two of their steps Interfere lets the other end,
    cancellations and Stop run as they like. */
module LogObjects {
  import opened Options
  import opened Backoff
  import opened LogPipeline
  import opened Schedules

  ghost predicate Reaches(s: State, s': State) {
    exists es :: Path(s, es, s')
  }

  lemma {:induction false} PathsCompose(s: State, es: seq<Event>, mid: State, fs: seq<Event>, s': State)
    requires Path(s, es, mid) && Path(mid, fs, s')
    ensures Path(s, es + fs, s')
    decreases |es|
  {
    hide Step, Enabled;
    if es == [] {
      assert es + fs == fs;
    } else {
      PathsCompose(Step(s, es[0]), es[1..], mid, fs, s');
      assert (es + fs)[1..] == es[1..] + fs;
    }
  }

  // A sound state that the machine can get to from s.
  ghost predicate After(s: State, s': State) {
    Inv(s') && Reaches(s, s')
  }

  lemma Section(s: State, e: Event)
    requires Inv(s) && Enabled(s, e)
    ensures After(s, Step(s, e))
  {
    StepKeepsInv(s, e);
    hide Inv, Step, Enabled;
    assert Path(Step(s, e), [], Step(s, e));
    assert [e][1..] == [];
    assert Path(s, [e], Step(s, e));
  }

  lemma Then(s: State, mid: State, s': State)
    requires After(s, mid) && After(mid, s')
    ensures After(s, s')
  {
    var es :| Path(s, es, mid);
    var fs :| Path(mid, fs, s');
    PathsCompose(s, es, mid, fs, s');
  }

  lemma Still(s: State)
    requires Inv(s)
    ensures After(s, s)
  {
    assert Path(s, [], s);
  }

  // The two ends of the channel.
  datatype End = Reading | Writing

  predicate Mine(e: Event, end: End) {
    if end.Reading? then ReaderEvent(e) else e == Take || e == Listen
  }

  // What an end finds again after others have run.
  predicate StillThere(s: State, s': State, end: End) {
    && (s.cancelled ==> s'.cancelled)
    && (s.stopped ==> s'.stopped)
    && match end
       case Reading =>
         s'.reader == s.reader && s'.errBackoff == s.errBackoff && s'.failures == s.failures
         && s'.fetched == s.fetched && s'.dropped == s.dropped
       case Writing =>
         s'.writing == s.writing && s'.handed == s.handed && s'.stdout == s.stdout
         && s'.stderr == s.stderr && s.buffer <= s'.buffer
  }

  lemma OthersStep(s: State, e: Event, end: End)
    requires Enabled(s, e) && !Mine(e, end)
    ensures StillThere(s, Step(s, e), end)
  {
    hide Doubled, Line, Eligible, Int64;
  }

  lemma SeparateStays(s: State, e: Event)
    requires Enabled(s, e)
    ensures Step(s, e).separate == s.separate
  {
  }

  // What the journal answers one turn of the reader's loop.
  datatype Answer = NextErr | NothingNew | EntryErr | Entry(record: Record)

  // cut: a select with several ready cases takes the cancellation.
  datatype Turn = Turn(answer: Answer, cut: bool, env: seq<seq<Event>>)

  // What there is to forward in an answer.
  function Yield(answer: Answer): seq<LogEntry> {
    if answer.Entry? && Eligible(answer.record).Some? then [Eligible(answer.record).value] else []
  }

  // The eligible records among the first k answers, in order.
  function EligibleIn(turns: seq<Turn>, k: nat): seq<LogEntry>
    requires k <= |turns|
  {
    if k == 0 then [] else EligibleIn(turns, k - 1) + Yield(turns[k - 1].answer)
  }

  // The records with a MESSAGE among the first k answers, in order.
  function MessagesIn(turns: seq<Turn>, k: nat): seq<Record>
    requires k <= |turns|
  {
    if k == 0 then []
    else
      var answer := turns[k - 1].answer;
      MessagesIn(turns, k - 1) + if answer.Entry? && "MESSAGE" in answer.record.fields then [answer.record] else []
  }

  // The entries are the records, one by one.
  predicate AreEntriesOf(records: seq<Record>, entries: seq<LogEntry>) {
    |entries| == |records| && forall i | 0 <= i < |records| :: EntryOf(records[i], entries[i])
  }

  lemma MessagesAreDelivered(before: seq<LogEntry>, turns: seq<Turn>, k: nat)
    requires k <= |turns|
    ensures var fetched := before + EligibleIn(turns, k);
            |before| <= |fetched| && AreEntriesOf(MessagesIn(turns, k), fetched[|before|..])
  {
    EntriesAreTheMessages(turns, k);
    assert (before + EligibleIn(turns, k))[|before|..] == EligibleIn(turns, k);
  }

  lemma {:induction false} EntriesAreTheMessages(turns: seq<Turn>, k: nat)
    requires k <= |turns|
    ensures |EligibleIn(turns, k)| == |MessagesIn(turns, k)|
    ensures forall i | 0 <= i < |MessagesIn(turns, k)| :: EntryOf(MessagesIn(turns, k)[i], EligibleIn(turns, k)[i])
  {
    if k > 0 {
      EntriesAreTheMessages(turns, k - 1);
    }
  }

  lemma FetchedOn(before: seq<LogEntry>, turns: seq<Turn>, k: nat)
    requires k < |turns|
    ensures before + EligibleIn(turns, k) + Yield(turns[k].answer) == before + EligibleIn(turns, k + 1)
  {
  }

  class Pipeline {
    var logCh: seq<LogEntry>
    var cancelled: bool             // unitCtx
    var stopped: bool               // the handler's ctx
    var errBackoff: int
    var stdout: seq<string>
    var stderr: seq<string>
    const separate: bool
    // Where the two goroutines are, and the histories the promises are about.
    var reader: ReaderPc
    var writing: bool
    var failures: nat
    var fetched: seq<LogEntry>
    var handed: seq<LogEntry>
    var dropped: Option<LogEntry>

    function View(): State
      reads this
    {
      State(reader, cancelled, errBackoff, failures, logCh, writing, stopped, stdout, stderr, separate, fetched, handed,
          dropped)
    }

    ghost predicate Valid()
      reads this
    {
      Inv(View())
    }

    constructor (open: bool, separate: bool)
      ensures Valid() && View() == New(open, separate)
    {
      this.separate := separate;
      reader, cancelled, stopped, errBackoff, failures, logCh := Top, false, false, JOURNAL_BACKOFF_MIN, 0, [];
      writing, stdout, stderr, fetched, handed, dropped := open, [], [], [], [], None;
    }

    method Become(s: State)
      requires s.separate == separate
      modifies this
      ensures View() == s
    {
      reader, cancelled, errBackoff, failures, logCh, writing :=
          s.reader, s.cancelled, s.errBackoff, s.failures, s.buffer, s.writing;
      BecomeWritten(s);
    }

    method BecomeWritten(s: State)
      modifies this`stopped, this`stdout, this`stderr, this`fetched, this`handed, this`dropped
      ensures stopped == s.stopped && stdout == s.stdout && stderr == s.stderr
      ensures fetched == s.fetched && handed == s.handed && dropped == s.dropped
    {
      stopped, stdout, stderr := s.stopped, s.stdout, s.stderr;
      fetched, handed, dropped := s.fetched, s.handed, s.dropped;
    }

    // Everything but one end, in the order of schedule es. What cannot happen does not.
    method Interfere(end: End, es: seq<Event>)
      requires Valid()
      modifies this
      ensures After(old(View()), View()) && StillThere(old(View()), View(), end)
      ensures es == [] ==> View() == old(View())
    {
      ghost var s0 := View();
      Still(s0);
      for i := 0 to |es|
        invariant After(s0, View()) && StillThere(s0, View(), end)
        invariant i == 0 ==> View() == s0
      {
        var s, e := View(), es[i];
        if !Mine(e, end) && Enabled(s, e) {
          Section(s, e);
          OthersStep(s, e, end);
          SeparateStays(s, e);
          hide Inv, Step, Enabled, Reaches;
          Then(s0, s, Step(s, e));
          Become(Step(s, e));
        }
      }
    }

    /** The reader's loop over any answers of the journal. It has fetched exactly the eligible records among
        the answers it got to, in order; it ends only when cancelled; and it is stuck in its send only on a
        full channel while it is not. What it fetched and did not drop is in the channel or beyond (Valid). */
    method ReadJournal(turns: seq<Turn>) returns (consumed: nat)
      requires Valid() && reader == Top
      modifies this
      ensures After(old(View()), View()) && Valid()
      ensures consumed <= |turns| && fetched == old(fetched) + EligibleIn(turns, consumed)
      ensures |old(fetched)| <= |fetched| && AreEntriesOf(MessagesIn(turns, consumed), fetched[|old(fetched)|..])
      ensures Rests() && (reader == Top ==> consumed == |turns|)
    {
      ghost var s0 := View();
      Still(s0);
      consumed := 0;
      assert s0.fetched + EligibleIn(turns, 0) == s0.fetched;
      assert Rests();
      hide Inv, After, Yield, EligibleIn, MessagesIn, AreEntriesOf, Rests;
      while consumed < |turns| && reader == Top
        invariant consumed <= |turns| && fetched == s0.fetched + EligibleIn(turns, consumed)
        invariant After(s0, View()) && Valid()
        invariant Rests()
        decreases |turns| - consumed, if reader == Top then 1 else 0
      {
        ghost var s1 := View();
        var looked := ReadOne(turns[consumed]);
        Then(s0, s1, View());
        if looked {
          FetchedOn(s0.fetched, turns, consumed);
          consumed := consumed + 1;
        }
      }
      MessagesAreDelivered(s0.fetched, turns, consumed);
    }

    // One turn of the loop. It looks at the journal unless its context is already done.
    method ReadOne(turn: Turn) returns (looked: bool)
      requires Valid() && reader == Top
      modifies this
      ensures After(old(View()), View()) && Valid() && Rests()
      ensures !looked ==> reader == Done && fetched == old(fetched)
      ensures looked ==> fetched == old(fetched) + Yield(turn.answer)
    {
      hide Inv, Reaches, Eligible, Doubled;
      ghost var s0 := View();
      Interfere(Reading, Scheduled(turn.env, 0));
      ghost var s1 := View();
      looked := Select(Scheduled(turn.env, 1));
      Then(s0, s1, View());
      if looked {
        s1 := View();
        match turn.answer {
          case NextErr => BackOff(turn.cut, Scheduled(turn.env, 2));
          case NothingNew => AwaitNew(Scheduled(turn.env, 2));
          case EntryErr => SkipEntry(Scheduled(turn.env, 2));
          case Entry(record) => Forward(record, turn.cut, turn.env);
        }
        Then(s0, s1, View());
      }
    }

    // Between two turns, finished, or held up by a full channel.
    predicate Rests()
      reads this
    {
      reader == Top || (reader == Done && cancelled) || (reader.Sending? && !cancelled && |logCh| == LOG_CHANNEL_SIZE)
    }

    method Select(env: seq<Event>) returns (live: bool)
      requires Valid() && reader == Top
      modifies this
      ensures After(old(View()), View()) && Valid() && fetched == old(fetched)
      ensures live == !old(cancelled)
      ensures if live then reader == Advancing else reader == Done && cancelled
    {
      ghost var s0 := View();
      Section(s0, LoopTop);
      live := !cancelled;
      reader := if live then Advancing else Done;
      ghost var s1 := View();
      assert s1 == Step(s0, LoopTop);
      hide Inv, Reaches;
      Interfere(Reading, env);
      Then(s0, s1, View());
    }

    method BackOff(cut: bool, env: seq<Event>)
      requires Valid() && reader == Advancing
      modifies this
      ensures After(old(View()), View()) && Valid() && fetched == old(fetched)
      ensures reader == Top || (reader == Done && cancelled)
      ensures errBackoff == if reader == Top then Doubled(old(errBackoff), JOURNAL_BACKOFF_MAX) else old(errBackoff)
    {
      ghost var s0 := View();
      Section(s0, NextFails);
      reader := BackingOff;
      ghost var s1 := View();
      hide Inv, Reaches;
      Interfere(Reading, env);
      Then(s0, s1, View());
      s1 := View();
      EndBackOff(cut);
      Then(s0, s1, View());
    }

    method EndBackOff(cut: bool)
      requires Valid() && reader == BackingOff
      modifies this`reader, this`errBackoff, this`failures
      ensures After(old(View()), View()) && Valid()
      ensures reader == if cancelled && cut then Done else Top
      ensures errBackoff == if reader == Top then Doubled(old(errBackoff), JOURNAL_BACKOFF_MAX) else old(errBackoff)
    {
      if cancelled && cut {
        Section(View(), BackoffCut);
        reader := Done;
      } else {
        Section(View(), BackoffOver);
        errBackoff := Doubled(errBackoff, JOURNAL_BACKOFF_MAX);
        reader, failures := Top, failures + 1;
      }
    }

    // A successful advance, whatever it found: the backoff starts over.
    method Advance(found: bool, env: seq<Event>)
      requires Valid() && reader == Advancing
      modifies this
      ensures After(old(View()), View()) && Valid() && fetched == old(fetched)
      ensures reader == (if found then Fetching else AwaitingNew) && errBackoff == JOURNAL_BACKOFF_MIN
    {
      ghost var s0 := View();
      Section(s0, if found then NextFound else NextEmpty);
      errBackoff, failures := JOURNAL_BACKOFF_MIN, 0;
      reader := if found then Fetching else AwaitingNew;
      ghost var s1 := View();
      assert s1 == Step(s0, if found then NextFound else NextEmpty);
      hide Inv, Reaches;
      Interfere(Reading, env);
      Then(s0, s1, View());
    }

    method AwaitNew(env: seq<Event>)
      requires Valid() && reader == Advancing
      modifies this
      ensures After(old(View()), View()) && Valid() && fetched == old(fetched) && reader == Top
    {
      ghost var s0 := View();
      Advance(false, env);
      ghost var s1 := View();
      Section(s1, WaitOver);
      hide Inv, Reaches;
      reader := Top;
      Then(s0, s1, View());
    }

    method SkipEntry(env: seq<Event>)
      requires Valid() && reader == Advancing
      modifies this
      ensures After(old(View()), View()) && Valid() && fetched == old(fetched) && reader == Top
    {
      ghost var s0 := View();
      Advance(true, env);
      ghost var s1 := View();
      Section(s1, FetchFails);
      hide Inv, Reaches;
      reader := Top;
      Then(s0, s1, View());
    }

    method Forward(record: Record, cut: bool, env: seq<seq<Event>>)
      requires Valid() && reader == Advancing
      modifies this
      ensures After(old(View()), View()) && Valid() && Rests()
      ensures fetched == old(fetched) + if Eligible(record).Some? then [Eligible(record).value] else []
    {
      hide Inv, Reaches;
      ghost var s0 := View();
      Advance(true, Scheduled(env, 2));
      ghost var s1 := View();
      FetchEntry(record);
      Then(s0, s1, View());
      if reader.Sending? {
        s1 := View();
        Deliver(cut, env);
        Then(s0, s1, View());
      }
    }

    method FetchEntry(record: Record)
      requires Valid() && reader == Fetching
      modifies this`reader, this`fetched
      ensures After(old(View()), View()) && Valid()
      ensures fetched == old(fetched) + if Eligible(record).Some? then [Eligible(record).value] else []
      ensures reader == if Eligible(record).Some? then Sending(Eligible(record).value) else Top
    {
      Section(View(), Fetch(record));
      if "MESSAGE" !in record.fields {
        reader := Top;
      } else {
        var entry := LogEntry(record.fields["MESSAGE"], Field(record, "PRIORITY"), Field(record, "SYSLOG_IDENTIFIER"),
                              Int64(Int64(record.realtimeUsec) * 1000));
        reader := Sending(entry);
        fetched := fetched + [entry];
      }
    }

    // The send: it waits for room or for the cancellation, through all of env if need be.
    method Deliver(cut: bool, env: seq<seq<Event>>)
      requires Valid() && reader.Sending?
      modifies this
      ensures After(old(View()), View()) && Valid() && Rests() && fetched == old(fetched)
    {
      ghost var s0 := View();
      Still(s0);
      hide Inv, Reaches;
      Interfere(Reading, Scheduled(env, 3));
      var i := 4;
      while i < |env| && !cancelled && |logCh| >= LOG_CHANNEL_SIZE
        invariant After(s0, View()) && Valid() && reader == s0.reader && fetched == s0.fetched
      {
        ghost var s1 := View();
        Interfere(Reading, env[i]);
        Then(s0, s1, View());
        i := i + 1;
      }
      ghost var s2 := View();
      EndDelivery(cut);
      Then(s0, s2, View());
    }

    method EndDelivery(cut: bool)
      requires Valid() && reader.Sending?
      modifies this`reader, this`logCh, this`dropped
      ensures After(old(View()), View()) && Valid() && Rests()
      ensures reader == Top ==> logCh == old(logCh) + [old(reader).entry]
    {
      ghost var s := View();
      if cancelled && (cut || |logCh| >= LOG_CHANNEL_SIZE) {
        Section(s, SendCut);
        dropped := Some(reader.entry);
        reader := Done;
      } else if |logCh| < LOG_CHANNEL_SIZE {
        Section(s, Send);
        logCh := logCh + [reader.entry];
        reader := Top;
      } else {
        Still(s);
      }
    }

    /** The handler's streamLogs, once its files are open, over any turns of its select. It hands over what
        it takes in order, and ends only because the handler stops. */
    method StreamLogs(turns: seq<Turn>) returns (taken: nat)
      requires Valid() && writing
      modifies this
      ensures After(old(View()), View()) && Valid()
      ensures |handed| == |old(handed)| + taken && old(handed) <= handed && taken <= |turns|
      ensures old(handed + logCh) <= handed + logCh
      ensures !writing ==> stopped
      ensures !old(stopped) && (forall i | 0 <= i < |turns| :: Scheduled(turns[i].env, 0) == []) ==>
                taken == Min(|turns|, |old(logCh)|)
    {
      ghost var s0 := View();
      Still(s0);
      taken := 0;
      hide Inv, Reaches;
      var i := 0;
      while i < |turns| && writing
        invariant After(s0, View()) && Valid()
        invariant taken <= i <= |turns| && |handed| == |s0.handed| + taken && s0.handed <= handed
        invariant s0.handed + s0.buffer <= handed + logCh
        invariant !writing ==> stopped
        invariant !s0.stopped && (forall k | 0 <= k < |turns| :: Scheduled(turns[k].env, 0) == []) ==>
                    !stopped && writing && taken == Min(i, |s0.buffer|) && |logCh| == |s0.buffer| - taken
      {
        ghost var s1 := View();
        var took := WriteOne(turns[i].cut, Scheduled(turns[i].env, 0));
        Then(s0, s1, View());
        taken := taken + if took then 1 else 0;
        i := i + 1;
      }
    }

    method WriteOne(cut: bool, env: seq<Event>) returns (took: bool)
      requires Valid() && writing
      modifies this
      ensures After(old(View()), View()) && Valid()
      ensures old(handed) + old(logCh) <= handed + logCh && old(handed) <= handed
                && |handed| == |old(handed)| + if took then 1 else 0
      ensures !writing ==> stopped && !took
      ensures writing && !took ==> logCh == []
      ensures env == [] && !old(stopped) ==>
                !stopped && writing && (took <==> old(logCh) != []) && |logCh| == |old(logCh)| - if took then 1 else 0
    {
      hide Inv, Reaches;
      ghost var s0 := View();
      Interfere(Writing, env);
      ghost var s1 := View();
      took := false;
      if stopped && (cut || logCh == []) {
        StopWriting();
        Then(s0, s1, View());
      } else if logCh != [] {
        TakeEntry();
        Then(s0, s1, View());
        took := true;
      }
    }

    method StopWriting()
      requires Valid() && writing && stopped
      modifies this`writing
      ensures After(old(View()), View()) && Valid() && !writing
    {
      Section(View(), Listen);
      writing := false;
    }

    method TakeEntry()
      requires Valid() && writing && logCh != []
      modifies this`logCh, this`stdout, this`stderr, this`handed
      ensures After(old(View()), View()) && Valid()
      ensures handed == old(handed) + [old(logCh)[0]] && logCh == old(logCh)[1..]
    {
      ghost var s := View();
      Section(s, Take);
      hide Inv, After, Line, IsError;
      var entry := logCh[0];
      logCh := logCh[1..];
      handed := handed + [entry];
      WriteLogEntry(entry);
      assert View() == Step(s, Take);
    }

    /** writeLogEntry: one line, on stderr for priorities 0 to 3 if there is one, else on stdout. */
    method WriteLogEntry(entry: LogEntry)
      modifies this`stdout, this`stderr
      ensures Renders(Line(entry), entry.priority, entry.identifier, entry.message)
      ensures IsError(entry) <==> entry.priority in {"0", "1", "2", "3"}
      ensures if IsError(entry) && separate then stderr == old(stderr) + [Line(entry)] && stdout == old(stdout)
              else stdout == old(stdout) + [Line(entry)] && stderr == old(stderr)
    {
      var toStderr := separate
          && (entry.priority == "0" || entry.priority == "1" || entry.priority == "2" || entry.priority == "3");
      var level := LevelName(entry.priority);
      var line;
      if entry.identifier != "" {
        line := "[" + level + "] [" + entry.identifier + "] " + entry.message + "\n";
        assert line == Line(entry);
      } else {
        line := "[" + level + "] " + entry.message + "\n";
        assert line == Line(entry);
      }
      if toStderr {
        stderr := stderr + [line];
      } else {
        stdout := stdout + [line];
      }
    }
  }
}
