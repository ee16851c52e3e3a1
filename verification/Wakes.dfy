/** The Manager's wake channels in program order (pkg/systemd/unit.go): wakeUnit, its deferred use by StopUnit
    and KillUnit, and the dispatch loop. A send is the Wake event of the handler polling that channel. */
module Wakes {
  import opened Options
  import opened Schedules

  // What others do meanwhile.
  datatype Event = Registered(unit: string) | Unregistered(unit: string) | Received(channel: nat) | Woken(channel: nat)

  // No event replaces or removes unit's entry.
  predicate Undisturbed(es: seq<Event>, unit: string) {
    forall i | 0 <= i < |es| :: es[i] != Registered(unit) && es[i] != Unregistered(unit)
  }

  // The registered units' channels, and how many channels have been made.
  datatype Table = Table(units: map<string, nat>, made: nat)
  {
    ghost predicate Valid() {
      forall u | u in units :: units[u] < made
    }
  }

  function TableAfter(t: Table, es: seq<Event>): Table {
    if es == [] then t
    else
      var before := TableAfter(t, es[..|es| - 1]);
      match es[|es| - 1]
      case Registered(unit) => Table(before.units[unit := before.made], before.made + 1)
      case Unregistered(unit) => before.(units := before.units - {unit})
      case _ => before
  }

  // ... after the first k slices of a schedule.
  function TableAt(t: Table, env: seq<seq<Event>>, k: nat): Table {
    if k == 0 then t else TableAfter(TableAt(t, env, k - 1), Scheduled(env, k - 1))
  }

  lemma {:induction false} TableAfterGrows(t: Table, es: seq<Event>)
    requires t.Valid()
    ensures TableAfter(t, es).Valid() && t.made <= TableAfter(t, es).made
  {
    if es != [] {
      TableAfterGrows(t, es[..|es| - 1]);
    }
  }

  lemma {:induction false} TableGrows(t: Table, env: seq<seq<Event>>, i: nat, k: nat)
    requires t.Valid() && i <= k
    ensures TableAt(t, env, i).Valid() && TableAt(t, env, k).Valid()
    ensures TableAt(t, env, i).made <= TableAt(t, env, k).made
    decreases k
  {
    if k > 0 {
      TableGrows(t, env, if i < k then i else k - 1, k - 1);
      TableAfterGrows(TableAt(t, env, k - 1), Scheduled(env, k - 1));
    }
  }

  // What the dispatch loop's select hears.
  datatype Signal = Stop | Update(unit: string) | SubscriptionError

  // The channel that the i-th signal is due on: the one its unit has when the loop hears of it, if any. The
  // loop waits through slice 2*i of env, and slice 2*i+1 runs between its lookup and its send.
  function DueOn(t: Table, signals: seq<Signal>, env: seq<seq<Event>>, i: nat): Option<nat>
    requires i < |signals|
  {
    var units := TableAt(t, env, 2 * i + 1).units;
    if signals[i].Update? && signals[i].unit in units then Some(units[signals[i].unit]) else None
  }

  // How many of the first k signals are due on channel ch.
  function Due(t: Table, signals: seq<Signal>, env: seq<seq<Event>>, k: nat, ch: nat): nat
    requires k <= |signals|
  {
    if k == 0 then 0 else Due(t, signals, env, k - 1, ch) + if DueOn(t, signals, env, k - 1) == Some(ch) then 1 else 0
  }

  lemma {:induction false} NothingDueBeforeItIsMade(t: Table, signals: seq<Signal>, env: seq<seq<Event>>, k: nat,
                                                    ch: nat)
    requires t.Valid() && k <= |signals| && ch >= TableAt(t, env, 2 * k).made
    ensures Due(t, signals, env, k, ch) == 0
  {
    if k > 0 {
      TableGrows(t, env, 2 * (k - 1) + 1, 2 * k);
      TableGrows(t, env, 2 * (k - 1), 2 * k);
      hide TableAt;
      NothingDueBeforeItIsMade(t, signals, env, k - 1, ch);
    }
  }

  // Every one of the first k signals due on a channel has been sent on it, since the sends were base.
  ghost predicate AllSent(base: seq<nat>, sends: seq<nat>, t: Table, signals: seq<Signal>, env: seq<seq<Event>>,
                          k: nat) {
    k <= |signals| && forall ch | 0 <= ch < |sends| :: sends[ch] >= Base(base, ch) + Due(t, signals, env, k, ch)
  }

  function Base(sends: seq<nat>, ch: nat): nat {
    if ch < |sends| then sends[ch] else 0
  }

  ghost predicate Grown(sends: seq<nat>, sends': seq<nat>) {
    |sends| <= |sends'| && forall ch | 0 <= ch < |sends| :: sends[ch] <= sends'[ch]
  }

  lemma AllSentStays(base: seq<nat>, sends: seq<nat>, sends': seq<nat>, t: Table, signals: seq<Signal>,
                     env: seq<seq<Event>>, k: nat)
    requires t.Valid() && AllSent(base, sends, t, signals, env, k) && Grown(sends, sends')
    requires |base| <= |sends| == TableAt(t, env, 2 * k).made
    ensures AllSent(base, sends', t, signals, env, k)
  {
    DueOnNewChannels(t, signals, env, k);
  }

  lemma AllSentGoesOn(base: seq<nat>, sends: seq<nat>, sends': seq<nat>, t: Table, signals: seq<Signal>,
                      env: seq<seq<Event>>, k: nat)
    requires t.Valid() && AllSent(base, sends, t, signals, env, k) && Grown(sends, sends') && k < |signals|
    requires |base| <= |sends| == TableAt(t, env, 2 * k).made
    requires forall ch | DueOn(t, signals, env, k) == Some(ch) :: ch < |sends'| && sends'[ch] >= Base(sends, ch) + 1
    ensures AllSent(base, sends', t, signals, env, k + 1)
  {
    AllSentStays(base, sends, sends', t, signals, env, k);
    DueOnNewChannels(t, signals, env, k);
    hide TableAt, DueOn;
  }

  lemma TableStart(t: Table, signals: seq<Signal>, env: seq<seq<Event>>, sends: seq<nat>)
    ensures TableAt(t, env, 0) == t && AllSent(sends, sends, t, signals, env, 0)
  {
  }

  lemma NextRound(t: Table, signals: seq<Signal>, env: seq<seq<Event>>, k: nat)
    requires k < |signals|
    ensures var waited := TableAfter(TableAt(t, env, 2 * k), Scheduled(env, 2 * k));
            && TableAt(t, env, 2 * (k + 1)) == TableAfter(waited, Scheduled(env, 2 * k + 1))
            && DueOn(t, signals, env, k) ==
               if signals[k].Update? && signals[k].unit in waited.units then Some(waited.units[signals[k].unit])
                   else None
  {
    assert TableAt(t, env, 2 * k + 1) == TableAfter(TableAt(t, env, 2 * k), Scheduled(env, 2 * k));
  }

  lemma DueOnNewChannels(t: Table, signals: seq<Signal>, env: seq<seq<Event>>, k: nat)
    requires t.Valid() && k <= |signals|
    ensures forall ch | ch >= TableAt(t, env, 2 * k).made :: Due(t, signals, env, k, ch) == 0
    ensures TableAt(t, env, 2 * k + 1).Valid()
  {
    forall ch | ch >= TableAt(t, env, 2 * k).made ensures Due(t, signals, env, k, ch) == 0 {
      NothingDueBeforeItIsMade(t, signals, env, k, ch);
    }
    TableGrows(t, env, 2 * k, 2 * k + 1);
  }

  datatype JobError = NoConnection | NotEnqueued | JobFailed(result: string) | Ended

  class Channels {
    var units: map<string, nat>     // the channel of each registered unit
    var pending: seq<bool>          // per channel ever made: the one slot
    var sends: seq<nat>             // history: attempted sends, dropped ones included

    ghost predicate Valid()
      reads this
    {
      && |sends| == |pending|
      && (forall u | u in units :: units[u] < |pending|)
      && (forall u, v | u in units && v in units && units[u] == units[v] :: u == v)
    }

    function CurrentTable(): Table
      reads this
    {
      Table(units, |pending|)
    }

    // Channels are only added, and sends only counted up.
    twostate predicate Onward()
      reads this
    {
      Grown(old(sends), sends)
    }

    constructor ()
      ensures Valid() && units == map[] && pending == []
    {
      units, pending, sends := map[], [], [];
    }

    method Interfere(es: seq<Event>)
      requires Valid()
      modifies this
      ensures Valid() && Onward()
      ensures CurrentTable() == TableAfter(old(CurrentTable()), es)
      ensures forall u | Undisturbed(es, u) ::
                (u in units <==> u in old(units)) && (u in units ==> units[u] == old(units)[u])
    {
      for i := 0 to |es|
        invariant Valid() && Onward()
        invariant CurrentTable() == TableAfter(old(CurrentTable()), es[..i])
        invariant forall u | Undisturbed(es, u) ::
                    (u in units <==> u in old(units)) && (u in units ==> units[u] == old(units)[u])
      {
        assert es[..i + 1][..i] == es[..i];
        match es[i] {
          case Registered(unit) => units, pending, sends := units[unit := |pending|], pending + [false], sends + [0];
          case Unregistered(unit) => units := units - {unit};
          case Received(ch) => if ch < |pending| { pending := pending[ch := false]; }
          case Woken(ch) => if ch < |pending| { Send(ch); }
        }
      }
      assert es[..|es|] == es;
    }

    // The non-blocking send.
    method Send(ch: nat)
      requires Valid() && ch < |pending|
      modifies this`pending, this`sends
      ensures Valid() && pending == old(pending)[ch := true] && sends == old(sends)[ch := old(sends)[ch] + 1]
    {
      if !pending[ch] {
        pending := pending[ch := true];
      }
      sends := sends[ch := sends[ch] + 1];
    }

    /** wakeUnit. The channel found under the lock gets the send even if the unit is gone by then, and right
        after it the token is there: sent now, or still unread from before. */
    method WakeUnit(unit: string, env: seq<Event>)
      requires Valid()
      modifies this
      ensures Valid() && Onward()
      ensures unit in old(units) ==> old(units)[unit] < |pending| && pending[old(units)[unit]]
      ensures unit in old(units) ==> old(sends)[old(units)[unit]] < sends[old(units)[unit]]
      ensures CurrentTable() == TableAfter(old(CurrentTable()), env)
      ensures forall u | Undisturbed(env, u) ::
                (u in units <==> u in old(units)) && (u in units ==> units[u] == old(units)[u])
    {
      var st := if unit in units then Some(units[unit]) else None;
      Interfere(env);
      if st.Some? {
        Send(st.value);
      }
    }

    /** StopUnit. It reports success only for a job that systemd says is done; and on every path out the channel
        that the unit has when the request is over, if any, has been sent a wake after all else: the one it had
        before, unless it was registered anew or unregistered while the request ran. */
    method StopUnit(unit: string, connected: bool, enqueued: bool, result: Option<string>, env: seq<Event>,
                    after: seq<Event>)
        returns (err: Option<JobError>)
      requires Valid()
      modifies this
      ensures Valid() && Onward()
      ensures err == None <==> connected && enqueued && result == Some("done")
      ensures var units := TableAfter(old(CurrentTable()), env).units;
              unit in units ==>
                var ch := units[unit]; ch < |pending| && pending[ch] && Base(old(sends), ch) < sends[ch]
      ensures unit in old(units) && Undisturbed(env, unit) ==>
                var ch := old(units)[unit]; ch < |pending| && pending[ch] && old(sends)[ch] < sends[ch]
    {
      Interfere(env);
      if !connected {
        err := Some(NoConnection);
      } else if !enqueued {
        err := Some(NotEnqueued);
      } else {
        err := WaitJobResult(result);
      }
      WakeUnit(unit, after);
    }

    // waitJobResult: the job's result, or the end of its context.
    method WaitJobResult(result: Option<string>) returns (err: Option<JobError>)
      ensures err == None <==> result == Some("done")
    {
      if result == None {
        return Some(Ended);
      }
      return if result.value != "done" then Some(JobFailed(result.value)) else None;
    }

    /** KillUnit: success is a delivered signal, and the wake is sent as by StopUnit. */
    method KillUnit(unit: string, connected: bool, delivered: bool, env: seq<Event>, after: seq<Event>)
        returns (ok: bool)
      requires Valid()
      modifies this
      ensures Valid() && Onward()
      ensures ok <==> connected && delivered
      ensures var units := TableAfter(old(CurrentTable()), env).units;
              unit in units ==>
                var ch := units[unit]; ch < |pending| && pending[ch] && Base(old(sends), ch) < sends[ch]
      ensures unit in old(units) && Undisturbed(env, unit) ==>
                var ch := old(units)[unit]; ch < |pending| && pending[ch] && old(sends)[ch] < sends[ch]
    {
      Interfere(env);
      ok := connected && delivered;
      WakeUnit(unit, after);
    }

    /** propertiesDispatchLoop. Until it hears the cancelled context every update is sent on the channel that its
        unit has at that moment, whenever that was registered; other signals are let pass. */
    method DispatchLoop(signals: seq<Signal>, env: seq<seq<Event>>) returns (heard: nat)
      requires Valid()
      modifies this
      ensures Valid() && Onward() && heard <= |signals|
      ensures forall i | 0 <= i < heard :: signals[i] != Stop
      ensures heard < |signals| ==> signals[heard] == Stop
      ensures AllSent(old(sends), sends, old(CurrentTable()), signals, env, heard)
    {
      ghost var t := CurrentTable();
      heard := 0;
      TableStart(t, signals, env, sends);
      hide TableAfter, TableAt, DueOn, AllSent;
      while heard < |signals| && signals[heard] != Stop
        invariant Valid() && heard <= |signals| && Onward()
        invariant CurrentTable() == TableAt(t, env, 2 * heard)
        invariant forall i | 0 <= i < heard :: signals[i] != Stop
        invariant AllSent(old(sends), sends, t, signals, env, heard)
      {
        ghost var before := sends;
        NextRound(t, signals, env, heard);
        HearOne(signals[heard], Scheduled(env, 2 * heard), Scheduled(env, 2 * heard + 1));
        AllSentGoesOn(old(sends), before, sends, t, signals, env, heard);
        heard := heard + 1;
      }
      ghost var before := sends;
      Interfere(Scheduled(env, 2 * heard));
      AllSentStays(old(sends), before, sends, t, signals, env, heard);
    }

    // One round of the loop: wait, hear a signal, look the unit up, send.
    method HearOne(signal: Signal, waiting: seq<Event>, sending: seq<Event>)
      requires Valid()
      modifies this
      ensures Valid() && Onward()
      ensures CurrentTable() == TableAfter(TableAfter(old(CurrentTable()), waiting), sending)
      ensures var units := TableAfter(old(CurrentTable()), waiting).units;
              signal.Update? && signal.unit in units ==>
                var ch := units[signal.unit];
                ch < |sends| && sends[ch] >= Base(old(sends), ch) + 1
    {
      Interfere(waiting);
      if signal.Update? {
        WakeUnit(signal.unit, sending);
      } else {
        Interfere(sending);
      }
    }
  }
}
