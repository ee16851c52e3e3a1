/** The task store (pkg/task/store.go): the map of handlers, and what Stop does to them. */
module TaskStore {
  import opened Options

  // A handler, as far as the store is concerned.
  class Handler {
    var stops: nat

    constructor ()
      ensures stops == 0
    {
      stops := 0;
    }

    method Stop()
      modifies this
      ensures stops == old(stops) + 1
    {
      stops := stops + 1;
    }
  }

  // Under which of the given IDs h is stored, and under how many.
  ghost function IdsOf<T>(store: map<string, T>, ids: set<string>, h: T): set<string> {
    set id | id in ids && id in store && store[id] == h
  }

  ghost function Times<T>(store: map<string, T>, ids: set<string>, h: T): nat {
    |IdsOf(store, ids, h)|
  }

  lemma TimesWithOneMore<T>(store: map<string, T>, ids: set<string>, id: string, h: T)
    requires id in store && id !in ids
    ensures Times(store, ids + {id}, h) == Times(store, ids, h) + if store[id] == h then 1 else 0
  {
    var before := IdsOf(store, ids, h);
    assert IdsOf(store, ids + {id}, h) == if store[id] == h then before + {id} else before;
  }

  class Store {
    var store: map<string, Handler>

    constructor ()
      ensures store == map[]
    {
      store := map[];
    }

    method Set(id: string, handler: Handler)
      modifies this
      ensures store == old(store)[id := handler]
    {
      store := store[id := handler];
    }

    method Get(id: string) returns (handler: Option<Handler>)
      ensures handler == if id in store then Some(store[id]) else None
    {
      if id in store {
        handler := Some(store[id]);
      } else {
        handler := None;
      }
    }

    method Delete(id: string)
      modifies this
      ensures store == old(store) - {id}
    {
      store := store - {id};
    }

    // The snapshot Stop takes under its lock: every stored handler, as often as it is stored.
    method Snapshot() returns (handlers: seq<Handler>)
      ensures forall h :: multiset(handlers)[h] == Times(store, store.Keys, h)
    {
      handlers := [];
      var left := store.Keys;
      ghost var done: set<string> := {};
      while left != {}
        invariant done + left == store.Keys && done !! left
        invariant forall h :: multiset(handlers)[h] == Times(store, done, h)
        decreases |left|
      {
        var id :| id in left;
        forall h ensures Times(store, done + {id}, h) == Times(store, done, h) + if store[id] == h then 1 else 0 {
          TimesWithOneMore(store, done, id, h);
        }
        handlers := handlers + [store[id]];
        left, done := left - {id}, done + {id};
      }
      assert done == store.Keys;
    }

    /** Empties the store and stops every handler it held, as often as it was stored and no other. */
    method Stop()
      modifies this, store.Values
      ensures store == map[]
      ensures forall h | h in old(store.Values) :: h.stops == old(h.stops) + old(Times(store, store.Keys, h))
    {
      var handlers := Snapshot();
      store := map[];
      for i := 0 to |handlers|
        invariant store == map[]
        invariant forall h | h in old(store.Values) :: h.stops == old(h.stops) + multiset(handlers[..i])[h]
      {
        InSnapshot(old(store), handlers, handlers[i]);
        handlers[i].Stop();
        assert handlers[..i + 1] == handlers[..i] + [handlers[i]];
      }
      assert handlers[..|handlers|] == handlers;
    }
  }

  lemma InSnapshot<T>(store: map<string, T>, handlers: seq<T>, h: T)
    requires h in handlers && multiset(handlers)[h] == Times(store, store.Keys, h)
    ensures h in store.Values
  {
    assert Times(store, store.Keys, h) > 0;
    var ids := IdsOf(store, store.Keys, h);
    assert ids != {};
    var id :| id in ids;
  }

  // ---- Any sequence of operations ----

  datatype Op = SetOp(id: string, h: nat) | DeleteOp(id: string) | StopOp

  // The store after ops, with handlers by number.
  function Stored(ops: seq<Op>): map<string, nat> {
    if ops == [] then map[]
    else
      var before := Stored(ops[..|ops| - 1]);
      match ops[|ops| - 1]
      case SetOp(id, h) => before[id := h]
      case DeleteOp(id) => before - {id}
      case StopOp => map[]
  }

  // How often Stop has stopped handler h.
  ghost function Stops(ops: seq<Op>, h: nat): nat {
    if ops == [] then 0
    else
      var before := ops[..|ops| - 1];
      Stops(before, h) + if ops[|ops| - 1].StopOp? then Times(Stored(before), Stored(before).Keys, h) else 0
  }

  predicate Sets(op: Op, h: nat) {
    op.SetOp? && op.h == h
  }

  // Handler h is given to Set once at most.
  predicate SetOnce(ops: seq<Op>, h: nat) {
    forall i, j | 0 <= i < j < |ops| :: !(Sets(ops[i], h) && Sets(ops[j], h))
  }

  ghost predicate PresentAtAStop(ops: seq<Op>, h: nat) {
    exists i | 0 <= i < |ops| :: ops[i] == StopOp && h in Stored(ops[..i]).Values
  }

  lemma {:induction false} NeverSetIsNotStored(ops: seq<Op>, h: nat)
    requires forall i | 0 <= i < |ops| :: !Sets(ops[i], h)
    ensures h !in Stored(ops).Values
  {
    if ops != [] {
      NeverSetIsNotStored(ops[..|ops| - 1], h);
    }
  }

  lemma StoredWasSet(ops: seq<Op>, h: nat)
    requires h in Stored(ops).Values
    ensures exists i | 0 <= i < |ops| :: Sets(ops[i], h)
  {
    if forall i | 0 <= i < |ops| :: !Sets(ops[i], h) {
      NeverSetIsNotStored(ops, h);
    }
  }

  lemma {:induction false} StoredUnderOneId(ops: seq<Op>, h: nat, id: string, id2: string)
    requires SetOnce(ops, h)
    requires id in Stored(ops) && id2 in Stored(ops) && Stored(ops)[id] == h && Stored(ops)[id2] == h
    ensures id == id2
  {
    var n := |ops| - 1;
    if Sets(ops[n], h) {
      NeverSetIsNotStored(ops[..n], h);
    } else {
      StoredUnderOneId(ops[..n], h, id, id2);
    }
  }

  // Once a Stop has taken the handler out it never comes back.
  lemma {:induction false} GoneAfterStop(ops: seq<Op>, h: nat)
    requires SetOnce(ops, h) && PresentAtAStop(ops, h)
    ensures h !in Stored(ops).Values
  {
    var n := |ops| - 1;
    var i :| 0 <= i < |ops| && ops[i] == StopOp && h in Stored(ops[..i]).Values;
    StoredWasSet(ops[..i], h);
    var k :| 0 <= k < i && Sets(ops[..i][k], h);
    assert Sets(ops[k], h);
    if i < n {
      assert ops[..n][..i] == ops[..i];
      assert ops[..n][i] == StopOp;
      GoneAfterStop(ops[..n], h);
    }
  }

  lemma TimesIsOneOrNone(ops: seq<Op>, h: nat)
    requires SetOnce(ops, h)
    ensures Times(Stored(ops), Stored(ops).Keys, h) == if h in Stored(ops).Values then 1 else 0
  {
    var store := Stored(ops);
    var ids := IdsOf(store, store.Keys, h);
    if h in store.Values {
      var id :| id in store && store[id] == h;
      forall id2 | id2 in ids ensures id2 == id {
        StoredUnderOneId(ops, h, id, id2);
      }
      assert id in ids;
      assert ids == {id};
    } else {
      assert ids == {};
    }
  }

  lemma PresentAtTheLastStopOrBefore(ops: seq<Op>, h: nat)
    requires ops != []
    ensures var before := ops[..|ops| - 1];
            PresentAtAStop(ops, h) <==>
                PresentAtAStop(before, h) || (ops[|ops| - 1] == StopOp && h in Stored(before).Values)
  {
    var n := |ops| - 1;
    var before := ops[..n];
    forall i | 0 <= i < n ensures before[i] == ops[i] && before[..i] == ops[..i] {
    }
    if i :| 0 <= i < n && before[i] == StopOp && h in Stored(before[..i]).Values {
      assert ops[i] == StopOp && h in Stored(ops[..i]).Values;
    }
    if i :| 0 <= i < |ops| && ops[i] == StopOp && h in Stored(ops[..i]).Values {
      assert i < n ==> before[i] == StopOp && h in Stored(before[..i]).Values;
    }
  }

  /** Over any sequence of operations in which a handler is set once, it is stopped at most once, and
      exactly once if it was in the store when some Stop swapped it out. */
  lemma {:induction false} StoppedOnceIfPresent(ops: seq<Op>, h: nat)
    requires SetOnce(ops, h)
    ensures Stops(ops, h) == if PresentAtAStop(ops, h) then 1 else 0
  {
    if ops != [] {
      var before := ops[..|ops| - 1];
      StoppedOnceIfPresent(before, h);
      TimesIsOneOrNone(before, h);
      PresentAtTheLastStopOrBefore(ops, h);
      if PresentAtAStop(before, h) {
        GoneAfterStop(before, h);
      }
    }
  }
}
