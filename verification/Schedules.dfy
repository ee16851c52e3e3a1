/** What others do while a method waits: a sequence of their events for each of its waits in turn. */
module Schedules {
  function Scheduled<E>(env: seq<seq<E>>, i: nat): seq<E> {
    if i < |env| then env[i] else []
  }

  predicate NobodyElse<E(==)>(env: seq<seq<E>>) {
    forall i | 0 <= i < |env| :: env[i] == []
  }
}
