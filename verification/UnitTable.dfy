/** Manager.units as values (pkg/systemd/unit.go, RegisterUnit to WakeChannel). A unitState is known
    by the order of its allocation, so that replacing a unit's entry and updating it stay distinct;
    the same number stands for the wake channel the entry was made with. */
module UnitTables {
  import opened Options

  datatype UnitTable = UnitTable(
    units: map<string, nat>,
    cancelJournal: seq<Option<nat>>)   // per allocated unitState: the reader it can cancel
  {
    // Every entry is an allocated unitState, and no two units share one.
    ghost predicate Valid() {
      && (forall u | u in units :: units[u] < |cancelJournal|)
      && (forall u, v | u in units && v in units && units[u] == units[v] :: u == v)
    }

    // unitLocked, and WakeChannel when read as a channel.
    function Lookup(unit: string): Option<nat> {
      if unit in units then Some(units[unit]) else None
    }
  }

  const NoUnits := UnitTable(map[], [])

  function Register(t: UnitTable, unit: string): UnitTable {
    UnitTable(t.units[unit := |t.cancelJournal|], t.cancelJournal + [None])
  }

  function Unregister(t: UnitTable, unit: string): UnitTable {
    t.(units := t.units - {unit})
  }

  // Stop replaces the map; unitStates others still hold are not affected.
  function Emptied(t: UnitTable): UnitTable {
    t.(units := map[])
  }
}
