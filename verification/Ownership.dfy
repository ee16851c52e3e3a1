/** The unit ownership map (plugin/unit.go). */
module Ownership {
  type Owners = map<string, string>

  predicate MayClaim(owners: Owners, unit: string, id: string) {
    unit in owners ==> owners[unit] == id
  }

  function Claim(owners: Owners, unit: string, id: string): (r: Owners) {
    if MayClaim(owners, unit, id) then owners[unit := id] else owners
  }

  function Release(owners: Owners, unit: string): Owners {
    owners - {unit}
  }
}
