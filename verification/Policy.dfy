/** The unit policy (plugin/unit.go). A compiled pattern is whatever it matches. */
module Policy {
  type Pattern = string -> bool

  datatype Verdict = Permitted | DeniedBy(rule: nat) | NotAllowed

  ghost predicate Matches(patterns: seq<Pattern>, unit: string) {
    exists i | 0 <= i < |patterns| :: patterns[i](unit)
  }

  ghost predicate Permits(allowed: seq<Pattern>, denied: seq<Pattern>, unit: string) {
    !Matches(denied, unit) && (allowed == [] || Matches(allowed, unit))
  }

  /** unitPolicy.check: a denied pattern always wins, named by the first one that matches; with allowed
      patterns the policy is an allowlist; with none it permits every unit not denied. */
  method Check(allowed: seq<Pattern>, denied: seq<Pattern>, unit: string) returns (v: Verdict)
    ensures v.Permitted? <==> Permits(allowed, denied, unit)
    ensures v.DeniedBy? <==> Matches(denied, unit)
    ensures v.DeniedBy? ==> v.rule < |denied| && denied[v.rule](unit) && !Matches(denied[..v.rule], unit)
  {
    for i := 0 to |denied|
      invariant forall k | 0 <= k < i :: !denied[k](unit)
    {
      if denied[i](unit) {
        return DeniedBy(i);
      }
    }
    if |allowed| == 0 {
      return Permitted;
    }
    for i := 0 to |allowed|
      invariant forall k | 0 <= k < i :: !allowed[k](unit)
    {
      if allowed[i](unit) {
        return Permitted;
      }
    }
    return NotAllowed;
  }
}
