/** The grace-period decision the get command takes about one entry. */
module Policy {
  import opened Common

  /** `Absent`: no entry, regenerate. `Fresh`: serve the value. `InGrace`: try the regeneration lock. */
  datatype Decision = Absent | Fresh | InGrace

  /**
   * `present` is whether the key is present, `ttl` its remaining time to live in milliseconds
   * (`None` when it has no expiry), `grace` the caller's grace period. A remaining time equal to
   * the grace period, or below it, is in grace; there is no separate case for an expired entry.
   */
  function Classify(present: bool, ttl: Option<int>, grace: int): (d: Decision)
  {
    if !present then Absent
    else if ttl.None? || ttl.value > grace then Fresh
    else InGrace
  }

  /** The grace window is closed at its upper end: a remaining time equal to the grace period is in grace. */
  lemma BoundaryIsInGrace(ttl: int)
    ensures Classify(true, Some(ttl), ttl) == InGrace
    ensures Classify(true, Some(ttl + 1), ttl) == Fresh
  {
  }

  /** Once an entry is in grace it stays in grace as its remaining time shrinks or the grace period grows. */
  lemma InGraceIsMonotone(ttl: int, ttl': int, grace: int, grace': int)
    requires Classify(true, Some(ttl), grace) == InGrace
    requires ttl' <= ttl && grace <= grace'
    ensures Classify(true, Some(ttl'), grace') == InGrace
  {
  }
}
