/** The `ConstraintTarget` enum shared by all checks: what part of a container value a check applies to. */
module CheckTypes {
  import opened Wrappers

  datatype ConstraintTarget = CONTAINER | KEYS | VALUES

  /** `ConstraintTarget.name()`. */
  function Name(t: ConstraintTarget): string {
    match t
    case CONTAINER => "CONTAINER"
    case KEYS => "KEYS"
    case VALUES => "VALUES"
  }

  /** `ConstraintTarget.valueOf(s)`; `None` is the `IllegalArgumentException` for an unknown token. */
  function ValueOf(s: string): Option<ConstraintTarget> {
    if s == "CONTAINER" then Some(CONTAINER)
    else if s == "KEYS" then Some(KEYS)
    else if s == "VALUES" then Some(VALUES)
    else None
  }

  /** `valueOf` accepts exactly the names of the constants, and inverts `name()`. */
  lemma ValueOfName(s: string, t: ConstraintTarget)
    ensures ValueOf(s) == Some(t) <==> s == Name(t)
  {
  }
}
