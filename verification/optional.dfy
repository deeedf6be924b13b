/**
  Optional values: an option the caller may leave `undefined`.
 */
module Optional {

  datatype Option<+T> = None | Some(value: T) {

    /** `x ?? fallback`: the value when present, the fallback otherwise. */
    function GetOr(fallback: T): T
    {
      match this
      case Some(v) => v
      case None => fallback
    }

    /** `x ?? other` where the fallback may itself be missing. */
    function Or(other: Option<T>): (r: Option<T>)
      ensures r.Some? <==> this.Some? || other.Some?
      ensures this.Some? ==> r == this
      ensures this.None? ==> r == other
    {
      if this.Some? then this else other
    }
  }

  /** `x === true` for an optional flag (and its truthiness, for a boolean). */
  predicate IsTrue(flag: Option<bool>)
  {
    flag == Some(true)
  }
}
