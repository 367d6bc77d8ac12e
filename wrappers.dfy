/** Optional values, standing for PHP's nullable columns and return values. */
module Wrappers {
  datatype Option<T> = None | Some(value: T)
  {
    /** PHP's `??`: the value when it is not null, otherwise the fallback. */
    function GetOr(fallback: T): (r: T)
      ensures this.Some? ==> r == this.value
      ensures this.None? ==> r == fallback
    {
      match this
      case Some(v) => v
      case None => fallback
    }
  }

  /** `a ?? b` where both sides may be null. */
  function OrElse<T>(a: Option<T>, b: Option<T>): (r: Option<T>)
    ensures r.Some? <==> (a.Some? || b.Some?)
    ensures a.Some? ==> r == a
    ensures a.None? ==> r == b
  {
    if a.Some? then a else b
  }

  /** PHP's truthiness of a string: neither empty nor "0". */
  predicate TruthyString(s: string)
  {
    s != "" && s != "0"
  }
}
