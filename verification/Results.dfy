/** Optional values (`X | None`) and the result of an operation that can raise. */
module Results {
  datatype Option<+T> = None | Some(value: T)
  {
    function GetOr(default: T): T {
      if Some? then value else default
    }
  }

  datatype Result<+T, +E> = Ok(value: T) | Raised(error: E)
}
