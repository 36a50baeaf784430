/** Optional values, standing for Python's `None` or a present value. */
module Wrappers {
  datatype Option<T> = None | Some(value: T)
  {
    /** The value, or `default` when absent. */
    function GetOr(default: T): T
    {
      if Some? then value else default
    }
  }
}
