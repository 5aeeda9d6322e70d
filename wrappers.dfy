/** The Option type used for Python's `None`-or-value. */
module Wrappers {

  datatype Option<+T> = None | Some(value: T) {

    /** The value, or `default` when there is none: `os.getenv(key, default)`
        for an environment variable, so a variable set to "" gives "". */
    function GetOr(default: T): T {
      match this
      case Some(v) => v
      case None => default
    }
  }
}
