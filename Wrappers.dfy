/** Option type standing for Python's `Optional[...]` and for "the key is absent". */
module Wrappers {

  datatype Option<+T> = None | Some(value: T) {

    /** `dict.get(key, default)` once the lookup has produced this option. */
    function GetOr(default: T): T {
      match this
      case Some(v) => v
      case None => default
    }
  }
}
