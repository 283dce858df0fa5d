/** Small shared datatypes. */
module Common {

  datatype Option<+T> = None | Some(value: T) {
    function GetOr(fallback: T): T {
      if Some? then value else fallback
    }
  }

  // A map is ranged over in any order: each round takes an arbitrary key that is left.
  method AnyOf<T>(keys: set<T>) returns (key: T)
    requires |keys| > 0
    ensures key in keys
  {
    key :| key in keys;
  }
}
