/** Small datatypes shared by all modules. */
module Wrappers {

  datatype Option<+T> = None | Some(value: T) {
    function GetOr(default: T): T {
      match this
      case Some(v) => v
      case None => default
    }
  }

  function Max0(n: int): (r: nat) {
    if n < 0 then 0 else n
  }
}
