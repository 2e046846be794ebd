/** What several modules share. */
module Wrappers {

  datatype Option<+T> = None | Some(value: T) {
    function GetOr(default: T): T {
      match this
      case Some(v) => v
      case None => default
    }
  }

  /** A number that is not in use. */
  function Fresh(used: set<nat>): (key: nat)
    ensures key !in used
  {
    FreshAbove(used, 0)
  }

  function FreshAbove(used: set<nat>, from: nat): (key: nat)
    ensures key !in used && key >= from
    decreases |set x | x in used && x >= from|
  {
    if from in used then
      assert (set x | x in used && x >= from) == (set x | x in used && x >= from + 1) + {from};
      FreshAbove(used, from + 1)
    else from
  }
}
