/** Small shared values. */
module Wrappers {
  /** Used where the source raises a failure or returns nothing. */
  datatype Option<+T> = None | Some(value: T)

  function Min(a: nat, b: nat): nat { if a < b then a else b }

  function Max(a: nat, b: nat): nat { if a > b then a else b }

  /** A crash fuse counts the durable effects that still succeed; without one nothing crashes. */
  function Spend(fuse: Option<nat>): (left: Option<nat>)
    ensures fuse.None? ==> left.None?
  {
    if fuse.None? || fuse.value == 0 then fuse else Some(fuse.value - 1)
  }
}
