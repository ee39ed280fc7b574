/** Counting the `true` entries of a row of flags (which buttons or tabs are highlighted). */
module Flags {

  function CountTrue(flags: seq<bool>): (n: nat)
    ensures n <= |flags|
  {
    if flags == [] then 0
    else CountTrue(flags[..|flags| - 1]) + (if flags[|flags| - 1] then 1 else 0)
  }
}
