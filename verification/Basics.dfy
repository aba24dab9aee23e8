/** What the models of several programs share. */
module Basics {
  const MAX_TASKS := 64

  const UINT32_RANGE := 0x1_0000_0000
  const INT32_MAX := 0x7FFF_FFFF

  /** The value of a 32-bit signed integer after overflow. */
  function Wrap32(x: int): int {
    (x + 0x8000_0000) % UINT32_RANGE - 0x8000_0000
  }

  ghost predicate Distinct<T>(s: seq<T>) {
    forall i, j :: 0 <= i < j < |s| ==> s[i] != s[j]
  }

  ghost predicate In<T>(s: seq<T>, t: T) {
    exists i :: 0 <= i < |s| && s[i] == t
  }
}
