/** Small notions that several parts share. */
module Basics {
  datatype Option<+T> = None | Some(value: T)

  predicate Distinct(s: seq<nat>) {
    forall i, j :: 0 <= i < j < |s| ==> s[i] != s[j]
  }

  type Byte = bv8

  const PAGE: nat := 4096

  /** How many values a 64-bit word has. */
  const WORD: nat := 0x1_0000_0000_0000_0000
}
