/** What several of the models use. */
module Common {
  datatype Option<T> = None | Some(value: T)

  /** The values of the 32-bit unsigned type. */
  const UINT_LIMIT := 0x1_0000_0000

  type Uint = x: int | 0 <= x < UINT_LIMIT

  ghost predicate Distinct(s: seq<nat>) {
    forall i, j :: 0 <= i < j < |s| ==> s[i] != s[j]
  }

  /** s without its element j. */
  function Without(s: seq<nat>, j: nat): seq<nat>
    requires j < |s|
  {
    s[..j] + s[j + 1..]
  }
}
