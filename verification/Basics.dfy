/** Small shared vocabulary: optional values (a C pointer that may be NULL), bytes and
    the fixed-width unsigned integers of the wire format. */
module Basics {

  datatype Option<+T> = None | Some(value: T)

  lemma Associative<T>(x: seq<T>, y: seq<T>, z: seq<T>)
    ensures x + y + z == x + (y + z)
  {
  }

  lemma SliceHead<T>(s: seq<T>, k: nat)
    requires k < |s|
    ensures s[k..] == [s[k]] + s[k + 1..]
  {
  }

  /** The first n thread numbers. */
  function Below(n: nat): (s: set<nat>)
    ensures forall h: nat :: h in s <==> h < n
    ensures |s| == n
  {
    if n == 0 then {} else Below(n - 1) + {n - 1}
  }

  type byte = b: int | 0 <= b < 0x100
  type uint16 = x: int | 0 <= x < 0x1_0000
  type uint32 = x: int | 0 <= x < 0x1_0000_0000
  type uint64 = x: int | 0 <= x < 0x1_0000_0000_0000_0000
}
