/** The memory tape: a fixed number of unsigned 8-bit cells that wrap around. */
module Tape {

  /** Number of cells on the tape. */
  const MEMSIZE: nat := 65536

  /** One cell, as an element of a `Uint8Array`. */
  type Byte = b: int | 0 <= b < 256

  /** `data[p]++` on a byte cell: 255 wraps to 0. */
  function Inc(b: Byte): (r: Byte)
    ensures r == (b + 1) % 256
  {
    if b == 255 then 0 else b + 1
  }

  /** `data[p]--` on a byte cell: 0 wraps to 255. */
  function Dec(b: Byte): (r: Byte)
    ensures r == (b - 1) % 256
  {
    if b == 0 then 255 else b - 1
  }

  /** Incrementing and decrementing a cell undo each other. */
  lemma IncDecInverse(b: Byte)
    ensures Dec(Inc(b)) == b && Inc(Dec(b)) == b
  {
  }

  /** A tape of MEMSIZE zero cells. */
  function Blank(): (t: seq<Byte>)
    ensures |t| == MEMSIZE && forall k :: 0 <= k < |t| ==> t[k] == 0
  {
    seq(MEMSIZE, _ => 0)
  }
}
