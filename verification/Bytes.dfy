/** Bytes, and the end of a sequence. */
module Bytes {

  type Byte = x: int | 0 <= x < 256

  /** The last `n` elements, or all of them. */
  function Last<T>(s: seq<T>, n: nat): seq<T> { if |s| <= n then s else s[|s| - n..] }
}
