/** Byte streams that arrive in pieces. */
module Bytes {

  newtype byte = b: int | 0 <= b < 0x100

  function Flatten(chunks: seq<seq<byte>>): seq<byte> {
    if chunks == [] then [] else Flatten(chunks[..|chunks| - 1]) + chunks[|chunks| - 1]
  }
}
