/** Byte strings and their concatenation. */
module ByteStrings {
  type Bytes = seq<bv8>

  function Joined(chunks: seq<Bytes>): Bytes {
    if chunks == [] then [] else Joined(chunks[..|chunks| - 1]) + chunks[|chunks| - 1]
  }
}
