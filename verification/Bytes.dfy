/** Bytes as the C sources see them, and the record separator of the LLM stream framing. */
module Bytes {
  type Byte = bv8

  /** AIRY_LLM_STREAM_RS: ASCII record separator. */
  const RS: Byte := 0x1e

  /** Concatenation of a list of byte strings, last one last. */
  function Concat(parts: seq<seq<Byte>>): seq<Byte> {
    if parts == [] then [] else Concat(parts[..|parts| - 1]) + parts[|parts| - 1]
  }
}
