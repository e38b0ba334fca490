/** Chunks of file content and their identifiers (janus-vfs/src/chunk/mod.rs).

    A content hash is an ideal one: the identifier is the free term built from what is hashed,
    so two identifiers are equal exactly when their inputs are. */
module Chunks {
  newtype byte = x: int | 0 <= x < 256

  /** `blake3` over the chunk's length and content. */
  datatype ChunkId = HashOf(content: seq<byte>)

  const U64_MAX: nat := 0xFFFF_FFFF_FFFF_FFFF

  function SaturatingAdd(a: nat, b: nat): (r: nat)
    ensures r <= U64_MAX && (a + b <= U64_MAX ==> r == a + b) && (a + b >= U64_MAX ==> r == U64_MAX)
  {
    if a + b > U64_MAX then U64_MAX else a + b
  }

  function Min(a: nat, b: nat): nat {
    if a < b then a else b
  }

  function Max(a: nat, b: nat): nat {
    if a < b then b else a
  }
}
