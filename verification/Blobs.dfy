/** Blobs as values: a length and a chunk map, read as a flat byte array, identified by a hash
    over the ranges, stored as ranges and loaded by re-inserting them (janus-vfs/src/blob/mod.rs). */
module Blobs {
  import opened Wrappers
  import opened Chunks
  import opened ChunkEntries
  import opened ChunkMaps

  datatype Blob = Blob(len: nat, entries: Entries)

  /** `ChunkMap::hash`: the length, then every range in order. */
  datatype BlobId = HashOfRanges(len: nat, ranges: seq<ChunkRange>)

  ghost predicate ValidBlob(b: Blob) {
    b.len <= U64_MAX && WellFormed(b.entries, b.len) && Coalesced(b.entries) && Backed(b.entries)
  }

  /** Every range lies inside its chunk. */
  ghost predicate Backed(m: Entries) {
    forall s :: s in m && s < m[s].end ==> m[s].chunkOffset + (m[s].end - s) <= |m[s].chunkId.content|
  }

  function Id(b: Blob): BlobId
    requires WellFormed(b.entries, b.len)
  {
    HashOfRanges(b.len, Ranges(b.entries, b.len, 0))
  }

  // ---------- the flat byte array ----------

  ghost function PlaceByte(p: Option<Place>): byte {
    if p.Some? && p.value.position < |p.value.chunkId.content| then p.value.chunkId.content[p.value.position] else 0
  }

  /** The byte at offset `x`; a hole reads as zero. */
  ghost function ByteAt(b: Blob, x: int): byte {
    PlaceByte(At(b.entries, x))
  }

  ghost function Bytes(b: Blob): (r: seq<byte>)
    ensures |r| == b.len && forall x :: 0 <= x < b.len ==> r[x] == ByteAt(b, x)
  {
    seq(b.len, x => ByteAt(b, x))
  }

  /** `data` written over `base` at `pos`, with zeros filling any gap before it. */
  function Overlay(base: seq<byte>, pos: nat, data: seq<byte>): (r: seq<byte>)
    ensures |r| == Max(|base|, pos + |data|)
    ensures forall x :: 0 <= x < |r| ==>
              r[x] == if pos <= x < pos + |data| then data[x - pos] else if x < |base| then base[x] else 0
  {
    seq(Max(|base|, pos + |data|), x =>
      if pos <= x < pos + |data| then data[x - pos] else if 0 <= x < |base| then base[x] else 0)
  }

  /** The array cut or zero-extended to `n` bytes. */
  function Resized(base: seq<byte>, n: nat): (r: seq<byte>)
    ensures |r| == n
    ensures forall x :: 0 <= x < n ==> r[x] == if x < |base| then base[x] else 0
  {
    seq(n, x => if 0 <= x < |base| then base[x] else 0)
  }

  // ---------- identity and reload ----------

  /** Equal ids mean equal maps, and an id is enough to rebuild its map. */
  lemma IdDeterminesBlob(a: Blob, b: Blob)
    requires ValidBlob(a) && ValidBlob(b)
    ensures Id(a) == Id(b) <==> a == b
    ensures InsertAll(map[], Id(a).len, Id(a).ranges) == a.entries
  {
    RangesListFrom(a.entries, a.len, 0);
    RangesListFrom(b.entries, b.len, 0);
    ReloadRestores(a.entries, a.len, Ranges(a.entries, a.len, 0));
    ReloadRestores(b.entries, b.len, Ranges(b.entries, b.len, 0));
  }

  /** The loop both loaders run: an empty map of the stored length, then one insert per stored range. */
  method Load(len: nat, ranges: seq<ChunkRange>) returns (cm: ChunkMap)
    requires len <= U64_MAX
    ensures fresh(cm) && cm.Valid() && cm.len == len
    ensures cm.entries == InsertAll(map[], len, ranges)
    ensures forall m :: WellFormed(m, len) && Coalesced(m) && Lists(m, ranges) ==> cm.entries == m
  {
    cm := new ChunkMap.WithLen(len);
    for i := 0 to |ranges|
      invariant cm.Valid() && cm.len == len
      invariant cm.entries == InsertAll(map[], len, ranges[..i])
    {
      assert ranges[..i + 1][..i] == ranges[..i];
      cm.Insert(ranges[i].offset, ranges[i].len, ranges[i].chunkId, ranges[i].chunkOffset);
    }
    assert ranges[..|ranges|] == ranges;
    forall m | WellFormed(m, len) && Coalesced(m) && Lists(m, ranges) ensures cm.entries == m {
      ReloadRestores(m, len, ranges);
    }
  }

  lemma ResizeKeepsBacked(m: Entries, len: nat, newLen: nat)
    requires WellFormed(m, len) && Coalesced(m) && Backed(m)
    ensures Backed(Resize(m, len, newLen))
  {
    var r := Resize(m, len, newLen);
    ResizeMeaning(m, len, newLen);
    forall s | s in r ensures r[s].chunkOffset + (r[s].end - s) <= |r[s].chunkId.content| {
      var last := r[s].end - 1;
      AtCovered(r, newLen, s, last);
      var t := AtSome(m, len, last);
    }
  }
}
