/** The mutable interval map of a blob: clamp, split and coalesce, updated in place
    (janus-vfs/src/chunk/chunk_map.rs), and the loops that reload one (janus-vfs/src/blob/mod.rs). */
module ChunkMaps {
  import opened Wrappers
  import opened Chunks
  import opened ChunkEntries

  type Piece = (nat, ChunkEntry)

  function InsertPieces(m: Entries, pieces: seq<Piece>): Entries {
    if pieces == [] then m
    else InsertPieces(m, pieces[..|pieces| - 1])[pieces[|pieces| - 1].0 := pieces[|pieces| - 1].1]
  }

  predicate Overlaps(m: Entries, start: nat, end: nat, k: int) {
    k in m && k < end && start < m[k].end
  }

  /** The part before `start` of the range that runs into `start`, if it lies below `next`. */
  function LeftPiece(m: Entries, start: nat, next: nat): seq<Piece> {
    var p := KeyBelow(m, start);
    if p.Some? && p.value < next && start < m[p.value].end then [(p.value, m[p.value].(end := start))] else []
  }

  /** The part from `end` on of the range that runs over `end`, if it lies below `next`. */
  function RightPiece(m: Entries, end: nat, next: nat): seq<Piece> {
    var q := KeyBelow(m, end);
    if q.Some? && q.value < next && end < m[q.value].end
    then [(end, m[q.value].(chunkOffset := m[q.value].chunkOffset + (end - q.value)))]
    else []
  }

  function Kept(m: Entries, start: nat, end: nat): Entries {
    map k | k in m && (k < start || end <= k) :: Trimmed(m, start, k)
  }

  lemma LeftRebuilds(m: Entries, len: nat, start: nat, end: nat, next: nat, removed: set<nat>)
    requires WellFormed(m, len) && start < end
    requires forall k :: k in m && k < end ==> k < next
    requires forall k :: k in removed <==> Overlaps(m, start, end, k)
    ensures InsertPieces(m - removed, LeftPiece(m, start, next)) == Kept(m, start, end)
  {
    hide KeyBelow;
    var left := LeftPiece(m, start, next);
    InsertOnePiece(m - removed, left);
    var r := InsertPieces(m - removed, left);
    var p := KeyBelow(m, start);
    forall k | k in m && k < start && k !in removed ensures Trimmed(m, start, k) == m[k] { }
    forall k | k in removed && k < start ensures p == Some(k) { }
    assert r.Keys == Kept(m, start, end).Keys;
  }

  lemma InsertOnePiece(m: Entries, piece: seq<Piece>)
    requires |piece| <= 1
    ensures InsertPieces(m, piece) == if piece != [] then m[piece[0].0 := piece[0].1] else m
  {
    assert piece != [] ==> piece[..|piece| - 1] == [];
    assert InsertPieces(m, []) == m;
  }

  lemma PiecesRebuild(m: Entries, len: nat, start: nat, end: nat, next: nat, removed: set<nat>)
    requires WellFormed(m, len) && start < end
    requires forall k :: k in m && k < end ==> k < next
    requires forall k :: k in removed <==> Overlaps(m, start, end, k)
    ensures InsertPieces(m - removed, LeftPiece(m, start, next) + RightPiece(m, end, next)) == RemoveRange(m, start, end)
  {
    LeftRebuilds(m, len, start, end, next, removed);
    var left, right := LeftPiece(m, start, next), RightPiece(m, end, next);
    assert (left + right)[..|left|] == left;
    assert right == [] ==> left + right == left;
    assert RemoveRange(m, start, end)
      == if right != [] then Kept(m, start, end)[right[0].0 := right[0].1] else Kept(m, start, end);
  }

  /** The pieces the scan has so far, with those of the range at `k`. */
  function AddPieces(m: Entries, start: nat, end: nat, k: nat, pieces: seq<Piece>): seq<Piece>
    requires k in m && k < end
  {
    if m[k].end <= start then pieces
    else
      var withLeft := if k < start then pieces + [(k, m[k].(end := start))] else pieces;
      if end < m[k].end
      then withLeft + [(end, m[k].(chunkOffset := m[k].chunkOffset + (end - k)))]
      else withLeft
  }

  /** The step of the collecting loop from the range at `k` to the next one. */
  lemma PiecesStep(m: Entries, len: nat, start: nat, end: nat, k: nat, next: nat)
    requires WellFormed(m, len) && start < end
    requires k in m && k < end && k < next
    requires forall j :: j in m ==> j <= k || next <= j
    ensures LeftPiece(m, start, next) + RightPiece(m, end, next)
         == AddPieces(m, start, end, k, LeftPiece(m, start, k) + RightPiece(m, end, k))
    ensures forall j :: Overlaps(m, start, end, j) && j < next <==>
              (Overlaps(m, start, end, j) && j < k) || (j == k && start < m[k].end)
  {
    var p, q := KeyBelow(m, start), KeyBelow(m, end);
    assert q.Some? && k <= q.value;
    assert RightPiece(m, end, k) == [];
    if q.value != k {
      assert m[k].end <= q.value;
      assert next <= q.value;
    }
    if p.Some? && p.value != k && k < start {
      assert next <= p.value;
      assert m[k].end <= p.value;
    }
    if k >= start && p.Some? {
      assert p.value < k;
    }
  }

  lemma NothingBefore(m: Entries, len: nat, start: nat, end: nat, next: nat)
    requires WellFormed(m, len) && start < end
    requires var p := KeyAtOrBelow(m, start);
             next == if p.Some? then p.value
                     else if KeyFrom(m, 0).Some? then KeyFrom(m, 0).value else len
    ensures LeftPiece(m, start, next) == [] && RightPiece(m, end, next) == []
    ensures forall k :: Overlaps(m, start, end, k) ==> next <= k
  {
  }

  lemma PiecesAll(m: Entries, len: nat, start: nat, end: nat, next: nat)
    requires WellFormed(m, len) && start < end
    requires next < end ==> next == len
    ensures LeftPiece(m, start, next) == LeftPiece(m, start, Max(len, end))
    ensures RightPiece(m, end, next) == RightPiece(m, end, Max(len, end))
  {
  }

  class ChunkMap {
    var len: nat
    var entries: Entries

    /** Sorted by construction; non-empty, disjoint, within `len`, and coalesced. */
    ghost predicate Valid()
      reads this
    {
      len <= U64_MAX && WellFormed(entries, len) && Coalesced(entries)
    }

    constructor WithLen(len: nat)
      requires len <= U64_MAX
      ensures Valid() && this.len == len && entries == map[]
    {
      this.len := len;
      this.entries := map[];
    }

    method Iter() returns (ranges: seq<ChunkRange>)
      requires Valid()
      ensures ranges == Ranges(entries, len, 0) && Lists(entries, ranges)
      ensures forall i, j :: 0 <= i < j < |ranges| ==> ranges[i].offset + ranges[i].len <= ranges[j].offset
    {
      ranges := Ranges(entries, len, 0);
      RangesListFrom(entries, len, 0);
      RangesAscend(entries, len, 0);
    }

    method Insert(offset: nat, n: nat, id: ChunkId, chunkOffset: nat)
      requires Valid()
      modifies this`entries
      ensures Valid()
      ensures entries == ChunkEntries.Insert(old(entries), len, offset, n, id, chunkOffset)
      ensures forall x :: At(entries, x) ==
                if offset <= x < offset + n && x < len then Some(Place(id, chunkOffset + (x - offset)))
                else At(old(entries), x)
    {
      InsertMeaning(entries, len, offset, n, id, chunkOffset);
      if n == 0 {
        return;
      }
      var end := Min(SaturatingAdd(offset, n), len);
      if offset >= len || end <= offset {
        return;
      }
      RemoveRangeMeaning(entries, len, offset, end);
      RemoveRange(offset, end);
      InsertIntoGap(entries, len, offset, end, id, chunkOffset);
      entries := entries[offset := ChunkEntry(end, id, chunkOffset)];
      MergeAtMeaning(entries, len, offset);
      TryMergeAt(offset);
      var p := KeyBelow(entries, offset);
      if p.Some? {
        TryMergeAt(p.value);
      }
    }

    method Remove(offset: nat, n: nat)
      requires Valid()
      modifies this`entries
      ensures Valid()
      ensures entries == ChunkEntries.Remove(old(entries), len, offset, n)
      ensures forall x :: At(entries, x) == if offset <= x < offset + n then None else At(old(entries), x)
    {
      RemoveMeaning(entries, len, offset, n);
      if n == 0 {
        return;
      }
      if offset >= len {
        return;
      }
      var end := Min(SaturatingAdd(offset, n), len);
      RemoveRange(offset, end);
    }

    method SetLen(newLen: nat)
      requires Valid() && newLen <= U64_MAX
      modifies this
      ensures Valid()
      ensures len == newLen && entries == Resize(old(entries), old(len), newLen)
      ensures forall x :: At(entries, x) == if newLen <= x then None else At(old(entries), x)
    {
      ResizeMeaning(entries, len, newLen);
      if newLen < len {
        RemoveRange(newLen, len);
      }
      len := newLen;
    }

    method Get(offset: nat) returns (r: Option<MapEntry>)
      requires Valid()
      ensures r == ChunkEntries.Get(entries, len, offset)
    {
      if offset >= len {
        return None;
      }
      var p := KeyAtOrBelow(entries, offset);
      if p.Some? {
        var entry := entries[p.value];
        if offset < entry.end {
          var remaining := entry.end - offset;
          var chunkOff := entry.chunkOffset + (offset - p.value);
          return Some(Chunk(entry.chunkId, chunkOff, remaining));
        }
      }
      var next := KeyFrom(entries, offset + 1);
      var holeEnd := if next.Some? then Min(next.value, len) else len;
      return Some(Hole(holeEnd - offset));
    }

    method RemoveRange(start: nat, end: nat)
      requires WellFormed(entries, len)
      modifies this`entries
      ensures entries == ChunkEntries.RemoveRange(old(entries), start, end)
    {
      if start >= end {
        return;
      }
      var toRemove, toInsert := CollectEdits(start, end);
      PiecesRebuild(entries, len, start, end, Max(len, end), set k | k in toRemove);
      Replace(toRemove, toInsert);
    }

    /** The scan of `remove_range`: the ranges that overlap [start, end), and what remains of them. */
    method CollectEdits(start: nat, end: nat) returns (toRemove: seq<nat>, toInsert: seq<Piece>)
      requires WellFormed(entries, len) && start < end
      ensures forall k :: k in toRemove <==> Overlaps(entries, start, end, k)
      ensures toInsert == LeftPiece(entries, start, Max(len, end)) + RightPiece(entries, end, Max(len, end))
    {
      hide LeftPiece, RightPiece;
      var first := KeyAtOrBelow(entries, start);
      var cursor: Option<nat> := if first.Some? then first else KeyFrom(entries, 0);
      toRemove, toInsert := [], [];
      ghost var next: nat := if cursor.Some? then cursor.value else len;
      NothingBefore(entries, len, start, end, next);
      while cursor.Some? && cursor.value < end
        invariant cursor.Some? ==> cursor.value in entries && cursor.value == next
        invariant cursor.None? ==> next == len
        invariant next <= len
        invariant forall k :: k in toRemove <==> Overlaps(entries, start, end, k) && k < next
        invariant toInsert == LeftPiece(entries, start, next) + RightPiece(entries, end, next)
        decreases len - next + (if cursor.Some? then 1 else 0)
      {
        var k: nat := cursor.value;
        var entry := entries[k];
        cursor := KeyFrom(entries, k + 1);
        next := if cursor.Some? then cursor.value else len;
        PiecesStep(entries, len, start, end, k, next);
        if entry.end > start {
          toRemove := toRemove + [k];
          if k < start {
            toInsert := toInsert + [(k, entry.(end := start))];
          }
          if entry.end > end {
            toInsert := toInsert + [(end, entry.(chunkOffset := entry.chunkOffset + (end - k)))];
          }
        }
      }
      PiecesAll(entries, len, start, end, next);
    }

    method Replace(toRemove: seq<nat>, toInsert: seq<Piece>)
      modifies this`entries
      ensures entries == InsertPieces(old(entries) - (set k | k in toRemove), toInsert)
    {
      ghost var m := entries;
      for i := 0 to |toRemove|
        invariant forall k :: k in entries <==> k in m && k !in toRemove[..i]
        invariant forall k :: k in entries ==> entries[k] == m[k]
      {
        entries := entries - {toRemove[i]};
      }
      assert entries == m - (set k | k in toRemove);
      for i := 0 to |toInsert|
        invariant entries == InsertPieces(m - (set k | k in toRemove), toInsert[..i])
      {
        assert toInsert[..i + 1][..i] == toInsert[..i];
        entries := entries[toInsert[i].0 := toInsert[i].1];
      }
      assert toInsert[..|toInsert|] == toInsert;
    }

    method TryMergeAt(start: nat)
      requires WellFormed(entries, len)
      modifies this`entries
      ensures entries == MergeAt(old(entries), start)
    {
      if start !in entries {
        return;
      }
      var entry := entries[start];
      var next := KeyFrom(entries, start + 1);
      if next.Some? {
        var nextEntry := entries[next.value];
        if entry.end == next.value && entry.chunkId == nextEntry.chunkId
           && entry.chunkOffset + (entry.end - start) == nextEntry.chunkOffset
        {
          var mergedEnd := nextEntry.end;
          entries := entries - {next.value};
          entries := entries[start := entries[start].(end := mergedEnd)];
        }
      }
    }
  }

  lemma AscendFront(range: ChunkRange, rest: seq<ChunkRange>)
    requires forall i, j :: 0 <= i < j < |rest| ==> rest[i].offset + rest[i].len <= rest[j].offset
    requires forall j :: 0 <= j < |rest| ==> range.offset + range.len <= rest[j].offset
    ensures var all := [range] + rest;
            forall i, j :: 0 <= i < j < |all| ==> all[i].offset + all[i].len <= all[j].offset
  {
  }

  lemma {:induction false} RangesAscend(m: Entries, len: nat, from: nat)
    requires WellFormed(m, len)
    ensures forall i :: 0 <= i < |Ranges(m, len, from)| ==> from <= Ranges(m, len, from)[i].offset
    ensures forall i, j :: 0 <= i < j < |Ranges(m, len, from)| ==>
              Ranges(m, len, from)[i].offset + Ranges(m, len, from)[i].len <= Ranges(m, len, from)[j].offset
    decreases len - from
  {
    hide KeyFrom;
    var k := KeyFrom(m, from);
    if k.Some? {
      var rest := Ranges(m, len, k.value + 1);
      RangesAscend(m, len, k.value + 1);
      RangesListFrom(m, len, k.value + 1);
      forall j | 0 <= j < |rest| ensures m[k.value].end <= rest[j].offset {
        assert RangeOf(m, rest[j]) && k.value < rest[j].offset;
      }
      AscendFront(Ranges(m, len, from)[0], rest);
    }
  }
}
