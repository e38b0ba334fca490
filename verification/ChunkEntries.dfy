/** The value a chunk map holds: ranges of a file keyed by their start offset, as pure functions
    with their meaning as a partial function from offset to a place inside a chunk
    (janus-vfs/src/chunk/chunk_map.rs). */
module ChunkEntries {
  import opened Wrappers
  import opened Chunks

  datatype ChunkEntry = ChunkEntry(end: nat, chunkId: ChunkId, chunkOffset: nat)

  /** The `BTreeMap` from range start to range. */
  type Entries = map<nat, ChunkEntry>

  /** Where one byte of the file lives. */
  datatype Place = Place(chunkId: ChunkId, position: nat)

  datatype ChunkRange = ChunkRange(offset: nat, len: nat, chunkId: ChunkId, chunkOffset: nat)

  datatype MapEntry =
    | Chunk(chunkId: ChunkId, chunkOffset: nat, len: nat)
    | Hole(len: nat)

  // ---------- meaning ----------

  predicate Covers(m: Entries, s: int, x: int) {
    s in m && s <= x < m[s].end
  }

  /** The meaning of a map: the place of offset `x`, or a hole. */
  ghost function At(m: Entries, x: int): Option<Place> {
    if exists s :: Covers(m, s, x) then
      var s :| Covers(m, s, x);
      Some(Place(m[s].chunkId, m[s].chunkOffset + (x - s)))
    else None
  }

  /** Ranges are non-empty, end within the file and do not overlap. */
  ghost predicate WellFormed(m: Entries, len: nat) {
    && (forall s :: s in m ==> s < m[s].end <= len)
    && (forall s, t :: s in m && t in m && s < t ==> m[s].end <= t)
  }

  /** The range at `s` runs on, in the same chunk, into the range that starts where it ends. */
  predicate Joins(m: Entries, s: int) {
    && s in m && m[s].end in m && s < m[s].end
    && m[s].chunkId == m[m[s].end].chunkId
    && m[s].chunkOffset + (m[s].end - s) == m[m[s].end].chunkOffset
  }

  ghost predicate Coalesced(m: Entries) {
    forall s :: s in m ==> !Joins(m, s)
  }

  lemma AtCovered(m: Entries, len: nat, s: int, x: int)
    requires WellFormed(m, len) && Covers(m, s, x)
    ensures At(m, x) == Some(Place(m[s].chunkId, m[s].chunkOffset + (x - s)))
  {
    forall t | Covers(m, t, x) ensures t == s {
    }
  }

  lemma AtSome(m: Entries, len: nat, x: int) returns (s: nat)
    requires WellFormed(m, len) && At(m, x).Some?
    ensures Covers(m, s, x) && At(m, x) == Some(Place(m[s].chunkId, m[s].chunkOffset + (x - s)))
  {
    s :| Covers(m, s, x);
    AtCovered(m, len, s, x);
  }

  // ---------- BTreeMap range queries ----------

  predicate LastAtOrBelow(m: Entries, x: nat, k: nat) {
    k in m && k <= x && forall j :: j in m && j <= x ==> j <= k
  }

  predicate FirstFrom(m: Entries, x: nat, k: nat) {
    k in m && x <= k && forall j :: j in m && x <= j ==> k <= j
  }

  lemma {:induction false} LastExists(m: Entries, x: nat, k: nat)
    requires k in m && k <= x
    ensures exists l :: LastAtOrBelow(m, x, l)
    decreases x - k
  {
    if j :| j in m && k < j <= x {
      LastExists(m, x, j);
    } else {
      assert LastAtOrBelow(m, x, k);
    }
  }

  lemma {:induction false} FirstExists(m: Entries, x: nat, k: nat)
    requires k in m && x <= k
    ensures exists f :: FirstFrom(m, x, f)
    decreases k - x
  {
    if j :| j in m && x <= j < k {
      FirstExists(m, x, j);
    } else {
      assert FirstFrom(m, x, k);
    }
  }

  /** `range(..=x).next_back()` */
  function KeyAtOrBelow(m: Entries, x: nat): (r: Option<nat>)
    ensures r.Some? ==> LastAtOrBelow(m, x, r.value)
    ensures r.None? ==> forall k :: k in m ==> x < k
  {
    if k: nat :| k in m && k <= x then
      LastExists(m, x, k);
      var l: nat :| l in m && LastAtOrBelow(m, x, l);
      Some(l)
    else None
  }

  /** `range(..x).next_back()` */
  function KeyBelow(m: Entries, x: nat): (r: Option<nat>)
    ensures r.Some? ==> r.value < x && LastAtOrBelow(m, x - 1, r.value)
    ensures r.None? ==> forall k :: k in m ==> x <= k
  {
    if x == 0 then None else KeyAtOrBelow(m, x - 1)
  }

  /** `range(x..).next()` */
  function KeyFrom(m: Entries, x: nat): (r: Option<nat>)
    ensures r.Some? ==> FirstFrom(m, x, r.value)
    ensures r.None? ==> forall k :: k in m ==> k < x
  {
    if k: nat :| k in m && x <= k then
      FirstExists(m, x, k);
      var f: nat :| f in m && FirstFrom(m, x, f);
      Some(f)
    else None
  }

  // ---------- the updates ----------

  /** What `remove_range(start, end)` leaves of the range at `k`: the part before `start`. */
  function Trimmed(m: Entries, start: nat, k: nat): ChunkEntry
    requires k in m
  {
    if k < start < m[k].end then m[k].(end := start) else m[k]
  }

  function RemoveRange(m: Entries, start: nat, end: nat): Entries {
    if start >= end then m
    else
      var kept := map k | k in m && (k < start || end <= k) :: Trimmed(m, start, k);
      var p := KeyBelow(m, end);
      if p.Some? && m[p.value].end > end
      then kept[end := m[p.value].(chunkOffset := m[p.value].chunkOffset + (end - p.value))]
      else kept
  }

  function MergeAt(m: Entries, start: nat): Entries {
    if Joins(m, start)
    then (m - {m[start].end})[start := m[start].(end := m[m[start].end].end)]
    else m
  }

  function InsertEnd(len: nat, offset: nat, n: nat): nat {
    Min(SaturatingAdd(offset, n), len)
  }

  function Insert(m: Entries, len: nat, offset: nat, n: nat, id: ChunkId, chunkOffset: nat): Entries {
    var end := InsertEnd(len, offset, n);
    if n == 0 || offset >= len || end <= offset then m
    else
      var cut := RemoveRange(m, offset, end)[offset := ChunkEntry(end, id, chunkOffset)];
      var right := MergeAt(cut, offset);
      var p := KeyBelow(right, offset);
      if p.Some? then MergeAt(right, p.value) else right
  }

  function Remove(m: Entries, len: nat, offset: nat, n: nat): Entries {
    if n == 0 || offset >= len then m
    else RemoveRange(m, offset, InsertEnd(len, offset, n))
  }

  function Resize(m: Entries, len: nat, newLen: nat): Entries {
    if newLen < len then RemoveRange(m, newLen, len) else m
  }

  // ---------- what they mean ----------

  /** `remove_range` punches exactly the hole [start, end) and keeps the map canonical. */
  lemma RemoveRangeMeaning(m: Entries, len: nat, start: nat, end: nat)
    requires WellFormed(m, len) && start < end
    ensures WellFormed(RemoveRange(m, start, end), len)
    ensures forall x :: At(RemoveRange(m, start, end), x) == if start <= x < end then None else At(m, x)
    ensures Coalesced(m) ==> Coalesced(RemoveRange(m, start, end))
    ensures forall k :: k in RemoveRange(m, start, end) ==> k < start || end <= k
    ensures forall k :: k in RemoveRange(m, start, end) && k < start ==> RemoveRange(m, start, end)[k].end <= start
  {
    RemoveRangeShape(m, len, start, end);
    var r := RemoveRange(m, start, end);
    forall x ensures At(r, x) == if start <= x < end then None else At(m, x) {
      RemoveRangeAt(m, len, start, end, x);
    }
    if Coalesced(m) {
      RemoveRangeCoalesced(m, len, start, end);
    }
  }

  lemma RemoveRangeShape(m: Entries, len: nat, start: nat, end: nat)
    requires WellFormed(m, len) && start < end
    ensures WellFormed(RemoveRange(m, start, end), len)
    ensures forall k :: k in RemoveRange(m, start, end) ==> k < start || end <= k
    ensures forall k :: k in RemoveRange(m, start, end) && k < start ==> RemoveRange(m, start, end)[k].end <= start
  {
    var r := RemoveRange(m, start, end);
    var p := KeyBelow(m, end);
    if p.Some? && m[p.value].end > end {
      assert end !in m;
      forall t | t in m && end < t ensures r[end].end <= t { assert m[p.value].end <= t; }
    }
  }

  /** What is left of the range at `s`: its part before `start`, and its part from `end` on. */
  lemma RemoveRangeLeaves(m: Entries, len: nat, start: nat, end: nat, s: nat)
    requires WellFormed(m, len) && start < end && s in m
    ensures var r := RemoveRange(m, start, end);
            && (s < start || end <= s ==> s in r && r[s] == Trimmed(m, start, s))
            && (s < end < m[s].end ==> end in r && r[end] == m[s].(chunkOffset := m[s].chunkOffset + (end - s)))
  {
    if s < end < m[s].end {
      assert KeyBelow(m, end) == Some(s);
    }
  }

  lemma RemoveRangeKeeps(m: Entries, len: nat, start: nat, end: nat, s: nat, x: nat)
    requires WellFormed(m, len) && start < end
    requires Covers(m, s, x) && (x < start || end <= x)
    ensures At(RemoveRange(m, start, end), x) == At(m, x)
  {
    hide At, WellFormed, RemoveRange, KeyBelow;
    RemoveRangeShape(m, len, start, end);
    RemoveRangeLeaves(m, len, start, end, s);
    AtCovered(m, len, s, x);
    AtCovered(RemoveRange(m, start, end), len, if s < end <= x then end else s, x);
  }

  lemma RemoveRangeAddsNothing(m: Entries, len: nat, start: nat, end: nat, s: nat, x: nat)
    requires WellFormed(m, len) && start < end
    requires Covers(RemoveRange(m, start, end), s, x)
    ensures (x < start || end <= x) && exists t :: Covers(m, t, x)
  {
    RemoveRangeShape(m, len, start, end);
    var p := KeyBelow(m, end);
    if s == end && p.Some? && m[p.value].end > end {
      assert Covers(m, p.value, x);
    } else {
      assert Covers(m, s, x);
    }
  }

  lemma RemoveRangeAt(m: Entries, len: nat, start: nat, end: nat, x: int)
    requires WellFormed(m, len) && start < end
    ensures At(RemoveRange(m, start, end), x) == if start <= x < end then None else At(m, x)
  {
    RemoveRangeShape(m, len, start, end);
    if At(RemoveRange(m, start, end), x).Some? {
      var s := AtSome(RemoveRange(m, start, end), len, x);
      RemoveRangeAddsNothing(m, len, start, end, s, x);
    }
    if At(m, x).Some? && !(start <= x < end) {
      var s := AtSome(m, len, x);
      RemoveRangeKeeps(m, len, start, end, s, x);
    }
  }

  lemma RemoveRangeCoalesced(m: Entries, len: nat, start: nat, end: nat)
    requires WellFormed(m, len) && start < end && Coalesced(m)
    ensures Coalesced(RemoveRange(m, start, end))
  {
    forall s | s in RemoveRange(m, start, end) ensures !Joins(RemoveRange(m, start, end), s) {
      RemoveRangeSeam(m, len, start, end, s);
    }
  }

  lemma RemoveRangeSeam(m: Entries, len: nat, start: nat, end: nat, s: nat)
    requires WellFormed(m, len) && start < end && s in RemoveRange(m, start, end)
    ensures Joins(RemoveRange(m, start, end), s) ==> exists k :: Joins(m, k)
  {
    hide KeyBelow;
    RemoveRangeShape(m, len, start, end);
    var r := RemoveRange(m, start, end);
    var p := KeyBelow(m, end);
    var k := if s == end && p.Some? && m[p.value].end > end then p.value else s;
    assert Joins(r, s) ==> Joins(m, k);
  }

  /** Merging never changes the meaning. */
  lemma MergeAtMeaning(m: Entries, len: nat, k: nat)
    requires WellFormed(m, len)
    ensures WellFormed(MergeAt(m, k), len)
    ensures forall x :: At(MergeAt(m, k), x) == At(m, x)
  {
    if Joins(m, k) { MergeAtShape(m, len, k); }
    if Joins(m, k) {
      forall x ensures At(MergeAt(m, k), x) == At(m, x) {
        MergeAtAt(m, len, k, x);
      }
    }
  }

  lemma MergeAtShape(m: Entries, len: nat, k: nat)
    requires WellFormed(m, len) && Joins(m, k)
    ensures WellFormed(MergeAt(m, k), len)
  {
    var t := m[k].end;
    assert forall s :: s in m && k < s && s != t ==> m[t].end <= s;
  }

  lemma MergeAtAt(m: Entries, len: nat, k: nat, x: int)
    requires WellFormed(m, len) && Joins(m, k)
    ensures At(MergeAt(m, k), x) == At(m, x)
  {
    var r, t := MergeAt(m, k), m[k].end;
    MergeAtShape(m, len, k);
    if At(m, x).Some? {
      var s := AtSome(m, len, x);
      AtCovered(r, len, if s == t then k else s, x);
    } else if At(r, x).Some? {
      var s := AtSome(r, len, x);
      assert Covers(m, if s == k && t <= x then t else s, x);
    }
  }

  /** Only the ranges at `dirty` may still run on into their neighbour. */
  ghost predicate CoalescedExcept(m: Entries, dirty: set<nat>) {
    forall s :: s in m && s !in dirty ==> !Joins(m, s)
  }

  lemma MergeAtCoalesces(m: Entries, len: nat, k: nat, dirty: set<nat>)
    requires WellFormed(m, len) && CoalescedExcept(m, dirty + {k})
    requires k in m ==> m[k].end !in dirty
    ensures CoalescedExcept(MergeAt(m, k), dirty)
  {
    var r := MergeAt(m, k);
    if Joins(m, k) {
      var t := m[k].end;
      assert t !in dirty + {k};
      assert !Joins(m, t);
      forall s | s in r && s !in dirty ensures !Joins(r, s) {
        if s == k {
          assert Joins(r, k) ==> Joins(m, t);
        } else {
          assert Joins(r, s) ==> Joins(m, s) by {
            if Joins(r, s) && r[s].end == k { }
          }
        }
      }
    }
  }

  /** `insert` is the clamped pointwise update, and the result is canonical again. */
  lemma InsertMeaning(m: Entries, len: nat, offset: nat, n: nat, id: ChunkId, chunkOffset: nat)
    requires WellFormed(m, len) && Coalesced(m) && len <= U64_MAX
    ensures var r := Insert(m, len, offset, n, id, chunkOffset);
            && WellFormed(r, len) && Coalesced(r)
            && forall x :: At(r, x) ==
                 if offset <= x < offset + n && x < len then Some(Place(id, chunkOffset + (x - offset)))
                 else At(m, x)
  {
    var end := InsertEnd(len, offset, n);
    if !(n == 0 || offset >= len || end <= offset) {
      var gap := RemoveRange(m, offset, end);
      RemoveRangeMeaning(m, len, offset, end);
      var cut := gap[offset := ChunkEntry(end, id, chunkOffset)];
      InsertIntoGap(gap, len, offset, end, id, chunkOffset);
      MergeAtMeaning(cut, len, offset);
      var right := MergeAt(cut, offset);
      var p := KeyBelow(right, offset);
      var before := if p.Some? then {p.value} else {};
      InsertSeams(gap, len, offset, end, id, chunkOffset, before);
      MergeAtCoalesces(cut, len, offset, before);
      if p.Some? {
        MergeAtMeaning(right, len, p.value);
        assert {} + {p.value} == before;
        MergeAtCoalesces(right, len, p.value, {});
      }
    }
  }

  /** After the new range is put into its gap, only it and its left neighbour can need merging. */
  lemma InsertSeams(gap: Entries, len: nat, offset: nat, end: nat, id: ChunkId, chunkOffset: nat, before: set<nat>)
    requires WellFormed(gap, len) && Coalesced(gap) && offset < end <= len
    requires forall k :: k in gap ==> k < offset || end <= k
    requires forall k :: k in gap && k < offset ==> gap[k].end <= offset
    requires var cut := gap[offset := ChunkEntry(end, id, chunkOffset)];
             var p := KeyBelow(MergeAt(cut, offset), offset);
             WellFormed(cut, len) && before == if p.Some? then {p.value} else {}
    ensures CoalescedExcept(gap[offset := ChunkEntry(end, id, chunkOffset)], before + {offset})
  {
    var cut := gap[offset := ChunkEntry(end, id, chunkOffset)];
    forall s | s in cut && s !in before + {offset} ensures !Joins(cut, s) {
      var e := cut[s].end;
      assert e == offset ==> s in MergeAt(cut, offset);
      assert Joins(cut, s) && e != offset ==> Joins(gap, s);
    }
  }

  lemma InsertIntoGap(gap: Entries, len: nat, offset: nat, end: nat, id: ChunkId, chunkOffset: nat)
    requires WellFormed(gap, len) && offset < end <= len
    requires forall k :: k in gap ==> k < offset || end <= k
    requires forall k :: k in gap && k < offset ==> gap[k].end <= offset
    ensures var cut := gap[offset := ChunkEntry(end, id, chunkOffset)];
            && WellFormed(cut, len)
            && forall x :: At(cut, x) ==
                 if offset <= x < end then Some(Place(id, chunkOffset + (x - offset))) else At(gap, x)
  {
    var cut := gap[offset := ChunkEntry(end, id, chunkOffset)];
    assert WellFormed(cut, len);
    hide WellFormed, At;
    forall x ensures At(cut, x) == if offset <= x < end then Some(Place(id, chunkOffset + (x - offset))) else At(gap, x)
    {
      if At(cut, x).Some? {
        var s := AtSome(cut, len, x);
        if s != offset { AtCovered(gap, len, s, x); }
      }
      if offset <= x < end {
        AtCovered(cut, len, offset, x);
      } else if At(gap, x).Some? {
        var s := AtSome(gap, len, x);
        AtCovered(cut, len, s, x);
      }
    }
  }

  /** `remove` is the clamped pointwise removal. */
  lemma RemoveMeaning(m: Entries, len: nat, offset: nat, n: nat)
    requires WellFormed(m, len) && Coalesced(m) && len <= U64_MAX
    ensures var r := Remove(m, len, offset, n);
            && WellFormed(r, len) && Coalesced(r)
            && forall x :: At(r, x) == if offset <= x < offset + n then None else At(m, x)
  {
    assert forall x :: len <= x ==> At(m, x) == None;
    if n > 0 && offset < len {
      RemoveRangeMeaning(m, len, offset, InsertEnd(len, offset, n));
    }
  }

  /** `set_len` forgets what lies past the new end; growing adds a hole. */
  lemma ResizeMeaning(m: Entries, len: nat, newLen: nat)
    requires WellFormed(m, len) && Coalesced(m)
    ensures var r := Resize(m, len, newLen);
            && WellFormed(r, newLen) && Coalesced(r)
            && forall x :: At(r, x) == if newLen <= x then None else At(m, x)
  {
    assert forall x :: len <= x ==> At(m, x) == None;
    var r := Resize(m, len, newLen);
    if newLen < len {
      RemoveRangeMeaning(m, len, newLen, len);
      assert forall s :: s in r ==> s < newLen;
    }
  }

  // ---------- lookup ----------

  function Get(m: Entries, len: nat, offset: nat): Option<MapEntry>
    requires WellFormed(m, len)
  {
    if offset >= len then None
    else
      var p := KeyAtOrBelow(m, offset);
      if p.Some? && offset < m[p.value].end then
        Some(Chunk(m[p.value].chunkId, m[p.value].chunkOffset + (offset - p.value), m[p.value].end - offset))
      else
        var next := KeyFrom(m, offset + 1);
        Some(Hole((if next.Some? then Min(next.value, len) else len) - offset))
  }

  lemma GetChunkMeaning(m: Entries, len: nat, offset: nat, s: nat)
    requires WellFormed(m, len) && Covers(m, s, offset)
    ensures Get(m, len, offset) == Some(Chunk(m[s].chunkId, m[s].chunkOffset + (offset - s), m[s].end - offset))
    ensures forall x :: offset <= x < m[s].end ==>
              At(m, x) == Some(Place(m[s].chunkId, m[s].chunkOffset + (x - s)))
  {
    hide At;
    assert KeyAtOrBelow(m, offset) == Some(s);
    forall x | offset <= x < m[s].end ensures At(m, x) == Some(Place(m[s].chunkId, m[s].chunkOffset + (x - s))) {
      AtCovered(m, len, s, x);
    }
  }

  lemma GetHoleMeaning(m: Entries, len: nat, offset: nat)
    requires WellFormed(m, len) && offset < len && At(m, offset) == None
    ensures Get(m, len, offset).Some? && Get(m, len, offset).value.Hole?
    ensures var n := Get(m, len, offset).value.len;
            && 0 < n <= len - offset && (offset + n == len || offset + n in m)
            && forall x :: offset <= x < offset + n ==> At(m, x) == None
  {
    var p := KeyAtOrBelow(m, offset);
    assert p.Some? ==> !Covers(m, p.value, offset);
    hide At;
    var n := Get(m, len, offset).value.len;
    forall x | offset <= x < offset + n ensures At(m, x) == None {
      if At(m, x).Some? {
        var s := AtSome(m, len, x);
        assert false;
      }
    }
  }

  /** `get` answers for every offset below the length, with the whole rest of the range or hole. */
  lemma GetMeaning(m: Entries, len: nat, offset: nat)
    requires WellFormed(m, len)
    ensures Get(m, len, offset).None? <==> len <= offset
    ensures Get(m, len, offset).Some? && Get(m, len, offset).value.Chunk? ==>
              var e := Get(m, len, offset).value;
              && 0 < e.len <= len - offset
              && (forall x :: offset <= x < offset + e.len ==>
                    At(m, x) == Some(Place(e.chunkId, e.chunkOffset + (x - offset))))
              && exists s :: Covers(m, s, offset) && m[s].end == offset + e.len
    ensures Get(m, len, offset).Some? && Get(m, len, offset).value.Hole? ==>
              var e := Get(m, len, offset).value;
              && 0 < e.len <= len - offset
              && (forall x :: offset <= x < offset + e.len ==> At(m, x) == None)
              && (offset + e.len == len || offset + e.len in m)
  {
    hide At;
    if offset < len {
      if At(m, offset).Some? {
        var s := AtSome(m, len, offset);
        GetChunkMeaning(m, len, offset, s);
      } else {
        GetHoleMeaning(m, len, offset);
      }
    }
  }

  // ---------- canonical form ----------

  lemma CanonicalKeys(m1: Entries, m2: Entries, len: nat, s: nat)
    requires WellFormed(m1, len) && WellFormed(m2, len) && Coalesced(m2)
    requires forall x :: At(m1, x) == At(m2, x)
    requires Coalesced(m1) && s in m1
    ensures s in m2 && m2[s].chunkId == m1[s].chunkId && m2[s].chunkOffset == m1[s].chunkOffset
  {
    AtCovered(m1, len, s, s);
    var t := AtSome(m2, len, s);
    if t < s {
      AtCovered(m2, len, t, s - 1);
      var u := AtSome(m1, len, s - 1);
      assert false;
    }
  }

  lemma CanonicalEnds(m1: Entries, m2: Entries, len: nat, s: nat)
    requires WellFormed(m1, len) && WellFormed(m2, len) && Coalesced(m1) && Coalesced(m2)
    requires forall x :: At(m1, x) == At(m2, x)
    requires s in m1 && s in m2
    ensures m1[s].end <= m2[s].end
  {
    hide At;
    var e := m2[s].end;
    if e < m1[s].end {
      AtCovered(m1, len, s, e);
      AtCovered(m1, len, s, e - 1);
      AtCovered(m2, len, s, e - 1);
      var t := AtSome(m2, len, e);
      AtCovered(m1, len, s, s);
      AtCovered(m2, len, s, s);
      assert false;
    }
  }

  /** A coalesced map is a canonical form: equal meaning means equal entries. */
  lemma CanonicalForm(m1: Entries, m2: Entries, len: nat)
    requires WellFormed(m1, len) && WellFormed(m2, len) && Coalesced(m1) && Coalesced(m2)
    requires forall x :: At(m1, x) == At(m2, x)
    ensures m1 == m2
  {
    forall s | s in m1 ensures s in m2 && m1[s] == m2[s] {
      CanonicalKeys(m1, m2, len, s);
      CanonicalEnds(m1, m2, len, s);
      CanonicalEnds(m2, m1, len, s);
    }
    forall s | s in m2 ensures s in m1 {
      CanonicalKeys(m2, m1, len, s);
    }
  }

  // ---------- iteration and reload ----------

  /** `iter`, from key `from` on: the ranges in ascending order. */
  function Ranges(m: Entries, len: nat, from: nat): (r: seq<ChunkRange>)
    requires WellFormed(m, len)
    decreases len - from
  {
    var k := KeyFrom(m, from);
    if k.None? then []
    else
      [ChunkRange(k.value, m[k.value].end - k.value, m[k.value].chunkId, m[k.value].chunkOffset)]
      + Ranges(m, len, k.value + 1)
  }

  /** Inserting ranges one after the other, as the loaders do. */
  function InsertAll(m: Entries, len: nat, ranges: seq<ChunkRange>): Entries
    decreases |ranges|
  {
    if ranges == [] then m
    else
      var last := ranges[|ranges| - 1];
      Insert(InsertAll(m, len, ranges[..|ranges| - 1]), len, last.offset, last.len, last.chunkId, last.chunkOffset)
  }

  /** `ranges` lists exactly the ranges of `m`, in any order. */
  ghost predicate Lists(m: Entries, ranges: seq<ChunkRange>) {
    && (forall i :: 0 <= i < |ranges| ==> RangeOf(m, ranges[i]))
    && (forall s :: s in m ==> exists i :: 0 <= i < |ranges| && ranges[i].offset == s)
  }

  predicate RangeOf(m: Entries, r: ChunkRange) {
    r.offset in m && m[r.offset] == ChunkEntry(r.offset + r.len, r.chunkId, r.chunkOffset)
  }

  lemma {:induction false} RangesListFrom(m: Entries, len: nat, from: nat)
    requires WellFormed(m, len)
    ensures forall i :: 0 <= i < |Ranges(m, len, from)| ==> RangeOf(m, Ranges(m, len, from)[i])
    ensures forall s :: s in m && from <= s ==>
              exists i :: 0 <= i < |Ranges(m, len, from)| && Ranges(m, len, from)[i].offset == s
    decreases len - from
  {
    hide KeyFrom;
    var k := KeyFrom(m, from);
    if k.Some? {
      var rest := Ranges(m, len, k.value + 1);
      RangesListFrom(m, len, k.value + 1);
      var all := Ranges(m, len, from);
      assert all[0].offset == k.value && forall i :: 0 <= i < |rest| ==> all[i + 1] == rest[i];
      forall s | s in m && k.value < s ensures exists i :: 0 <= i < |all| && all[i].offset == s {
        var i :| 0 <= i < |rest| && rest[i].offset == s;
        assert all[i + 1].offset == s;
      }
    }
  }

  ghost predicate Listed(ranges: seq<ChunkRange>, x: int) {
    exists i :: 0 <= i < |ranges| && ranges[i].offset <= x < ranges[i].offset + ranges[i].len
  }

  lemma ListedLast(ranges: seq<ChunkRange>, x: int)
    requires ranges != []
    ensures var n := |ranges| - 1;
            Listed(ranges, x) <==> Listed(ranges[..n], x) || ranges[n].offset <= x < ranges[n].offset + ranges[n].len
  {
    var n := |ranges| - 1;
    if Listed(ranges[..n], x) {
      var i :| 0 <= i < n && ranges[..n][i].offset <= x < ranges[..n][i].offset + ranges[..n][i].len;
      assert ranges[i].offset <= x < ranges[i].offset + ranges[i].len;
    }
    if Listed(ranges, x) {
      var i :| 0 <= i < |ranges| && ranges[i].offset <= x < ranges[i].offset + ranges[i].len;
      assert i < n ==> ranges[..n][i] == ranges[i];
    }
  }

  lemma {:induction false} InsertAllMeaning(m: Entries, len: nat, ranges: seq<ChunkRange>)
    requires WellFormed(m, len) && len <= U64_MAX
    requires forall i :: 0 <= i < |ranges| ==> RangeOf(m, ranges[i])
    ensures WellFormed(InsertAll(map[], len, ranges), len) && Coalesced(InsertAll(map[], len, ranges))
    ensures forall x :: At(InsertAll(map[], len, ranges), x) == if Listed(ranges, x) then At(m, x) else None
    decreases |ranges|
  {
    if ranges != [] {
      var n := |ranges| - 1;
      var init, last := ranges[..n], ranges[n];
      assert forall i :: 0 <= i < n ==> init[i] == ranges[i];
      InsertAllMeaning(m, len, init);
      InsertAllStep(m, len, ranges);
    }
  }

  lemma InsertAllStep(m: Entries, len: nat, ranges: seq<ChunkRange>)
    requires WellFormed(m, len) && len <= U64_MAX
    requires ranges != [] && RangeOf(m, ranges[|ranges| - 1])
    requires var before := InsertAll(map[], len, ranges[..|ranges| - 1]);
             && WellFormed(before, len) && Coalesced(before)
             && forall x :: At(before, x) == if Listed(ranges[..|ranges| - 1], x) then At(m, x) else None
    ensures WellFormed(InsertAll(map[], len, ranges), len) && Coalesced(InsertAll(map[], len, ranges))
    ensures forall x :: At(InsertAll(map[], len, ranges), x) == if Listed(ranges, x) then At(m, x) else None
  {
    hide Coalesced, At, Insert, Listed;
    var last := ranges[|ranges| - 1];
    var before := InsertAll(map[], len, ranges[..|ranges| - 1]);
    InsertMeaning(before, len, last.offset, last.len, last.chunkId, last.chunkOffset);
    forall x ensures At(InsertAll(map[], len, ranges), x) == if Listed(ranges, x) then At(m, x) else None {
      ListedLast(ranges, x);
      if last.offset <= x < last.offset + last.len {
        AtCovered(m, len, last.offset, x);
      }
    }
  }

  /** Loading undoes storing: re-inserting the listed ranges, in any order, gives back the map. */
  lemma ReloadRestores(m: Entries, len: nat, ranges: seq<ChunkRange>)
    requires WellFormed(m, len) && Coalesced(m) && len <= U64_MAX
    requires Lists(m, ranges)
    ensures InsertAll(map[], len, ranges) == m
  {
    InsertAllMeaning(m, len, ranges);
    var r := InsertAll(map[], len, ranges);
    forall x ensures At(r, x) == At(m, x) {
      if At(m, x).Some? {
        var s := AtSome(m, len, x);
        var i :| 0 <= i < |ranges| && ranges[i].offset == s;
        assert RangeOf(m, ranges[i]);
        assert Listed(ranges, x);
      }
    }
    CanonicalForm(r, m, len);
  }
}
