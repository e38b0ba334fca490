/** The buffered copy-on-write blob writer as pure steps on settled states, that is states with no
    submission in flight (janus-vfs/src/blob/io.rs), and what those steps mean for the flat array. */
module WriterSteps {
  import opened Wrappers
  import opened Chunks
  import opened ChunkEntries
  import opened Blobs

  /** `content` is the filled part of a vector with room for `cap` bytes. */
  datatype Buffer = Buffer(start: nat, cap: nat, content: seq<byte>, dirty: bool)

  datatype Writer = Writer(blob: Blob, buf: Option<Buffer>, pos: nat)

  /** A write behind the buffer's capacity panics. */
  datatype Outcome = Wrote(n: nat) | MidChunk | Panicked

  // ---------- the steps ----------

  function SetLength(b: Blob, n: nat): Blob {
    Blob(n, Resize(b.entries, b.len, n))
  }

  /** A finished submission: grow the blob if needed, then map the chunk. */
  function Submitted(b: Blob, start: nat, content: seq<byte>): Blob {
    var grown := if start + |content| > b.len then SetLength(b, start + |content|) else b;
    Blob(grown.len, Insert(grown.entries, grown.len, start, |content|, HashOf(content), 0))
  }

  function Flush(w: Writer): Writer {
    if w.buf.Some? && w.buf.value.dirty
    then Writer(Submitted(w.blob, w.buf.value.start, w.buf.value.content), None, w.pos)
    else w.(buf := None)
  }

  function Contains(b: Buffer, pos: nat): bool {
    b.start <= pos < b.start + b.cap
  }

  /** The buffer a write at `pos` starts with when there is none. */
  function Open(b: Blob, size: nat, pos: nat): Option<Buffer>
    requires size > 0 && WellFormed(b.entries, b.len)
  {
    var aligned := pos - pos % size;
    match Get(b.entries, b.len, aligned)
    case Some(Chunk(id, offset, _)) =>
      if offset == 0 then Some(Buffer(aligned, Max(size, |id.content|), id.content, false)) else None
    case Some(Hole(n)) => Some(Buffer(aligned, Min(n, size), [], false))
    case None => Some(Buffer(aligned, size, [], false))
  }

  /** The writer with a buffer for `pos`, flushing one that lies elsewhere. */
  function Prepare(w: Writer, size: nat): Option<Writer>
    requires size > 0 && WellFormed(w.blob.entries, w.blob.len)
    requires WellFormed(Flush(w).blob.entries, Flush(w).blob.len)
  {
    if w.buf.Some? && Contains(w.buf.value, w.pos) then Some(w)
    else
      var f := Flush(w);
      var buffer := Open(f.blob, size, w.pos);
      if buffer.Some? then Some(f.(buf := buffer)) else None
  }

  function WriteAt(b: Buffer, pos: nat, data: seq<byte>): (Buffer, nat)
    requires b.start <= pos <= b.start + b.cap
  {
    var n := Min(|data|, b.cap - (pos - b.start));
    (b.(content := Overlay(b.content, pos - b.start, data[..n]), dirty := b.dirty || n > 0), n)
  }

  function Write(w: Writer, size: nat, data: seq<byte>): (Writer, Outcome)
    requires size > 0 && WellFormed(w.blob.entries, w.blob.len)
    requires WellFormed(Flush(w).blob.entries, Flush(w).blob.len)
  {
    var p := Prepare(w, size);
    if p.None? then (Flush(w), MidChunk)
    else if w.pos > p.value.buf.value.start + p.value.buf.value.cap then (p.value, Panicked)
    else
      var (b, n) := WriteAt(p.value.buf.value, w.pos, data);
      (p.value.(buf := Some(b), pos := w.pos + n), Wrote(n))
  }

  function SetLen(w: Writer, n: nat): Writer {
    var f := Flush(w);
    f.(blob := SetLength(f.blob, n))
  }

  /** The array the writer stands for: the mapped blob with an unflushed buffer laid over it. */
  ghost function Content(w: Writer): seq<byte> {
    if w.buf.Some? && w.buf.value.dirty
    then Overlay(Bytes(w.blob), w.buf.value.start, w.buf.value.content)
    else Bytes(w.blob)
  }

  // ---------- block arithmetic ----------

  lemma BlockGap(s: nat, t: nat, size: nat)
    requires size > 0 && s % size == 0 && t % size == 0 && s < t
    ensures s + size <= t
  {
    var a, b := s / size, t / size;
    assert s == a * size && t == b * size;
    assert b <= a ==> b * size <= a * size;
    assert (a + 1) * size <= b * size;
  }

  lemma BlockStart(x: nat, size: nat)
    requires size > 0
    ensures x - x % size >= 0 && (x - x % size) % size == 0
    ensures x - x % size <= x < x - x % size + size
  {
    var a := x / size;
    assert x - x % size == a * size;
    BlockMultiple(a, size);
  }

  lemma {:induction false} BlockMultiple(a: nat, size: nat)
    requires size > 0
    ensures (a * size) % size == 0
  {
    if a > 0 {
      BlockMultiple(a - 1, size);
      BlockShift((a - 1) * size, size);
      assert a * size == (a - 1) * size + size;
    }
  }

  lemma BlockShift(x: nat, size: nat)
    requires size > 0
    ensures (x + size) % size == x % size
  {
    var q, r := x / size, x % size;
    assert x + size == (q + 1) * size + r;
    DivUnique(x + size, size, q + 1, r);
  }

  lemma DivUnique(x: nat, size: nat, q: nat, r: nat)
    requires size > 0 && x == q * size + r && r < size
    ensures x % size == r
  {
    var q2, r2 := x / size, x % size;
    assert x == q2 * size + r2;
    assert q2 < q ==> (q2 + 1) * size <= q * size;
    assert q < q2 ==> (q + 1) * size <= q2 * size;
  }

  lemma BlockOf(start: nat, k: nat, size: nat)
    requires size > 0 && start % size == 0 && k < size
    ensures (start + k) % size == k && (start + k) - (start + k) % size == start
  {
    DivUnique(start + k, size, start / size, k);
  }

  // ---------- the invariant ----------

  ghost predicate WholeBlock(m: Entries, size: nat, s: nat)
    requires size > 0 && s in m
  {
    s % size == 0 && m[s].chunkOffset == 0 && m[s].end == s + |m[s].chunkId.content| && m[s].end <= s + size
  }

  /** Ranges are whole chunks at block starts, and an unaligned end lies in a mapped block. */
  ghost predicate Blocked(b: Blob, size: nat)
    requires size > 0
  {
    && (forall s :: s in b.entries ==> WholeBlock(b.entries, size, s))
    && (b.len % size != 0 ==> b.len - b.len % size in b.entries)
  }

  /** The bytes of the chunk that is mapped at a block start. */
  function Stored(b: Blob, start: nat): seq<byte> {
    if start in b.entries then b.entries[start].chunkId.content else []
  }

  /** A clean buffer holds what is stored. Empty writes may have put zeros behind that, within the array
      or at the block's first byte. */
  ghost predicate Clean(b: Blob, f: Buffer) {
    && |Stored(b, f.start)| <= |f.content| && f.start + |f.content| <= Max(b.len, f.start + 1)
    && forall i :: 0 <= i < |f.content| ==>
         f.content[i] == if i < |Stored(b, f.start)| then Stored(b, f.start)[i] else 0
  }

  ghost predicate GoodBuffer(b: Blob, size: nat, f: Buffer)
    requires size > 0
  {
    && f.start % size == 0 && f.cap == size && |f.content| <= size && f.start + size <= U64_MAX
    && (f.dirty ==> 0 < |f.content| && (f.start in b.entries ==> b.entries[f.start].end <= f.start + |f.content|))
    && (!f.dirty ==> Clean(b, f))
  }

  ghost predicate Ready(w: Writer, size: nat) {
    && size > 0 && ValidBlob(w.blob) && Blocked(w.blob, size)
    && (w.buf.Some? ==> GoodBuffer(w.blob, size, w.buf.value))
  }

  lemma BlocksAreCoalesced(m: Entries, size: nat)
    requires size > 0 && forall s :: s in m ==> WholeBlock(m, size, s)
    ensures Coalesced(m) && Backed(m)
  {
  }

  // ---------- flush ----------

  function WithBlock(b: Blob, start: nat, content: seq<byte>): Blob {
    Blob(Max(b.len, start + |content|), b.entries[start := ChunkEntry(start + |content|, HashOf(content), 0)])
  }

  lemma WithBlockIsWellFormed(b: Blob, size: nat, start: nat, content: seq<byte>)
    requires size > 0 && ValidBlob(b) && Blocked(b, size)
    requires start % size == 0 && 0 < |content| <= size && start + |content| <= U64_MAX
    ensures WellFormed(WithBlock(b, start, content).entries, WithBlock(b, start, content).len)
  {
    BlockNeighbours(b.entries, size, start);
  }

  lemma WithBlockIsBlocked(b: Blob, size: nat, start: nat, content: seq<byte>)
    requires size > 0 && ValidBlob(b) && Blocked(b, size)
    requires start % size == 0 && 0 < |content| <= size && start + |content| <= U64_MAX
    requires start in b.entries ==> b.entries[start].end <= start + |content|
    ensures ValidBlob(WithBlock(b, start, content)) && Blocked(WithBlock(b, start, content), size)
  {
    hide WellFormed, Coalesced, Backed;
    var r := WithBlock(b, start, content);
    WithBlockIsWellFormed(b, size, start, content);
    assert forall s :: s in r.entries ==> WholeBlock(r.entries, size, s);
    BlocksAreCoalesced(r.entries, size);
    if r.len % size != 0 && r.len == start + |content| {
      if |content| == size { BlockShift(start, size); }
      BlockOf(start, |content|, size);
    }
  }

  lemma WithBlockAt(b: Blob, size: nat, start: nat, content: seq<byte>, x: int)
    requires size > 0 && ValidBlob(b) && Blocked(b, size)
    requires start % size == 0 && 0 < |content| <= size && start + |content| <= U64_MAX
    requires start in b.entries ==> b.entries[start].end <= start + |content|
    ensures At(WithBlock(b, start, content).entries, x)
         == if start <= x < start + |content| then Some(Place(HashOf(content), x - start)) else At(b.entries, x)
  {
    var r := WithBlock(b, start, content);
    WithBlockIsBlocked(b, size, start, content);
    if start <= x < start + |content| {
      AtCovered(r.entries, r.len, start, x);
    } else {
      WellFormedWider(b.entries, b.len, r.len);
      AtOtherBlock(b.entries, r.entries, r.len, start, x);
    }
  }

  lemma WellFormedWider(m: Entries, len: nat, len2: nat)
    requires WellFormed(m, len) && len <= len2
    ensures WellFormed(m, len2)
  {
  }

  /** Mapping a whole chunk at a block start replaces just that block's entry. */
  lemma SubmittedIsUpdate(b: Blob, size: nat, start: nat, content: seq<byte>)
    requires size > 0 && ValidBlob(b) && Blocked(b, size)
    requires start % size == 0 && 0 < |content| <= size && start + |content| <= U64_MAX
    requires start in b.entries ==> b.entries[start].end <= start + |content|
    ensures Submitted(b, start, content) == WithBlock(b, start, content)
    ensures ValidBlob(WithBlock(b, start, content)) && Blocked(WithBlock(b, start, content), size)
  {
    WithBlockIsBlocked(b, size, start, content);
    InsertIsUpdate(b, size, start, content);
  }

  lemma InsertIsUpdate(b: Blob, size: nat, start: nat, content: seq<byte>)
    requires size > 0 && ValidBlob(b) && Blocked(b, size)
    requires start % size == 0 && 0 < |content| <= size && start + |content| <= U64_MAX
    requires start in b.entries ==> b.entries[start].end <= start + |content|
    ensures Insert(b.entries, Max(b.len, start + |content|), start, |content|, HashOf(content), 0)
         == WithBlock(b, start, content).entries
  {
    hide At, Insert, Blocked;
    var w := WithBlock(b, start, content);
    WithBlockIsBlocked(b, size, start, content);
    WellFormedWider(b.entries, b.len, w.len);
    var r := Insert(b.entries, w.len, start, |content|, HashOf(content), 0);
    InsertMeaning(b.entries, w.len, start, |content|, HashOf(content), 0);
    forall x ensures At(r, x) == At(w.entries, x) {
      WithBlockAt(b, size, start, content, x);
    }
    CanonicalForm(r, w.entries, w.len);
  }

  lemma BlockNeighbours(m: Entries, size: nat, start: nat)
    requires size > 0 && start % size == 0
    requires forall s :: s in m ==> WholeBlock(m, size, s)
    ensures forall s :: s in m && s < start ==> m[s].end <= start
    ensures forall s :: s in m && start < s ==> start + size <= s
  {
    forall s | s in m && s != start ensures s < start ==> m[s].end <= start
                                    ensures start < s ==> start + size <= s {
      if s < start { BlockGap(s, start, size); } else { BlockGap(start, s, size); }
    }
  }

  lemma AtOtherBlock(m: Entries, r: Entries, len: nat, start: nat, x: int)
    requires WellFormed(m, len) && WellFormed(r, len)
    requires start in r && r == m[start := r[start]] && !(start <= x < r[start].end)
    requires start in m ==> m[start].end <= r[start].end
    ensures At(r, x) == At(m, x)
  {
    if At(m, x).Some? {
      var s := AtSome(m, len, x);
      AtCovered(r, len, s, x);
    } else if At(r, x).Some? {
      var s := AtSome(r, len, x);
      assert Covers(m, s, x);
    }
  }

  /** A flush keeps the array and leaves it all in the map. */
  lemma FlushKeepsContent(w: Writer, size: nat)
    requires Ready(w, size)
    ensures Ready(Flush(w), size) && Flush(w).buf.None? && Flush(w).pos == w.pos
    ensures Bytes(Flush(w).blob) == Content(w) && Content(Flush(w)) == Content(w)
  {
    hide WellFormed, Coalesced, Backed, Blocked, At, Submitted;
    if w.buf.Some? && w.buf.value.dirty {
      var f, b := w.buf.value, w.blob;
      SubmittedIsUpdate(b, size, f.start, f.content);
      var r := Submitted(b, f.start, f.content);
      forall x | 0 <= x < r.len ensures ByteAt(r, x) == Content(w)[x] {
        WithBlockAt(b, size, f.start, f.content, x);
        NothingPastEnd(b, x);
      }
    }
  }

  lemma NothingPastEnd(b: Blob, x: nat)
    requires ValidBlob(b)
    ensures b.len <= x ==> At(b.entries, x) == None
  {
  }

  // ---------- open and write ----------

  /** In a blocked blob the buffer always gets the whole block, loaded if it is mapped. */
  lemma OpenIsGood(b: Blob, size: nat, pos: nat)
    requires size > 0 && ValidBlob(b) && Blocked(b, size) && pos + size <= U64_MAX
    ensures Open(b, size, pos).Some? && Contains(Open(b, size, pos).value, pos)
    ensures GoodBuffer(b, size, Open(b, size, pos).value) && !Open(b, size, pos).value.dirty
  {
    hide WellFormed, Coalesced, Backed, Blocked, Get, GoodBuffer;
    var p := pos - pos % size;
    BlockStart(pos, size);
    if p in b.entries {
      GetAtBlock(b, size, p);
      LoadedIsGood(b, size, p);
    } else {
      if p < b.len { GetAtHole(b, size, p); } else { PastEndGet(b, p); }
      EmptyIsGood(b, size, p);
    }
  }

  lemma PastEndGet(b: Blob, p: nat)
    requires ValidBlob(b) && b.len <= p
    ensures Get(b.entries, b.len, p) == None
  {
    GetMeaning(b.entries, b.len, p);
  }

  lemma LoadedIsGood(b: Blob, size: nat, p: nat)
    requires size > 0 && ValidBlob(b) && Blocked(b, size) && p in b.entries && p + size <= U64_MAX
    ensures var c := b.entries[p].chunkId.content;
            |c| <= size && GoodBuffer(b, size, Buffer(p, size, c, false))
  {
    assert WholeBlock(b.entries, size, p);
  }

  lemma EmptyIsGood(b: Blob, size: nat, p: nat)
    requires size > 0 && p % size == 0 && p !in b.entries && p + size <= U64_MAX
    ensures GoodBuffer(b, size, Buffer(p, size, [], false))
  {
  }

  lemma GetAtBlock(b: Blob, size: nat, p: nat)
    requires size > 0 && ValidBlob(b) && Blocked(b, size) && p in b.entries
    ensures Get(b.entries, b.len, p)
         == Some(Chunk(b.entries[p].chunkId, 0, |b.entries[p].chunkId.content|))
  {
  }

  /** The hole at an unmapped block start spans the whole block. */
  lemma GetAtHole(b: Blob, size: nat, p: nat)
    requires size > 0 && ValidBlob(b) && Blocked(b, size)
    requires p % size == 0 && p < b.len && p !in b.entries
    ensures exists n :: size <= n && Get(b.entries, b.len, p) == Some(Hole(n))
  {
    BlockNeighbours(b.entries, size, p);
    GetMeaning(b.entries, b.len, p);
    var e := Get(b.entries, b.len, p).value;
    assert forall s :: !Covers(b.entries, s, p);
    if p + e.len == b.len && e.len < size {
      BlockOf(p, e.len, size);
      assert false;
    }
  }

  lemma PrepareIsGood(w: Writer, size: nat)
    requires Ready(w, size) && w.pos + size <= U64_MAX
    ensures Ready(Flush(w), size)
    ensures Prepare(w, size).Some? && Ready(Prepare(w, size).value, size)
    ensures Prepare(w, size).value.pos == w.pos
    ensures Prepare(w, size).value.buf.Some? && Contains(Prepare(w, size).value.buf.value, w.pos)
    ensures Content(Prepare(w, size).value) == Content(w)
  {
    FlushKeepsContent(w, size);
    OpenIsGood(Flush(w).blob, size, w.pos);
  }

  /** Outside the mapped part of its block a good buffer lies over zeros. */
  lemma BlockBytes(b: Blob, size: nat, f: Buffer, x: nat)
    requires size > 0 && ValidBlob(b) && Blocked(b, size) && GoodBuffer(b, size, f)
    requires f.start <= x < f.start + size
    ensures !f.dirty ==> ByteAt(b, x) == if x < f.start + |f.content| then f.content[x - f.start] else 0
    ensures f.start + |f.content| <= x ==> ByteAt(b, x) == 0
    ensures !f.dirty ==> f.start + |f.content| <= Max(b.len, f.start + 1)
    ensures !f.dirty && b.len <= x < f.start + |f.content| ==> f.content[x - f.start] == 0
  {
    BlockNeighbours(b.entries, size, f.start);
    if At(b.entries, x).Some? {
      var s := AtSome(b.entries, b.len, x);
      assert s == f.start;
    } else if f.start in b.entries && x < b.entries[f.start].end {
      AtCovered(b.entries, b.len, f.start, x);
    }
  }

  lemma WriteAtIsGood(b: Blob, size: nat, f: Buffer, pos: nat, data: seq<byte>)
    requires size > 0 && ValidBlob(b) && Blocked(b, size) && GoodBuffer(b, size, f)
    requires f.start <= pos < f.start + size && data != []
    ensures var (g, n) := WriteAt(f, pos, data);
            && 0 < n <= |data| && GoodBuffer(b, size, g) && g.dirty && g.start == f.start
            && g.content == Overlay(f.content, pos - f.start, data[..n])
  {
    assert f.start in b.entries ==> WholeBlock(b.entries, size, f.start);
  }

  /** `over` is `base` with `held` at `start`, and up to `to` there is nothing but zeros behind `held`. What
      a clean buffer holds past the end is zero, and no more than one byte. */
  ghost predicate LiesOver(base: seq<byte>, over: seq<byte>, start: nat, held: seq<byte>, to: nat) {
    && (|over| == Max(|base|, start + |held|)
        || (over == base && start + |held| <= Max(|base|, start + 1)
            && forall i :: 0 <= i < |held| && |base| <= start + i ==> held[i] == 0))
    && (forall x :: 0 <= x < |over| ==>
          over[x] == if start <= x < start + |held| then held[x - start] else if x < |base| then base[x] else 0)
    && (forall x :: start + |held| <= x < to && x < |base| ==> base[x] == 0)
  }

  /** Laying the changed buffer over the blob is laying the data over what was there. */
  lemma OverlayBuffer(base: seq<byte>, over: seq<byte>, start: nat, held: seq<byte>, to: nat, pos: nat, data: seq<byte>)
    requires LiesOver(base, over, start, held, to)
    requires start <= pos && data != [] && pos + |data| <= to
    ensures Overlay(base, start, Overlay(held, pos - start, data)) == Overlay(over, pos, data)
  {
  }

  lemma BufferLiesOver(w: Writer, size: nat)
    requires Ready(w, size) && w.buf.Some?
    ensures var f := w.buf.value; LiesOver(Bytes(w.blob), Content(w), f.start, f.content, f.start + size)
  {
    hide ValidBlob, Blocked, ByteAt;
    var b, f := w.blob, w.buf.value;
    BlockBytes(b, size, f, f.start);
    forall x | f.start <= x < f.start + size
      ensures x < b.len && !f.dirty ==> Bytes(b)[x] == if x < f.start + |f.content| then f.content[x - f.start] else 0
      ensures x < b.len && f.start + |f.content| <= x ==> Bytes(b)[x] == 0
      ensures !f.dirty && b.len <= x < f.start + |f.content| ==> f.content[x - f.start] == 0
    {
      BlockBytes(b, size, f, x);
    }
  }

  lemma WriteAtRefines(w: Writer, size: nat, data: seq<byte>)
    requires Ready(w, size) && w.buf.Some? && Contains(w.buf.value, w.pos)
    requires data != []
    ensures var (f, n) := WriteAt(w.buf.value, w.pos, data);
            var r := w.(buf := Some(f), pos := w.pos + n);
            && 0 < n <= |data| && Ready(r, size)
            && Content(r) == Overlay(Content(w), w.pos, data[..n])
  {
    hide ValidBlob, Blocked, LiesOver, Overlay, Bytes;
    var f := w.buf.value;
    var (g, n) := WriteAt(f, w.pos, data);
    WriteAtIsGood(w.blob, size, f, w.pos, data);
    BufferLiesOver(w, size);
    OverlayBuffer(Bytes(w.blob), Content(w), f.start, f.content, f.start + size, w.pos, data[..n]);
  }

  /** One write: it makes progress, overlays what it took at the position, and keeps the writer ready. */
  lemma WriteRefines(w: Writer, size: nat, data: seq<byte>)
    requires Ready(w, size) && w.pos + size <= U64_MAX && data != []
    ensures Ready(Flush(w), size)
    ensures var (r, out) := Write(w, size, data);
            && out.Wrote? && 0 < out.n <= |data| && Ready(r, size) && r.pos == w.pos + out.n
            && Content(r) == Overlay(Content(w), w.pos, data[..out.n])
  {
    PrepareIsGood(w, size);
    WriteAtRefines(Prepare(w, size).value, size, data);
  }
}
