/** Whole histories of the blob writer against a flat array with a cursor, and the exact conditions
    under which `set_len`, empty writes, seeks from the end and unflushed reads agree with that array
    (janus-vfs/src/blob/io.rs). */
module WriterHistory {
  import opened Wrappers
  import opened Chunks
  import opened ChunkEntries
  import opened Blobs
  import opened WriterSteps

  // ---------- blocks ----------

  lemma BlockHoldsBytes(b: Blob, size: nat, s: nat)
    requires size > 0 && ValidBlob(b) && Blocked(b, size) && s in b.entries
    ensures b.entries[s].end <= b.len && b.entries[s].chunkId.content == Bytes(b)[s..b.entries[s].end]
  {
    forall x | s <= x < b.entries[s].end ensures Bytes(b)[x] == b.entries[s].chunkId.content[x - s] {
      AtCovered(b.entries, b.len, s, x);
    }
  }

  // ---------- set_len ----------

  /** The new end is a block boundary, or lies in a mapped block behind that block's bytes. */
  ghost predicate SetLenSafe(b: Blob, size: nat, n: nat)
    requires size > 0
  {
    n % size == 0 || (n - n % size in b.entries && b.entries[n - n % size].end <= n)
  }

  lemma SetLenIsResized(b: Blob, n: nat)
    requires ValidBlob(b) && n <= U64_MAX
    ensures ValidBlob(SetLength(b, n)) && Bytes(SetLength(b, n)) == Resized(Bytes(b), n)
  {
    ResizeMeaning(b.entries, b.len, n);
    ResizeKeepsBacked(b.entries, b.len, n);
    var r := SetLength(b, n);
    forall x | 0 <= x < n ensures ByteAt(r, x) == Resized(Bytes(b), n)[x] {
      assert x >= b.len ==> At(b.entries, x) == None;
    }
  }

  lemma SetLenKeepsBlocks(b: Blob, size: nat, n: nat)
    requires size > 0 && ValidBlob(b) && Blocked(b, size) && n <= U64_MAX
    requires SetLenSafe(b, size, n)
    ensures Blocked(SetLength(b, n), size)
  {
    var p := n - n % size;
    BlockStart(n, size);
    BlockNeighbours(b.entries, size, p);
    if n < b.len {
      var r := Resize(b.entries, b.len, n);
      UncutRemovesWhole(b.entries, b.len, n);
    }
  }

  lemma UncutRemovesWhole(m: Entries, len: nat, n: nat)
    requires WellFormed(m, len) && n < len
    requires forall s :: s in m && s < n ==> m[s].end <= n
    ensures RemoveRange(m, n, len) == map s | s in m && s < n :: m[s]
  {
    var p := KeyBelow(m, len);
    assert p.Some? ==> m[p.value].end <= len;
  }

  lemma SetLenRefines(w: Writer, size: nat, n: nat)
    requires Ready(w, size) && n <= U64_MAX && SetLenSafe(Flush(w).blob, size, n)
    ensures Ready(SetLen(w, n), size)
    ensures Content(SetLen(w, n)) == Resized(Content(w), n)
  {
    FlushKeepsContent(w, size);
    SetLenIsResized(Flush(w).blob, n);
    SetLenKeepsBlocks(Flush(w).blob, size, n);
  }

  /** A non-empty write at `pos` makes progress, and after a flush the blob reads as the array with
      what was taken laid over it. */
  ghost predicate WriteWorks(b: Blob, size: nat, pos: nat, data: seq<byte>)
    requires size > 0 && WellFormed(b.entries, b.len)
  {
    var (r, out) := Write(Writer(b, None, pos), size, data);
    out.Wrote? && 0 < out.n <= |data| && Bytes(Flush(r).blob) == Overlay(Bytes(b), pos, data[..out.n])
  }

  lemma BlockedWrites(b: Blob, size: nat, pos: nat, data: seq<byte>)
    requires size > 0 && ValidBlob(b) && Blocked(b, size)
    requires data != [] && pos + size <= U64_MAX
    ensures WriteWorks(b, size, pos, data)
  {
    var w := Writer(b, None, pos);
    WriteRefines(w, size, data);
    FlushKeepsContent(Write(w, size, data).0, size);
  }

  lemma SubmittedLen(b: Blob, start: nat, content: seq<byte>)
    ensures Submitted(b, start, content).len == Max(b.len, start + |content|)
  {
  }

  lemma CutEntry(m: Entries, len: nat, n: nat, p: nat)
    requires WellFormed(m, len) && p in m && p < n < m[p].end
    ensures p in Resize(m, len, n) && Resize(m, len, n)[p] == m[p].(end := n)
  {
  }

  /** The first write to a cut block opens with all of its chunk. */
  lemma CutBlockOpens(c: Blob, size: nat, p: nat, id: ChunkId)
    requires size > 0 && WellFormed(c.entries, c.len) && p % size == 0 && |id.content| <= size
    requires p in c.entries && c.entries[p].chunkId == id && c.entries[p].chunkOffset == 0
    ensures Open(c, size, p) == Some(Buffer(p, size, id.content, false))
  {
  }

  /** Cutting a mapped block brings the cut bytes back with the next write to that block. */
  lemma CutBlockFails(b: Blob, size: nat, n: nat)
    requires size > 0 && ValidBlob(b) && Blocked(b, size) && n <= U64_MAX
    requires n % size != 0 && n - n % size in b.entries && n < b.entries[n - n % size].end
    ensures WellFormed(SetLength(b, n).entries, n)
    ensures !WriteWorks(SetLength(b, n), size, n - n % size, [0])
  {
    var p := n - n % size;
    BlockStart(n, size);
    SetLenIsResized(b, n);
    CutEntry(b.entries, b.len, n, p);
    var c, id := SetLength(b, n), b.entries[p].chunkId;
    CutBlockOpens(c, size, p, id);
    OneByteGrows(c, size, p, Buffer(p, size, id.content, false));
  }

  lemma OneByteGrows(c: Blob, size: nat, p: nat, f: Buffer)
    requires size > 0 && WellFormed(c.entries, c.len) && Open(c, size, p) == Some(f)
    requires f.start == p && f.cap == size && p < c.len < p + |f.content|
    ensures !WriteWorks(c, size, p, [0])
  {
    var (r, out) := Write(Writer(c, None, p), size, [0]);
    assert r.buf == Some(WriteAt(f, p, [0]).0) && r.blob == c;
    SubmittedLen(c, p, r.buf.value.content);
  }

  lemma ShortHoleKeys(b: Blob, size: nat, n: nat, p: nat)
    requires size > 0 && ValidBlob(b) && Blocked(b, size) && n <= U64_MAX
    requires p % size == 0 && p < n < p + size && p !in b.entries
    ensures WellFormed(SetLength(b, n).entries, n)
    ensures forall s :: s in SetLength(b, n).entries ==> s < p
    ensures At(SetLength(b, n).entries, p) == None
  {
    var c := SetLength(b, n);
    BlockNeighbours(b.entries, size, p);
    ResizeMeaning(b.entries, b.len, n);
    assert forall s :: !Covers(b.entries, s, p);
    forall s | s in c.entries ensures s < p {
      AtCovered(c.entries, n, s, s);
      var t := AtSome(b.entries, b.len, s);
    }
  }

  lemma ShortHoleOpens(b: Blob, size: nat, n: nat, p: nat)
    requires size > 0 && ValidBlob(b) && Blocked(b, size) && n <= U64_MAX
    requires p % size == 0 && p < n < p + size && p !in b.entries && n % size == n - p
    ensures WellFormed(SetLength(b, n).entries, n)
    ensures Open(SetLength(b, n), size, n) == Some(Buffer(p, n - p, [], false))
  {
    ShortHoleKeys(b, size, n, p);
    GetMeaning(SetLength(b, n).entries, n, p);
  }

  /** A length that ends inside an unmapped block caps the buffer at that end: no write there moves. */
  lemma ShortHoleFails(b: Blob, size: nat, n: nat)
    requires size > 0 && ValidBlob(b) && Blocked(b, size) && n <= U64_MAX
    requires n % size != 0 && n - n % size !in b.entries
    ensures WellFormed(SetLength(b, n).entries, n)
    ensures !WriteWorks(SetLength(b, n), size, n, [0])
  {
    BlockStart(n, size);
    ShortHoleOpens(b, size, n, n - n % size);
  }

  /** `set_len` leaves a blob that every later non-empty write handles, exactly when the new end is
      a block boundary or lies behind the bytes of a mapped block. */
  lemma SetLenExact(b: Blob, size: nat, n: nat)
    requires size > 0 && ValidBlob(b) && Blocked(b, size) && n + size <= U64_MAX
    ensures WellFormed(SetLength(b, n).entries, n)
    ensures SetLenSafe(b, size, n) <==>
              forall pos: nat, data: seq<byte> :: pos + size <= U64_MAX && data != [] ==>
                WriteWorks(SetLength(b, n), size, pos, data)
  {
    SetLenIsResized(b, n);
    if SetLenSafe(b, size, n) {
      SetLenKeepsBlocks(b, size, n);
      forall pos: nat, data: seq<byte> | pos + size <= U64_MAX && data != []
        ensures WriteWorks(SetLength(b, n), size, pos, data)
      {
        BlockedWrites(SetLength(b, n), size, pos, data);
      }
    } else if n - n % size in b.entries {
      BlockStart(n, size);
      CutBlockFails(b, size, n);
    } else {
      ShortHoleFails(b, size, n);
    }
  }

  // ---------- empty writes ----------

  /** The position is not past the array, or at most one byte behind a block boundary. */
  ghost predicate EmptyWriteSafe(w: Writer, size: nat)
    requires size > 0
  {
    w.pos <= |Content(w)| || w.pos % size <= 1
  }

  lemma EmptyWriteStep(w: Writer, size: nat)
    requires Ready(w, size) && w.pos + size <= U64_MAX
    ensures Ready(Flush(w), size) && Prepare(w, size).Some? && Prepare(w, size).value.buf.Some?
    ensures var p := Prepare(w, size).value; var f := p.buf.value;
            && Ready(p, size) && Content(p) == Content(w) && p.pos == w.pos
            && f.start == w.pos - w.pos % size && f.cap == size && Contains(f, w.pos)
            && Write(w, size, []).0 == p.(buf := Some(f.(content := Overlay(f.content, w.pos - f.start, []))))
  {
    hide WellFormed, Coalesced, Backed, Blocked, Prepare, Content, Overlay;
    PrepareIsGood(w, size);
    var nothing: seq<byte> := [];
    assert nothing[..0] == nothing;
    var f := Prepare(w, size).value.buf.value;
    BlockOf(f.start, w.pos - f.start, size);
  }

  /** The buffer is no longer than before, or has zeros up to the position. */
  lemma PaddedBuffer(b: Blob, size: nat, f: Buffer, pos: nat)
    requires size > 0 && ValidBlob(b) && Blocked(b, size) && GoodBuffer(b, size, f) && Contains(f, pos)
    requires f.dirty || pos <= Max(b.len, f.start + 1)
    ensures GoodBuffer(b, size, f.(content := Overlay(f.content, pos - f.start, [])))
  {
  }

  /** A safe empty write leaves the array alone and the writer ready. */
  lemma EmptyWriteRefines(w: Writer, size: nat)
    requires Ready(w, size) && w.pos + size <= U64_MAX && EmptyWriteSafe(w, size)
    ensures Ready(Flush(w), size) && Ready(Write(w, size, []).0, size)
    ensures Content(Write(w, size, []).0) == Content(w) && Write(w, size, []).0.pos == w.pos
  {
    hide WellFormed, Backed, Blocked, GoodBuffer, Overlay, Prepare, Write, Flush;
    EmptyWriteStep(w, size);
    var p := Prepare(w, size).value;
    PaddedBuffer(p.blob, size, p.buf.value, w.pos);
    if p.buf.value.dirty {
      EmptyWriteInBuffer(p, size);
    }
  }

  lemma EmptyWriteInBuffer(w: Writer, size: nat)
    requires Ready(w, size) && w.buf.Some? && w.buf.value.dirty && Contains(w.buf.value, w.pos)
    ensures var f := w.buf.value;
            w.pos <= |Content(w)| || w.pos <= f.start + 1 ==>
              Content(w.(buf := Some(f.(content := Overlay(f.content, w.pos - f.start, []))))) == Content(w)
  {
    hide ValidBlob, Blocked;
    var f := w.buf.value;
    var g := Overlay(f.content, w.pos - f.start, []);
    var r := w.(buf := Some(f.(content := g)));
    assert |Content(r)| == Max(w.blob.len, f.start + |g|);
    if w.pos <= |Content(w)| {
      forall x | 0 <= x < |Content(w)| ensures Content(r)[x] == Content(w)[x] {
        if f.start <= x < f.start + size { BlockBytes(w.blob, size, f, x); }
      }
    }
  }

  /** A non-empty write at `pos` by the writer `r` makes progress, and after a flush the blob reads as
      `content` with what was taken laid over it. */
  ghost predicate LaterWriteWorks(r: Writer, size: nat, content: seq<byte>, pos: nat, data: seq<byte>)
    requires size > 0 && WellFormed(r.blob.entries, r.blob.len)
    requires WellFormed(Flush(r).blob.entries, Flush(r).blob.len)
  {
    var (v, out) := Write(r.(pos := pos), size, data);
    out.Wrote? && 0 < out.n <= |data| && Bytes(Flush(v).blob) == Overlay(content, pos, data[..out.n])
  }

  lemma ReadyWrites(r: Writer, size: nat, pos: nat, data: seq<byte>)
    requires Ready(r, size) && data != [] && pos + size <= U64_MAX
    ensures Ready(Flush(r), size) && LaterWriteWorks(r, size, Content(r), pos, data)
  {
    hide WellFormed, Backed, Blocked, GoodBuffer, Write, Bytes, Overlay;
    FlushKeepsContent(r, size);
    assert Content(r.(pos := pos)) == Content(r);
    WriteRefines(r.(pos := pos), size, data);
    FlushKeepsContent(Write(r.(pos := pos), size, data).0, size);
  }

  /** The zeros an unsafe empty write has put into the buffer come with the next write to its block. */
  lemma EmptyWriteFails(w: Writer, size: nat)
    requires Ready(w, size) && w.pos + size <= U64_MAX && !EmptyWriteSafe(w, size)
    ensures Ready(Flush(w), size)
    ensures var r := Write(w, size, []).0;
            && WellFormed(r.blob.entries, r.blob.len) && WellFormed(Flush(r).blob.entries, Flush(r).blob.len)
            && r.buf.Some? && r.buf.value.start <= w.pos
            && !LaterWriteWorks(r, size, Content(w), r.buf.value.start, [0])
  {
    hide WellFormed, Coalesced, Backed, Blocked, GoodBuffer, Write, Content, Overlay, Prepare, Flush, LaterWriteWorks;
    EmptyWriteStep(w, size);
    var p := Prepare(w, size).value;
    PaddedEnd(p, size);
    PaddedFlush(p, size);
    var r := Write(w, size, []).0;
    PaddedGrows(r, size, Content(w), r.buf.value.start);
  }

  lemma PaddedEnd(p: Writer, size: nat)
    requires Ready(p, size) && p.buf.Some? && Contains(p.buf.value, p.pos)
    requires |Content(p)| < p.pos && p.buf.value.start + 1 < p.pos
    ensures var f := p.buf.value;
            f.start + |f.content| <= p.pos && f.start + |Overlay(f.content, p.pos - f.start, [])| == p.pos
  {
    BlockBytes(p.blob, size, p.buf.value, p.buf.value.start);
  }

  lemma PaddedFlush(p: Writer, size: nat)
    requires Ready(p, size) && p.buf.Some? && Contains(p.buf.value, p.pos)
    ensures var f := p.buf.value; var r := p.(buf := Some(f.(content := Overlay(f.content, p.pos - f.start, []))));
            WellFormed(r.blob.entries, r.blob.len) && WellFormed(Flush(r).blob.entries, Flush(r).blob.len)
  {
    hide WellFormed, Backed, Blocked, Overlay;
    var f := p.buf.value;
    if f.dirty {
      PaddedBuffer(p.blob, size, f, p.pos);
      FlushKeepsContent(p.(buf := Some(f.(content := Overlay(f.content, p.pos - f.start, [])))), size);
    }
  }

  lemma PaddedGrows(r: Writer, size: nat, content: seq<byte>, start: nat)
    requires size > 0 && WellFormed(r.blob.entries, r.blob.len)
    requires WellFormed(Flush(r).blob.entries, Flush(r).blob.len)
    requires r.buf.Some? && r.buf.value.start == start && r.buf.value.cap == size
    requires |content| < start + |r.buf.value.content| && 1 < |r.buf.value.content|
    ensures !LaterWriteWorks(r, size, content, start, [0])
  {
    var (v, out) := Write(r.(pos := start), size, [0]);
    assert v.blob == r.blob && v.buf == Some(WriteAt(r.buf.value, start, [0]).0);
    SubmittedLen(v.blob, start, v.buf.value.content);
  }

  /** After an empty write every later non-empty write gives the flat array, exactly when the position was
      not past the array or at most one byte behind a block boundary. */
  lemma EmptyWriteExact(w: Writer, size: nat)
    requires Ready(w, size) && w.pos + size <= U64_MAX
    ensures Ready(Flush(w), size)
    ensures var r := Write(w, size, []).0;
            WellFormed(r.blob.entries, r.blob.len) && WellFormed(Flush(r).blob.entries, Flush(r).blob.len)
    ensures EmptyWriteSafe(w, size) <==>
              forall pos: nat, data: seq<byte> :: pos + size <= U64_MAX && data != [] ==>
                LaterWriteWorks(Write(w, size, []).0, size, Content(w), pos, data)
    ensures EmptyWriteSafe(w, size) ==> Content(Write(w, size, []).0) == Content(w)
  {
    hide WellFormed, Backed, Blocked, GoodBuffer, LaterWriteWorks, Write, Prepare, Content;
    FlushKeepsContent(w, size);
    var r := Write(w, size, []).0;
    if EmptyWriteSafe(w, size) {
      EmptyWriteRefines(w, size);
      FlushKeepsContent(r, size);
      forall pos: nat, data: seq<byte> | pos + size <= U64_MAX && data != []
        ensures LaterWriteWorks(r, size, Content(w), pos, data)
      {
        ReadyWrites(r, size, pos, data);
      }
    } else {
      EmptyWriteFails(w, size);
    }
  }

  // ---------- seeks ----------

  datatype SeekFrom = Start(n: nat) | Current(d: int) | End(d: int)

  function SeekTarget(current: nat, len: nat, from: SeekFrom, allowBeyondEof: bool): Option<nat> {
    var target: int := match from case Start(n) => n case Current(d) => current + d case End(d) => len + d;
    if target < 0 || U64_MAX < target || (target > len && !allowBeyondEof) then None else Some(target)
  }

  /** The writer measures seeks from the end against the mapped length, so they miss exactly an
      unflushed buffer that runs past it. */
  lemma SeekFromEndExact(w: Writer, size: nat)
    requires Ready(w, size)
    ensures (forall d: int :: SeekTarget(w.pos, w.blob.len, End(d), true) == SeekTarget(w.pos, |Content(w)|, End(d), true))
       <==> !(w.buf.Some? && w.buf.value.dirty && w.blob.len < w.buf.value.start + |w.buf.value.content|)
  {
    var back: int := 0 - w.blob.len;
    assert SeekTarget(w.pos, w.blob.len, End(back), true) == Some(0);
    assert |Content(w)| != w.blob.len ==> SeekTarget(w.pos, |Content(w)|, End(back), true) != Some(0);
  }

  // ---------- reads ----------

  /** One `poll_read` into a buffer of `k` bytes. */
  ghost function Read(w: Writer, k: nat): seq<byte>
    requires ValidBlob(w.blob)
  {
    var dirty := w.buf.Some? && w.buf.value.dirty;
    if w.pos >= w.blob.len && !dirty then []
    else if k > 0 && w.buf.Some? && w.buf.value.start <= w.pos < w.buf.value.start + |w.buf.value.content| then
      var rest := w.buf.value.content[w.pos - w.buf.value.start..];
      rest[..Min(k, |rest|)]
    else ReadMapped(w.blob, w.pos, k)
  }

  /** What the chunk map alone answers; the blob reader has nothing else. */
  function ReadMapped(b: Blob, pos: nat, k: nat): seq<byte>
    requires WellFormed(b.entries, b.len)
  {
    match Get(b.entries, b.len, pos)
    case None => []
    case Some(Hole(n)) => seq(Min(n, k), _ => 0)
    case Some(Chunk(id, offset, n)) =>
      if offset <= |id.content| then id.content[offset..offset + Min(Min(n, k), |id.content| - offset)] else []
  }

  lemma ReadCases(w: Writer, k: nat)
    requires ValidBlob(w.blob)
    ensures w.blob.len <= w.pos && !(w.buf.Some? && w.buf.value.dirty) ==> Read(w, k) == []
    ensures k > 0 && w.buf.Some? && w.buf.value.start <= w.pos < w.buf.value.start + |w.buf.value.content|
            && !(w.blob.len <= w.pos && !w.buf.value.dirty) ==>
              var offset := w.pos - w.buf.value.start;
              Read(w, k) == w.buf.value.content[offset..offset + Min(k, |w.buf.value.content| - offset)]
    ensures !(k > 0 && w.buf.Some? && w.buf.value.start <= w.pos < w.buf.value.start + |w.buf.value.content|) ==>
              Read(w, k) == ReadMapped(w.blob, w.pos, k)
    ensures ReadMapped(w.blob, w.pos, 0) == []
  {
  }

  ghost predicate Reads(content: seq<byte>, pos: nat, k: nat, r: seq<byte>) {
    && (pos >= |content| ==> r == [])
    && (pos < |content| ==> 0 < |r| <= k && pos + |r| <= |content| && r == content[pos..pos + |r|])
  }

  lemma ReadChunkReads(b: Blob, pos: nat, k: nat, s: nat)
    requires ValidBlob(b) && k > 0 && Covers(b.entries, s, pos)
    ensures Get(b.entries, b.len, pos).Some? && Get(b.entries, b.len, pos).value.len == b.entries[s].end - pos
    ensures ReadMapped(b, pos, k) == Bytes(b)[pos..pos + Min(k, b.entries[s].end - pos)]
  {
    hide At;
    var e := b.entries[s];
    assert KeyAtOrBelow(b.entries, pos) == Some(s);
    var r := ReadMapped(b, pos, k);
    forall i | 0 <= i < |r| ensures r[i] == Bytes(b)[pos + i] {
      AtCovered(b.entries, b.len, s, pos + i);
    }
  }

  lemma ReadHoleReads(b: Blob, pos: nat, k: nat)
    requires ValidBlob(b) && k > 0 && pos < b.len && Get(b.entries, b.len, pos).value.Hole?
    ensures ReadMapped(b, pos, k) == Bytes(b)[pos..pos + Min(k, Get(b.entries, b.len, pos).value.len)]
  {
    GetMeaning(b.entries, b.len, pos);
    hide At, Get, WellFormed, Backed, Coalesced;
    var r := ReadMapped(b, pos, k);
    forall i | 0 <= i < |r| ensures r[i] == Bytes(b)[pos + i] {
      assert At(b.entries, pos + i) == None;
    }
  }

  lemma ReadMappedReads(b: Blob, pos: nat, k: nat)
    requires ValidBlob(b) && k > 0
    ensures Reads(Bytes(b), pos, k, ReadMapped(b, pos, k))
    ensures pos < b.len ==> |ReadMapped(b, pos, k)| == Min(k, Get(b.entries, b.len, pos).value.len)
  {
    GetMeaning(b.entries, b.len, pos);
    hide At, Get, WellFormed, Backed, Coalesced;
    if pos < b.len {
      var e := Get(b.entries, b.len, pos).value;
      if e.Chunk? {
        var s :| Covers(b.entries, s, pos) && b.entries[s].end == pos + e.len;
        ReadChunkReads(b, pos, k, s);
      } else {
        ReadHoleReads(b, pos, k);
      }
    }
  }

  /** A read before an unflushed buffer is answered by the map alone. */
  ghost predicate ReadHazard(w: Writer, k: nat)
    requires ValidBlob(w.blob)
  {
    && w.buf.Some? && w.buf.value.dirty && w.pos < w.buf.value.start
    && (w.blob.len <= w.pos
        || exists x :: 0 <= x < |w.buf.value.content| && w.buf.value.content[x] != 0
             && w.buf.value.start + x < w.pos + Min(k, Get(w.blob.entries, w.blob.len, w.pos).value.len))
  }

  /** A read between flushes is right, except exactly when it starts before the unflushed buffer and
      either lies past the mapped end or runs over a non-zero byte of the buffer. */
  lemma ReadExact(w: Writer, size: nat, k: nat)
    requires Ready(w, size) && k > 0
    ensures Reads(Content(w), w.pos, k, Read(w, k)) <==> !ReadHazard(w, k)
  {
    ReadMappedReads(w.blob, w.pos, k);
    var r, c := Read(w, k), Content(w);
    if w.buf.None? {
    } else if !w.buf.value.dirty {
      ReadCleanBuffer(w, size, k);
    } else if w.pos >= w.buf.value.start {
      ReadDirtyBlock(w, size, k);
    } else if w.pos < w.blob.len {
      ReadBeforeBuffer(w, size, k);
    }
  }

  lemma ReadCleanBuffer(w: Writer, size: nat, k: nat)
    requires Ready(w, size) && k > 0 && w.buf.Some? && !w.buf.value.dirty
    ensures Reads(Content(w), w.pos, k, Read(w, k))
  {
    hide ValidBlob, Blocked, At, Get, ByteAt;
    ReadMappedReads(w.blob, w.pos, k);
    var f := w.buf.value;
    if f.start <= w.pos < f.start + |f.content| && w.pos < w.blob.len {
      CleanBufferIsRead(w.blob, size, f);
      SliceReads(Bytes(w.blob), f.start, f.start + |f.content|, w.pos, k);
    }
  }

  lemma CleanBufferIsRead(b: Blob, size: nat, f: Buffer)
    requires size > 0 && ValidBlob(b) && Blocked(b, size) && GoodBuffer(b, size, f) && !f.dirty
    requires f.start < b.len && f.content != []
    ensures f.start + |f.content| <= b.len && f.content == Bytes(b)[f.start..f.start + |f.content|]
  {
    hide ValidBlob, Blocked;
    BlockBytes(b, size, f, f.start);
    forall i | 0 <= i < |f.content| ensures f.content[i] == Bytes(b)[f.start + i] {
      BlockBytes(b, size, f, f.start + i);
    }
  }

  lemma SliceReads(c: seq<byte>, from: nat, to: nat, pos: nat, k: nat)
    requires from <= pos < to <= |c| && k > 0
    ensures var rest := c[from..to][pos - from..]; Reads(c, pos, k, rest[..Min(k, |rest|)])
  {
    var rest := c[from..to][pos - from..];
    var n := Min(k, |rest|);
    assert rest[..n] == c[pos..pos + n];
  }

  lemma ReadDirtyBlock(w: Writer, size: nat, k: nat)
    requires Ready(w, size) && k > 0 && w.buf.Some? && w.buf.value.dirty && w.buf.value.start <= w.pos
    ensures Reads(Content(w), w.pos, k, Read(w, k))
  {
    hide WellFormed, Coalesced, Backed, Blocked, At, Get, ByteAt;
    ReadMappedReads(w.blob, w.pos, k);
    var f, c := w.buf.value, Content(w);
    var to := f.start + |f.content|;
    if w.pos < to {
      assert f.content == c[f.start..to];
      SliceReads(c, f.start, to, w.pos, k);
    } else {
      ReadsBehind(Bytes(w.blob), f.start, f.content, w.pos, k, ReadMapped(w.blob, w.pos, k));
    }
  }

  lemma ReadsBehind(base: seq<byte>, start: nat, over: seq<byte>, pos: nat, k: nat, r: seq<byte>)
    requires start + |over| <= pos && Reads(base, pos, k, r)
    ensures Reads(Overlay(base, start, over), pos, k, r)
  {
  }

  /** Before the buffer the map answers from a chunk that ends in front of it, or with zeros. */
  lemma ReadStopsOrZeros(w: Writer, size: nat, k: nat)
    requires Ready(w, size) && k > 0 && w.buf.Some? && w.buf.value.dirty
    requires w.pos < w.buf.value.start && w.pos < w.blob.len
    ensures var r := ReadMapped(w.blob, w.pos, k);
            w.pos + |r| <= w.buf.value.start || forall i :: 0 <= i < |r| ==> r[i] == 0
  {
    BlockNeighbours(w.blob.entries, size, w.buf.value.start);
    GetMeaning(w.blob.entries, w.blob.len, w.pos);
    ReadMappedReads(w.blob, w.pos, k);
  }

  lemma ReadBeforeBuffer(w: Writer, size: nat, k: nat)
    requires Ready(w, size) && k > 0 && w.buf.Some? && w.buf.value.dirty
    requires w.pos < w.buf.value.start && w.pos < w.blob.len
    ensures Reads(Content(w), w.pos, k, Read(w, k)) <==> !ReadHazard(w, k)
  {
    ReadMappedReads(w.blob, w.pos, k);
    ReadStopsOrZeros(w, size, k);
    var r := ReadMapped(w.blob, w.pos, k);
    assert Read(w, k) == r;
    OverlaidRead(Bytes(w.blob), w.buf.value.start, w.buf.value.content, w.pos, k, r);
  }

  /** A slice of the base array is a slice of the overlaid one unless the overlay puts a non-zero byte there. */
  lemma OverlaidRead(base: seq<byte>, start: nat, over: seq<byte>, pos: nat, k: nat, r: seq<byte>)
    requires pos < |base| && pos < start && 0 < |r| <= k && pos + |r| <= |base| && r == base[pos..pos + |r|]
    requires pos + |r| <= start || forall i :: 0 <= i < |r| ==> r[i] == 0
    ensures Reads(Overlay(base, start, over), pos, k, r)
       <==> !exists x :: 0 <= x < |over| && over[x] != 0 && start + x < pos + |r|
  {
    var c := Overlay(base, start, over);
    if x :| 0 <= x < |over| && over[x] != 0 && start + x < pos + |r| {
      assert c[pos..pos + |r|][start + x - pos] != r[start + x - pos];
    } else {
      forall i | 0 <= i < |r| ensures r[i] == c[pos + i] {
        if start <= pos + i < start + |over| {
          assert over[pos + i - start] == 0;
        }
      }
      assert r == c[pos..pos + |r|];
    }
  }

  // ---------- histories ----------

  datatype Op = Seek(from: SeekFrom) | WriteAll(data: seq<byte>) | WriteNothing | FlushAll | Truncate(n: nat)

  datatype Flat = Flat(bytes: seq<byte>, pos: nat)

  function FlatStep(f: Flat, op: Op): Flat {
    match op
    case Seek(from) =>
      var target: int := match from case Start(n) => n case Current(d) => f.pos + d case End(d) => |f.bytes| + d;
      if 0 <= target <= U64_MAX then f.(pos := target) else f
    case WriteAll(data) => if data == [] then f else Flat(Overlay(f.bytes, f.pos, data), f.pos + |data|)
    case WriteNothing => f
    case FlushAll => f
    case Truncate(n) => f.(bytes := Resized(f.bytes, n))
  }

  /** A relative seek is undone by the opposite one. */
  lemma SeekBack(f: Flat, d: int)
    requires f.pos <= U64_MAX && 0 <= f.pos + d <= U64_MAX
    ensures FlatStep(f, Seek(Current(d))) == f.(pos := f.pos + d)
    ensures FlatStep(FlatStep(f, Seek(Current(d))), Seek(Current(-d))) == f
  {
  }

  function FlatRun(f: Flat, ops: seq<Op>): Flat
    decreases |ops|
  {
    if ops == [] then f else FlatRun(FlatStep(f, ops[0]), ops[1..])
  }

  /** `write_all`: writes until everything is taken. */
  ghost function Feed(w: Writer, size: nat, data: seq<byte>): Writer
    requires Ready(w, size) && w.pos + |data| + size <= U64_MAX
    decreases |data|
  {
    if data == [] then w
    else
      WriteRefines(w, size, data);
      var (r, out) := Write(w, size, data);
      Feed(r, size, data[out.n..])
  }

  /** What a step asks of its caller; every condition can be checked before the call. */
  ghost predicate Legal(w: Writer, size: nat, op: Op)
    requires size > 0
  {
    match op
    case Seek(from) =>
      from.End? ==> !(w.buf.Some? && w.buf.value.dirty && w.blob.len < w.buf.value.start + |w.buf.value.content|)
    case WriteAll(data) => w.pos + |data| + size <= U64_MAX
    case WriteNothing => w.pos + size <= U64_MAX && EmptyWriteSafe(w, size)
    case FlushAll => true
    case Truncate(n) => n <= U64_MAX && SetLenSafe(Flush(w).blob, size, n)
  }

  ghost function Step(w: Writer, size: nat, op: Op): Writer
    requires Ready(w, size) && Legal(w, size, op)
  {
    match op
    case Seek(from) => var t := SeekTarget(w.pos, w.blob.len, from, true); if t.Some? then w.(pos := t.value) else w
    case WriteAll(data) => Feed(w, size, data)
    case WriteNothing => EmptyWriteRefines(w, size); Write(w, size, []).0
    case FlushAll => Flush(w)
    case Truncate(n) => SetLen(w, n)
  }

  ghost function FlatOf(w: Writer): Flat {
    Flat(Content(w), w.pos)
  }

  lemma OverlayTwice(base: seq<byte>, pos: nat, data: seq<byte>, n: nat)
    requires 0 < n <= |data|
    ensures Overlay(Overlay(base, pos, data[..n]), pos + n, data[n..]) == Overlay(base, pos, data)
  {
  }

  lemma FlatWriteTwice(f: Flat, data: seq<byte>, n: nat)
    requires 0 < n <= |data|
    ensures FlatStep(Flat(Overlay(f.bytes, f.pos, data[..n]), f.pos + n), WriteAll(data[n..])) == FlatStep(f, WriteAll(data))
  {
    OverlayTwice(f.bytes, f.pos, data, n);
    if n == |data| { assert data[..n] == data; }
  }

  lemma OverlayAtEnd(base: seq<byte>, data: seq<byte>)
    ensures Overlay(base, |base|, data) == base + data
  {
  }

  lemma FeedStep(w: Writer, size: nat, data: seq<byte>)
    requires Ready(w, size) && w.pos + |data| + size <= U64_MAX && data != []
    ensures Ready(Flush(w), size)
    ensures var (r, out) := Write(w, size, data);
            && out.Wrote? && 0 < out.n <= |data| && Ready(r, size)
            && FlatOf(r) == Flat(Overlay(Content(w), w.pos, data[..out.n]), w.pos + out.n)
            && Feed(w, size, data) == Feed(r, size, data[out.n..])
  {
    WriteRefines(w, size, data);
  }

  lemma {:induction false} FeedRefines(w: Writer, size: nat, data: seq<byte>)
    requires Ready(w, size) && w.pos + |data| + size <= U64_MAX
    ensures Ready(Feed(w, size, data), size)
    ensures FlatOf(Feed(w, size, data)) == FlatStep(FlatOf(w), WriteAll(data))
    decreases |data|
  {
    hide Write, Content, Overlay;
    if data != [] {
      FeedStep(w, size, data);
      var (r, out) := Write(w, size, data);
      FeedRefines(r, size, data[out.n..]);
      FlatWriteTwice(FlatOf(w), data, out.n);
    }
  }

  lemma StepRefines(w: Writer, size: nat, op: Op)
    requires Ready(w, size) && Legal(w, size, op)
    ensures Ready(Step(w, size, op), size)
    ensures FlatOf(Step(w, size, op)) == FlatStep(FlatOf(w), op)
  {
    match op
    case Seek(from) =>
    case WriteAll(data) => FeedRefines(w, size, data);
    case WriteNothing => EmptyWriteRefines(w, size);
    case FlushAll => FlushKeepsContent(w, size);
    case Truncate(n) => FlushKeepsContent(w, size); SetLenRefines(w, size, n);
  }

  ghost predicate LegalRun(w: Writer, size: nat, ops: seq<Op>)
    requires Ready(w, size)
    decreases |ops|
  {
    ops == [] ||
    (Legal(w, size, ops[0]) && (StepRefines(w, size, ops[0]); LegalRun(Step(w, size, ops[0]), size, ops[1..])))
  }

  ghost function Run(w: Writer, size: nat, ops: seq<Op>): Writer
    requires Ready(w, size) && LegalRun(w, size, ops)
    decreases |ops|
  {
    if ops == [] then w else
      StepRefines(w, size, ops[0]);
      Run(Step(w, size, ops[0]), size, ops[1..])
  }

  /** After any legal history the flushed blob reads as the flat array the same history gives. */
  lemma {:induction false} HistoryRefines(w: Writer, size: nat, ops: seq<Op>)
    requires Ready(w, size) && LegalRun(w, size, ops)
    ensures Ready(Run(w, size, ops), size)
    ensures FlatOf(Run(w, size, ops)) == FlatRun(FlatOf(w), ops)
    ensures Bytes(Flush(Run(w, size, ops)).blob) == FlatRun(FlatOf(w), ops).bytes
    decreases |ops|
  {
    if ops != [] {
      StepRefines(w, size, ops[0]);
      HistoryRefines(Step(w, size, ops[0]), size, ops[1..]);
    }
    FlushKeepsContent(Run(w, size, ops), size);
  }

  // ---------- history independence ----------

  /** Every block below the end is mapped, and full unless it is the last. */
  ghost predicate Filled(b: Blob, size: nat)
    requires size > 0
  {
    forall p :: 0 <= p < b.len && p % size == 0 ==> p in b.entries && b.entries[p].end == Min(p + size, b.len)
  }

  /** Two filled blobs that read the same are the same, and so is their id. */
  lemma FilledIsCanonical(a: Blob, b: Blob, size: nat)
    requires size > 0 && ValidBlob(a) && ValidBlob(b) && Blocked(a, size) && Blocked(b, size)
    requires Filled(a, size) && Filled(b, size) && Bytes(a) == Bytes(b)
    ensures a == b && Id(a) == Id(b)
  {
    assert a.len == |Bytes(a)| == |Bytes(b)| == b.len;
    forall s | s in a.entries ensures s in b.entries && a.entries[s] == b.entries[s] {
      assert WholeBlock(a.entries, size, s);
      BlockHoldsBytes(a, size, s);
      BlockHoldsBytes(b, size, s);
    }
    forall s | s in b.entries ensures s in a.entries {
      assert WholeBlock(b.entries, size, s);
    }
  }

  /** A writer that has only ever appended. */
  ghost predicate Appending(w: Writer, size: nat) {
    Ready(w, size) && w.pos == |Content(w)| && Filled(Flush(w).blob, size)
  }

  /** Where an append leaves its buffer: it ends at the new end of the array. */
  lemma AppendEndsBuffer(w: Writer, size: nat, data: seq<byte>)
    requires Ready(w, size) && w.pos == |Content(w)| && w.pos + size <= U64_MAX && data != []
    ensures Ready(Flush(w), size) && Prepare(w, size).Some? && Prepare(w, size).value.buf.Some?
    ensures var p := Prepare(w, size).value; var f := p.buf.value; var (r, out) := Write(w, size, data);
            && out.Wrote? && r.blob == p.blob && r.buf.Some? && GoodBuffer(r.blob, size, r.buf.value)
            && r.buf.value.dirty && r.buf.value.start == f.start && f.start <= w.pos < f.start + size
            && f.start + |r.buf.value.content| == w.pos + out.n
  {
    WriteRefines(w, size, data);
    FlushKeepsContent(w, size);
    PrepareIsGood(w, size);
    var p := Prepare(w, size).value;
    WriteAtRefines(p, size, data);
    BlockBytes(p.blob, size, p.buf.value, p.buf.value.start);
  }

  /** Flushing before or after the buffer is prepared maps the same other blocks. */
  lemma PrepareKeepsOtherBlocks(w: Writer, size: nat)
    requires Ready(w, size) && w.pos + size <= U64_MAX
    ensures Ready(Flush(w), size) && Prepare(w, size).Some? && Prepare(w, size).value.buf.Some?
    ensures var p := Prepare(w, size).value;
            forall q :: q in Flush(w).blob.entries && q != p.buf.value.start ==>
              q in p.blob.entries && p.blob.entries[q] == Flush(w).blob.entries[q]
  {
    PrepareIsGood(w, size);
    FlushKeepsContent(w, size);
    if w.buf.Some? && w.buf.value.dirty {
      SubmittedIsUpdate(w.blob, size, w.buf.value.start, w.buf.value.content);
    }
  }

  lemma AppendKeepsFilled(w: Writer, size: nat, data: seq<byte>)
    requires Appending(w, size) && w.pos + size <= U64_MAX && data != []
    ensures Ready(Flush(w), size) && Appending(Write(w, size, data).0, size)
  {
    hide WellFormed, Coalesced, Backed, Blocked, Filled, Write, Prepare, Bytes, Overlay, Submitted;
    WriteRefines(w, size, data);
    AppendEndsBuffer(w, size, data);
    PrepareKeepsOtherBlocks(w, size);
    FlushKeepsContent(w, size);
    var (r, out) := Write(w, size, data);
    SubmittedIsUpdate(r.blob, size, r.buf.value.start, r.buf.value.content);
    FlushKeepsContent(r, size);
    assert |Content(r)| == r.pos;
    FillLastBlock(Flush(w).blob, Flush(r).blob, size, r.buf.value.start);
  }

  lemma FillLastBlock(a: Blob, b: Blob, size: nat, start: nat)
    requires size > 0 && Filled(a, size) && start % size == 0
    requires start <= a.len < start + size && a.len <= b.len <= start + size
    requires start in b.entries && b.entries[start].end == b.len
    requires forall q :: q in a.entries && q != start ==> q in b.entries && b.entries[q] == a.entries[q]
    ensures Filled(b, size)
  {
    forall q | 0 <= q < b.len && q % size == 0 ensures q in b.entries && b.entries[q].end == Min(q + size, b.len) {
      if q < start {
        BlockGap(q, start, size);
      } else if q > start {
        BlockGap(start, q, size);
      }
    }
  }

  /** An empty write by a writer that has only appended changes nothing that a flush would map. */
  lemma EmptyWriteKeepsFilled(w: Writer, size: nat)
    requires Appending(w, size) && w.pos + size <= U64_MAX
    ensures Ready(Flush(w), size) && Appending(Write(w, size, []).0, size)
    ensures Content(Write(w, size, []).0) == Content(w)
  {
    hide WellFormed, Coalesced, Backed, Blocked, Write, Bytes, Filled;
    EmptyWriteRefines(w, size);
    EmptyWriteStep(w, size);
    FlushKeepsContent(w, size);
    var f := Prepare(w, size).value.buf.value;
    if f.dirty {
      AppendedBuffer(w, size);
      assert Overlay(f.content, w.pos - f.start, []) == f.content;
    }
  }

  /** The unflushed buffer of such a writer reaches to the end of the array. */
  lemma AppendedBuffer(w: Writer, size: nat)
    requires Appending(w, size) && w.buf.Some? && w.buf.value.dirty && Contains(w.buf.value, w.pos)
    ensures w.buf.value.start + |w.buf.value.content| == w.pos
  {
    hide WellFormed, Coalesced, Backed, Blocked;
    var f := w.buf.value;
    SubmittedIsUpdate(w.blob, size, f.start, f.content);
    assert f.start in Flush(w).blob.entries;
  }

  predicate Append(op: Op) {
    op.WriteAll? || op.WriteNothing? || op.FlushAll?
  }

  function Appended(ops: seq<Op>): seq<byte> {
    if ops == [] then []
    else if ops[0].WriteAll? then ops[0].data + Appended(ops[1..])
    else Appended(ops[1..])
  }

  lemma AppendInParts(base: seq<byte>, data: seq<byte>, n: nat)
    requires n <= |data|
    ensures base + data[..n] + data[n..] == base + data
  {
    assert data == data[..n] + data[n..];
  }

  lemma {:induction false} FeedAppends(w: Writer, size: nat, data: seq<byte>)
    requires Appending(w, size) && w.pos + |data| + size <= U64_MAX
    ensures Appending(Feed(w, size, data), size) && Content(Feed(w, size, data)) == Content(w) + data
    decreases |data|
  {
    if data != [] {
      AppendKeepsFilled(w, size, data);
      WriteRefines(w, size, data);
      var (r, out) := Write(w, size, data);
      FeedAppends(r, size, data[out.n..]);
      OverlayAtEnd(Content(w), data[..out.n]);
      AppendInParts(Content(w), data, out.n);
    }
  }

  lemma StepAppends(w: Writer, size: nat, op: Op)
    requires Appending(w, size) && Append(op) && Legal(w, size, op)
    ensures Appending(Step(w, size, op), size)
    ensures Content(Step(w, size, op)) == Content(w) + if op.WriteAll? then op.data else []
  {
    FlushKeepsContent(w, size);
    if op.WriteAll? { FeedAppends(w, size, op.data); }
    if op.WriteNothing? { EmptyWriteKeepsFilled(w, size); }
  }

  lemma {:induction false} RunAppends(w: Writer, size: nat, ops: seq<Op>)
    requires Appending(w, size) && LegalRun(w, size, ops)
    requires forall i :: 0 <= i < |ops| ==> Append(ops[i])
    ensures Appending(Run(w, size, ops), size)
    ensures Content(Run(w, size, ops)) == Content(w) + Appended(ops)
    decreases |ops|
  {
    if ops != [] {
      StepAppends(w, size, ops[0]);
      var more := if ops[0].WriteAll? then ops[0].data else [];
      RunAppends(Step(w, size, ops[0]), size, ops[1..]);
      AppendInParts(Content(w), Appended(ops), |more|);
      assert Appended(ops) == more + Appended(ops[1..]);
    }
  }

  const EMPTY_WRITER := Writer(Blob(0, map[]), None, 0)

  /** However a byte string is split into sequential writes and wherever flushes fall between them,
      the finished blob and its id are the same. */
  lemma HistoryIndependence(size: nat, ops1: seq<Op>, ops2: seq<Op>)
    requires size > 0
    requires Ready(EMPTY_WRITER, size) && LegalRun(EMPTY_WRITER, size, ops1) && LegalRun(EMPTY_WRITER, size, ops2)
    requires forall i :: 0 <= i < |ops1| ==> Append(ops1[i])
    requires forall i :: 0 <= i < |ops2| ==> Append(ops2[i])
    requires Appended(ops1) == Appended(ops2)
    ensures var b1, b2 := Flush(Run(EMPTY_WRITER, size, ops1)).blob, Flush(Run(EMPTY_WRITER, size, ops2)).blob;
            b1 == b2 && Bytes(b1) == Appended(ops1) && WellFormed(b1.entries, b1.len) && Id(b1) == Id(b2)
  {
    assert Appending(EMPTY_WRITER, size);
    RunAppends(EMPTY_WRITER, size, ops1);
    RunAppends(EMPTY_WRITER, size, ops2);
    var w1, w2 := Run(EMPTY_WRITER, size, ops1), Run(EMPTY_WRITER, size, ops2);
    FlushKeepsContent(w1, size);
    FlushKeepsContent(w2, size);
    assert Content(EMPTY_WRITER) == [];
    FilledIsCanonical(Flush(w1).blob, Flush(w2).blob, size);
  }

  // ---------- states on the failing sides ----------

  lemma RunStep(w: Writer, size: nat, ops: seq<Op>)
    requires Ready(w, size) && ops != [] && Legal(w, size, ops[0])
    ensures Ready(Step(w, size, ops[0]), size)
    ensures LegalRun(w, size, ops) <==> LegalRun(Step(w, size, ops[0]), size, ops[1..])
    ensures LegalRun(w, size, ops) ==> Run(w, size, ops) == Run(Step(w, size, ops[0]), size, ops[1..])
  {
    StepRefines(w, size, ops[0]);
  }

  /** Writing one byte into an unmapped block leaves it in a dirty buffer over an empty blob. */
  lemma OneByteFed(size: nat, pos: nat, byte1: byte)
    requires 1 < size && pos % size == 0 && pos + 1 + size <= U64_MAX
    ensures Ready(Writer(Blob(0, map[]), None, pos), size)
    ensures Feed(Writer(Blob(0, map[]), None, pos), size, [byte1])
         == Writer(Blob(0, map[]), Some(Buffer(pos, size, [byte1], true)), pos + 1)
  {
    var w := Writer(Blob(0, map[]), None, pos);
    WriteRefines(w, size, [byte1]);
    var b := Buffer(pos, size, [], false);
    assert Open(w.blob, size, pos) == Some(b);
    assert [byte1][..1] == [byte1];
    assert WriteAt(b, pos, [byte1]).0 == Buffer(pos, size, [byte1], true);
  }

  /** An empty write behind a seek past the end: one byte written to the front afterwards grows the blob
      to the old position. */
  lemma EmptyWriteWitness()
    ensures var ops := [Seek(Start(5))];
            && Ready(EMPTY_WRITER, 8) && LegalRun(EMPTY_WRITER, 8, ops)
            && var w := Run(EMPTY_WRITER, 8, ops);
            && w.pos == 5 && Content(w) == [] && !EmptyWriteSafe(w, 8)
            && Ready(Flush(w), 8) && Ready(w, 8)
            && var r := Write(w, 8, []).0;
            && WellFormed(r.blob.entries, r.blob.len) && WellFormed(Flush(r).blob.entries, Flush(r).blob.len)
            && var v := Write(r.(pos := 0), 8, [1]).0;
            Bytes(Flush(v).blob) == [1, 0, 0, 0, 0]
  {
    RunStep(EMPTY_WRITER, 8, [Seek(Start(5))]);
    var w := Writer(Blob(0, map[]), None, 5);
    EmptyWriteStep(w, 8);
    var zeros: seq<byte> := [0, 0, 0, 0, 0];
    var r := Writer(w.blob, Some(Buffer(0, 8, zeros, false)), 5);
    assert Overlay([], 5, []) == zeros && Overlay(zeros, 0, [1]) == [1, 0, 0, 0, 0];
    assert Write(w, 8, []).0 == r;
    assert [1 as byte][..1] == [1];
    assert WriteAt(Buffer(0, 8, zeros, false), 0, [1]) == (Buffer(0, 8, [1, 0, 0, 0, 0], true), 1);
    assert Write(r.(pos := 0), 8, [1]).0.buf == Some(Buffer(0, 8, [1, 0, 0, 0, 0], true));
    var d := Writer(w.blob, Some(Buffer(0, 8, [1, 0, 0, 0, 0], true)), 1);
    assert Ready(d, 8);
    FlushKeepsContent(d, 8);
  }

  /** An unflushed byte: a seek to the end lands in front of it. */
  lemma SeekFromEndWitness(size: nat)
    requires 1 < size && 1 + size <= U64_MAX
    ensures var ops := [WriteAll([1])];
            && Ready(EMPTY_WRITER, size) && LegalRun(EMPTY_WRITER, size, ops)
            && var w := Run(EMPTY_WRITER, size, ops);
            && Content(w) == [1]
            && SeekTarget(w.pos, w.blob.len, End(0), true) == Some(0)
            && SeekTarget(w.pos, |Content(w)|, End(0), true) == Some(1)
  {
    OneByteFed(size, 0, 1);
    RunStep(EMPTY_WRITER, size, [WriteAll([1])]);
  }

  /** An unflushed byte in the second block: a read at the front finds nothing. */
  lemma ReadWitness(k: nat)
    requires k > 0
    ensures var ops := [Seek(Start(4)), WriteAll([1]), Seek(Start(0))];
            && Ready(EMPTY_WRITER, 4) && LegalRun(EMPTY_WRITER, 4, ops)
            && var w := Run(EMPTY_WRITER, 4, ops);
            && ValidBlob(w.blob) && Content(w) == [0, 0, 0, 0, 1] && w.pos == 0
            && ReadHazard(w, k) && Read(w, k) == []
  {
    hide Write, Feed;
    var ops := [Seek(Start(4)), WriteAll([1]), Seek(Start(0))];
    RunStep(EMPTY_WRITER, 4, ops);
    OneByteFed(4, 4, 1);
    var w := Writer(Blob(0, map[]), None, 4);
    RunStep(w, 4, ops[1..]);
    RunStep(Step(w, 4, ops[1]), 4, ops[2..]);
    UnflushedIsUnread(k);
  }

  lemma UnflushedIsUnread(k: nat)
    requires k > 0
    ensures var w := Writer(Blob(0, map[]), Some(Buffer(4, 4, [1], true)), 0);
            && ValidBlob(w.blob) && Content(w) == [0, 0, 0, 0, 1]
            && ReadHazard(w, k) && Read(w, k) == []
  {
  }
}
