/** The blob writer and reader as the objects the program runs: an optional write buffer, an optional
    submission in flight and a fetch cache, driven by polls that may answer "pending" at every
    wait (janus-vfs/src/blob/io.rs). Each poll is proved against the pure steps. */
module BlobIo {
  import opened Wrappers
  import opened Chunks
  import opened ChunkEntries
  import opened ChunkMaps
  import opened Blobs
  import WS = WriterSteps
  import WH = WriterHistory

  datatype Poll<+T> = Ready(value: T) | Pending

  /** `Panicked` stands for the failing assertion of `write_into_vec`, which is a panic. */
  datatype IoError = Closed | NotFound | MidChunkAlignment | Panicked | SeekUnderflow | SeekBeyondEof

  /** The chunk source and sink behind a file. */
  class ChunkStore {
    var chunks: map<ChunkId, seq<byte>>

    ghost predicate Valid()
      reads this
    {
      forall id :: id in chunks ==> chunks[id] == id.content
    }

    constructor ()
      ensures Valid() && chunks == map[]
    {
      chunks := map[];
    }

    method GetChunk(id: ChunkId) returns (r: Option<seq<byte>>)
      ensures r == if id in chunks then Some(chunks[id]) else None
    {
      r := if id in chunks then Some(chunks[id]) else None;
    }

    method InsertChunk(content: seq<byte>)
      requires Valid()
      modifies this
      ensures Valid() && chunks == old(chunks)[HashOf(content) := content]
    {
      chunks := chunks[HashOf(content) := content];
    }
  }

  /** `write_into_vec`: zero-fill the gap, then copy what fits; `a.Length` is the capacity. */
  method WriteIntoVec(a: array<byte>, len: nat, offset: nat, src: seq<byte>) returns (writable: nat, newLen: nat)
    requires len <= a.Length && offset <= a.Length
    modifies a
    ensures writable == Min(|src|, a.Length - offset)
    ensures newLen == Max(len, offset + writable) <= a.Length
    ensures a[..newLen] == Overlay(old(a[..len]), offset, src[..writable])
  {
    writable := Min(|src|, a.Length - offset);
    var end := offset + writable;
    newLen := Max(len, end);
    var i := len;
    while i < offset
      invariant len <= i <= Max(len, offset)
      invariant forall x :: 0 <= x < len ==> a[x] == old(a[x])
      invariant forall x :: len <= x < i ==> a[x] == 0
    {
      a[i] := 0;
      i := i + 1;
    }
    var j := 0;
    while j < writable
      invariant 0 <= j <= writable
      invariant forall x :: 0 <= x < len && (x < offset || offset + j <= x) ==> a[x] == old(a[x])
      invariant forall x :: len <= x < offset ==> a[x] == 0
      invariant forall x :: offset <= x < offset + j ==> a[x] == src[x - offset]
    {
      a[offset + j] := src[j];
      j := j + 1;
    }
  }

  /** Accumulates the bytes of one chunk. */
  class WriteBuffer {
    const startPos: nat
    const content: array<byte>
    var len: nat
    var dirty: bool

    ghost predicate Valid()
      reads this
    {
      len <= content.Length
    }

    ghost function View(): WS.Buffer
      requires Valid()
      reads this, content
    {
      WS.Buffer(startPos, content.Length, content[..len], dirty)
    }

    constructor FromData(startPos: nat, capacity: nat, data: seq<byte>)
      ensures Valid() && fresh(content)
      ensures View() == WS.Buffer(startPos, Max(capacity, |data|), data, false)
    {
      this.startPos := startPos;
      content := new byte[Max(capacity, |data|)](i => if 0 <= i < |data| then data[i] else 0);
      len := |data|;
      dirty := false;
    }

    method ReadAt(pos: nat, k: nat) returns (r: seq<byte>)
      requires Valid()
      ensures var held := View().content;
              if startPos <= pos < startPos + |held|
              then r == held[pos - startPos..pos - startPos + Min(k, |held| - (pos - startPos))]
              else r == []
    {
      if pos < startPos || pos >= startPos + len {
        return [];
      }
      var offset := pos - startPos;
      r := content[offset..offset + Min(k, len - offset)];
      assert r == View().content[offset..offset + Min(k, len - offset)];
    }

    method WriteAt(pos: nat, data: seq<byte>) returns (n: nat)
      requires Valid() && startPos <= pos <= startPos + content.Length
      modifies this, content
      ensures Valid()
      ensures (View(), n) == WS.WriteAt(old(View()), pos, data)
    {
      var newLen;
      n, newLen := WriteIntoVec(content, len, pos - startPos, data);
      len := newLen;
      if n > 0 {
        dirty := true;
      }
    }
  }

  datatype SubmitInFlight = SubmitInFlight(pos: nat, content: seq<byte>)

  class BlobWriter {
    const blob: ChunkMap
    const backend: ChunkStore
    const size: nat
    var fetched: Option<ChunkId>
    var buffer: WriteBuffer?
    var submit: Option<SubmitInFlight>
    var closed: bool
    var pos: nat

    ghost function Parts(): set<object>
      reads this, buffer
    {
      {this, blob, backend} + if buffer == null then {} else {buffer, buffer.content}
    }

    ghost function Mapped(): Blob
      reads blob
    {
      Blob(blob.len, blob.entries)
    }

    /** The state once a submission in flight has completed. */
    ghost function Settled(): WS.Writer
      reads this, buffer, Parts()
      requires buffer != null ==> buffer.Valid()
    {
      WS.Writer(
        if submit.Some? then WS.Submitted(Mapped(), submit.value.pos, submit.value.content) else Mapped(),
        if buffer == null then None else Some(buffer.View()),
        pos)
    }

    ghost predicate Valid()
      reads this, buffer, Parts()
    {
      && size > 0 && blob.Valid() && backend.Valid()
      && (forall s :: s in blob.entries ==> blob.entries[s].chunkId in backend.chunks)
      && (fetched.Some? ==> fetched.value in backend.chunks)
      && (buffer != null ==> buffer.Valid() && submit.None? && buffer.startPos + buffer.content.Length <= U64_MAX)
      && (submit.Some? ==> submit.value.pos + |submit.value.content| <= U64_MAX)
    }

    constructor (blob: ChunkMap, backend: ChunkStore, size: nat)
      requires size > 0 && blob.Valid() && backend.Valid()
      requires forall s :: s in blob.entries ==> blob.entries[s].chunkId in backend.chunks
      ensures Valid() && this.blob == blob && this.backend == backend && this.size == size && !closed
      ensures submit.None? && buffer == null
      ensures Settled() == WS.Writer(Blob(blob.len, blob.entries), None, 0)
    {
      this.blob := blob;
      this.backend := backend;
      this.size := size;
      fetched, buffer, submit, closed, pos := None, null, None, false, 0;
    }

    /** The completed submission goes into the map; the wait for it may be pending. */
    method PollSubmitComplete(mayStall: bool) returns (r: Poll<()>)
      requires Valid()
      modifies this, blob, backend
      ensures Valid() && buffer == old(buffer) && (buffer != null ==> buffer.View() == old(buffer.View()))
      ensures Settled() == old(Settled()) && closed == old(closed)
      ensures r.Ready? ==> submit.None?
      ensures r.Pending? ==> mayStall && buffer == null
      ensures backend.chunks.Keys == old(backend.chunks).Keys
                + if r.Ready? && old(submit.Some?) then {HashOf(old(submit).value.content)} else {}
    {
      if submit.Some? {
        if mayStall {
          if * { return Pending; }
        }
        var s := submit.value;
        backend.InsertChunk(s.content);
        MapChunk(s.pos, s.content);
        submit := None;
      }
      return Ready(());
    }

    /** Grow the blob to cover the chunk, then map it. */
    method MapChunk(start: nat, content: seq<byte>)
      requires blob.Valid() && start + |content| <= U64_MAX
      modifies blob
      ensures blob.Valid() && Mapped() == WS.Submitted(old(Mapped()), start, content)
      ensures forall s :: s in blob.entries ==>
                blob.entries[s].chunkId == HashOf(content)
                || exists t :: t in old(blob.entries) && old(blob.entries)[t].chunkId == blob.entries[s].chunkId
    {
      hide WellFormed, Coalesced, Insert;
      var newLen := start + |content|;
      if newLen > blob.len {
        blob.SetLen(newLen);
      }
      InsertIds(blob.entries, blob.len, start, |content|, HashOf(content), 0);
      blob.Insert(start, |content|, HashOf(content), 0);
    }

    /** Flush loop: complete the submission in flight, submit a dirty buffer, drop a clean one. */
    method PollFlushPipeline(mayStall: bool) returns (r: Poll<()>)
      requires Valid()
      modifies this, blob, backend
      ensures Valid() && buffer == null && closed == old(closed) && pos == old(pos)
      ensures Settled() == WS.Flush(old(Settled()))
      ensures r.Ready? ==> submit.None?
      ensures r.Pending? ==> mayStall
      ensures old(backend.chunks).Keys <= backend.chunks.Keys
    {
      if submit.Some? {
        r := PollSubmitComplete(mayStall);
        if r.Pending? {
          return;
        }
      }
      if buffer != null && buffer.dirty {
        var content := buffer.content[..buffer.len];
        submit := Some(SubmitInFlight(buffer.startPos, content));
        buffer := null;
        r := PollSubmitComplete(mayStall);
        return;
      }
      buffer := null;
      return Ready(());
    }

    /** `poll_ensure` of the fetch cache. */
    method PollFetch(id: ChunkId, mayStall: bool) returns (r: Poll<Result<seq<byte>, IoError>>)
      requires Valid() && id in backend.chunks
      modifies this`fetched
      ensures Valid()
      ensures r.Ready? ==> r.value == Ok(id.content) && fetched == Some(id)
      ensures r.Pending? ==> mayStall && fetched == old(fetched)
    {
      if fetched == Some(id) {
        return Ready(Ok(backend.chunks[id]));
      }
      if mayStall {
        if * { return Pending; }
      }
      var chunk := backend.GetChunk(id);
      if chunk.None? {
        return Ready(Err(NotFound));
      }
      fetched := Some(id);
      return Ready(Ok(chunk.value));
    }

    /** The buffer for a write at `pos`, once no submission is in flight and no buffer is left. */
    method PollOpen(mayStall: bool) returns (r: Poll<Result<(), IoError>>)
      requires Valid() && submit.None? && buffer == null && pos + size <= U64_MAX
      requires Writable(Settled(), size)
      modifies this`fetched, this`buffer
      ensures Valid() && submit.None?
      ensures r.Pending? ==> mayStall && buffer == null
      ensures r.Ready? && r.value.Ok? ==>
                && buffer != null && fresh(buffer) && fresh(buffer.content)
                && Some(buffer.View()) == WS.Open(Mapped(), size, pos)
      ensures r.Ready? && r.value.Err? ==>
                r.value.error == MidChunkAlignment && buffer == null && WS.Open(Mapped(), size, pos) == None
    {
      hide WS.Open, WellFormed, Coalesced, ChunkEntries.Get;
      var aligned := pos - pos % size;
      WS.BlockStart(pos, size);
      OpenCases(Mapped(), size, pos);
      var entry := blob.Get(aligned);
      var capacity, data := size, [];
      if entry.Some? && entry.value.Chunk? {
        if entry.value.chunkOffset != 0 {
          return Ready(Err(MidChunkAlignment));
        }
        ChunkIsMapped(blob.entries, blob.len, aligned);
        var chunk := PollFetch(entry.value.chunkId, mayStall);
        if chunk.Pending? {
          return Pending;
        }
        data := chunk.value.value;
      } else if entry.Some? {
        capacity := Min(entry.value.len, size);
      }
      buffer := new WriteBuffer.FromData(aligned, capacity, data);
      return Ready(Ok(()));
    }

    /** The flush-and-open part of `poll_write`. A poll that is left pending can only have moved the
        buffer into a submission, and only when the position lies outside of it. */
    method PollPrepare(mayStall: bool) returns (r: Poll<Result<(), IoError>>)
      requires Valid() && pos + size <= U64_MAX && Writable(Settled(), size)
      modifies this, blob, backend
      ensures Valid() && closed == old(closed) && pos == old(pos)
      ensures Writable(Settled(), size)
      ensures r.Ready? && r.value.Ok? ==>
                && submit.None? && buffer != null
                && (buffer == old(buffer) || (fresh(buffer) && fresh(buffer.content)))
                && Some(Settled()) == WS.Prepare(old(Settled()), size)
      ensures r.Ready? && r.value.Err? ==>
                && r.value.error == MidChunkAlignment && buffer == null
                && Settled() == WS.Flush(old(Settled())) && WS.Prepare(old(Settled()), size) == None
      ensures r.Pending? ==> mayStall && buffer == null
      ensures r.Pending? ==> Settled() == old(Settled()) || Settled() == WS.Flush(old(Settled()))
      ensures r.Pending? ==> WS.Prepare(Settled(), size) == WS.Prepare(old(Settled()), size)
      ensures old(backend.chunks).Keys <= backend.chunks.Keys
    {
      hide WellFormed, Coalesced, WS.Submitted, WS.Open;
      PrepareStaysWritable(Settled(), size);
      FlushStaysWritable(Settled(), size);
      var done := PollSubmitComplete(mayStall);
      if done.Pending? {
        return Pending;
      }
      if buffer != null && !(buffer.startPos <= pos < buffer.startPos + buffer.content.Length) {
        done := PollFlushPipeline(mayStall);
        if done.Pending? {
          return Pending;
        }
        fetched := None;
      }
      if buffer == null {
        var outcome := PollOpen(mayStall);
        if outcome.Pending? {
          return Pending;
        }
        if outcome.value.Err? {
          return Ready(Err(outcome.value.error));
        }
      }
      return Ready(Ok(()));
    }

    /** The write into the prepared buffer; `w` is the state the write began in. */
    method WriteBuffered(data: seq<byte>, ghost w: WS.Writer) returns (r: Result<nat, IoError>)
      requires Valid() && buffer != null && Writable(w, size)
      requires pos == w.pos && WS.Prepare(w, size) == Some(Settled())
      modifies this`pos, buffer, buffer.content
      ensures r.Ok? ==> Valid() && (Settled(), WS.Wrote(r.value)) == WS.Write(w, size, data)
      ensures r.Err? ==> r.error == Panicked && WS.Write(w, size, data) == (old(Settled()), WS.Panicked)
    {
      hide WellFormed, Coalesced, At, Writable, WS.Submitted, WS.Flush, WS.Prepare, WS.Write, WS.WriteAt, WS.Contains;
      WriteWhenPrepared(w, size, data);
      if pos > buffer.startPos + buffer.content.Length {
        return Err(Panicked);
      }
      var n := buffer.WriteAt(pos, data);
      pos := pos + n;
      return Ok(n);
    }

    /** One `poll_write`. Pending or not, the write that is finally made is the one the pure step
        describes from the state of the first poll. */
    method PollWrite(data: seq<byte>, mayStall: bool) returns (r: Poll<Result<nat, IoError>>)
      requires Valid() && pos + size <= U64_MAX && Writable(Settled(), size)
      modifies Parts()
      ensures closed == old(closed)
      ensures buffer == old(buffer) || buffer == null || (fresh(buffer) && fresh(buffer.content))
      ensures closed ==> Valid() && r == Ready(Err(Closed)) && Settled() == old(Settled())
      ensures r.Pending? ==>
                && mayStall && Valid() && Writable(Settled(), size)
                && (Settled() == old(Settled()) || Settled() == WS.Flush(old(Settled())))
                && WS.Write(Settled(), size, data) == WS.Write(old(Settled()), size, data)
      ensures !closed && r.Ready? && r.value.Ok? ==>
                Valid() && (Settled(), WS.Wrote(r.value.value)) == WS.Write(old(Settled()), size, data)
      ensures !closed && r.Ready? && r.value.Err? ==>
        if r.value.error == MidChunkAlignment
        then Valid() && (Settled(), WS.MidChunk) == WS.Write(old(Settled()), size, data)
        else r.value.error == Panicked && WS.Write(old(Settled()), size, data).1.Panicked?
      ensures old(backend.chunks).Keys <= backend.chunks.Keys
    {
      if closed {
        return Ready(Err(Closed));
      }
      hide WellFormed, Coalesced, At, WS.Submitted, WS.Flush, WS.Prepare, WS.Write, WS.WriteAt, WS.Contains;
      FlushStaysWritable(Settled(), size);
      ghost var w := Settled();
      var ready := PollPrepare(mayStall);
      if ready.Pending? {
        SamePreparedSameWrite(Settled(), w, size, data);
        return Pending;
      }
      if ready.value.Err? {
        return Ready(Err(ready.value.error));
      }
      WriteWhenPrepared(w, size, data);
      var n := WriteBuffered(data, w);
      return Ready(n);
    }

    /** One `poll_read` into `k` bytes. */
    method PollRead(k: nat, mayStall: bool) returns (r: Poll<Result<seq<byte>, IoError>>)
      requires Valid() && ValidBlob(Settled().blob)
      modifies this, blob, backend
      ensures Valid() && closed == old(closed)
      ensures r.Pending? ==> mayStall && Settled() == old(Settled())
      ensures r.Ready? && r.value.Err? ==> r.value.error == Closed && closed && Settled() == old(Settled())
      ensures r.Ready? && r.value.Ok? && !closed ==>
                r.value.value == WH.Read(old(Settled()), k)
                && Settled() == old(Settled()).(pos := old(pos) + |r.value.value|)
      ensures closed ==> Settled() == old(Settled())
      ensures closed ==>
        r == if old(pos >= blob.len && submit.None? && (buffer == null || !buffer.dirty)) then Ready(Ok([]))
             else Ready(Err(Closed))
      ensures old(backend.chunks).Keys <= backend.chunks.Keys
    {
      WH.ReadCases(Settled(), k);
      PastEndReads(Settled(), k);
      hide ValidBlob, WS.Submitted, WH.Read, WH.ReadMapped;
      if pos >= blob.len && submit.None? && (buffer == null || !buffer.dirty) {
        return Ready(Ok([]));
      }
      if closed {
        return Ready(Err(Closed));
      }
      var done := PollSubmitComplete(mayStall);
      if done.Pending? {
        return Pending;
      }
      var data := PollReadSettled(k, mayStall);
      if data.Pending? {
        return Pending;
      }
      pos := pos + |data.value|;
      return Ready(Ok(data.value));
    }

    /** From the buffer if it holds the position, else from the map. */
    method PollReadSettled(k: nat, mayStall: bool) returns (r: Poll<seq<byte>>)
      requires Valid() && ValidBlob(Mapped()) && submit.None?
      requires pos < blob.len || buffer == null || buffer.dirty
      modifies this`fetched
      ensures Valid()
      ensures r.Pending? ==> mayStall
      ensures r.Ready? ==> r.value == WH.Read(Settled(), k)
    {
      WH.ReadCases(Settled(), k);
      WH.ReadCases(Settled(), 0);
      hide ValidBlob, WS.Submitted, WH.Read, WH.ReadMapped;
      var data := [];
      if buffer != null {
        data := buffer.ReadAt(pos, k);
        assert data != [] <==> k > 0 && buffer.startPos <= pos < buffer.startPos + buffer.len;
        assert |buffer.View().content| == buffer.len;
      }
      if data == [] {
        r := PollReadMapped(k, mayStall);
        return;
      }
      return Ready(data);
    }

    /** `resolve_read` and the copy out of the fetched chunk. */
    method PollReadMapped(k: nat, mayStall: bool) returns (r: Poll<seq<byte>>)
      requires Valid() && ValidBlob(Mapped())
      modifies this`fetched
      ensures Valid()
      ensures r.Pending? ==> mayStall
      ensures r.Ready? ==> r.value == WH.ReadMapped(Mapped(), pos, k)
    {
      hide WellFormed, Coalesced, ChunkEntries.Get;
      var entry := blob.Get(pos);
      if entry.None? {
        return Ready([]);
      }
      if entry.value.Hole? {
        return Ready(seq(Min(entry.value.len, k), _ => 0));
      }
      ChunkIsMapped(blob.entries, blob.len, pos);
      var chunk := PollFetch(entry.value.chunkId, mayStall);
      if chunk.Pending? {
        return Pending;
      }
      var content := chunk.value.value;
      var offset := entry.value.chunkOffset;
      if offset > |content| {
        return Ready([]);
      }
      return Ready(content[offset..offset + Min(Min(entry.value.len, k), |content| - offset)]);
    }

    /** One awaited write of a non-empty piece, and what is left of the piece. */
    method WriteSome(data: seq<byte>) returns (rest: seq<byte>)
      requires Valid() && !closed && WS.Ready(Settled(), size) && pos + |data| + size <= U64_MAX && data != []
      modifies Parts()
      ensures Valid() && !closed && WS.Ready(Settled(), size)
      ensures buffer == old(buffer) || buffer == null || (fresh(buffer) && fresh(buffer.content))
      ensures |rest| < |data| && pos + |rest| == old(pos) + |data|
      ensures WH.Feed(Settled(), size, rest) == WH.Feed(old(Settled()), size, data)
      ensures old(backend.chunks).Keys <= backend.chunks.Keys
    {
      ghost var w := Settled();
      ReadyIsWritable(w, size);
      WH.FeedStep(w, size, data);
      hide WS.Write, WS.Flush, WS.Ready, WH.Feed, Writable, WS.Content, Overlay, Bytes;
      ghost var (next, out) := WS.Write(w, size, data);
      var n := PollWrite(data, false);
      rest := data[n.value.value..];
      assert Settled() == next && out.n == n.value.value;
    }

    /** `write_all`, awaited: polls until everything is taken. */
    method WriteAll(data: seq<byte>)
      requires Valid() && !closed && WS.Ready(Settled(), size) && pos + |data| + size <= U64_MAX
      modifies Parts()
      ensures Valid() && !closed && WS.Ready(Settled(), size)
      ensures Settled() == WH.Feed(old(Settled()), size, data)
      ensures WH.FlatOf(Settled()) == WH.FlatStep(old(WH.FlatOf(Settled())), WH.WriteAll(data))
      ensures old(backend.chunks).Keys <= backend.chunks.Keys
    {
      WH.FeedRefines(Settled(), size, data);
      hide WS.Ready;
      ghost var all := WH.Feed(Settled(), size, data);
      var rest := data;
      while rest != []
        modifies Parts()
        invariant Valid() && !closed && WS.Ready(Settled(), size) && pos + |rest| + size <= U64_MAX
        invariant buffer == old(buffer) || buffer == null || (fresh(buffer) && fresh(buffer.content))
        invariant WH.Feed(Settled(), size, rest) == all && old(backend.chunks).Keys <= backend.chunks.Keys
        decreases |rest|
      {
        rest := WriteSome(rest);
      }
    }

    method PollFlush(mayStall: bool) returns (r: Poll<Result<(), IoError>>)
      requires Valid()
      modifies this, blob, backend
      ensures Valid() && closed == old(closed)
      ensures closed ==> r == Ready(Err(Closed)) && Settled() == old(Settled())
      ensures !closed ==> Settled() == WS.Flush(old(Settled()))
      ensures !closed && r.Ready? ==> r.value.Ok? && submit.None? && buffer == null
      ensures r.Pending? ==> mayStall
      ensures old(backend.chunks).Keys <= backend.chunks.Keys
    {
      if closed {
        return Ready(Err(Closed));
      }
      var done := PollFlushPipeline(mayStall);
      if done.Pending? {
        return Pending;
      }
      return Ready(Ok(()));
    }

    method PollClose(mayStall: bool) returns (r: Poll<()>)
      requires Valid()
      modifies this, blob, backend
      ensures Valid()
      ensures !old(closed) ==> Settled() == WS.Flush(old(Settled()))
      ensures old(closed) ==> r.Ready? && Settled() == old(Settled())
      ensures r.Ready? ==> closed && (!old(closed) ==> submit.None? && buffer == null)
      ensures r.Pending? ==> mayStall && !closed
      ensures old(backend.chunks).Keys <= backend.chunks.Keys
    {
      if !closed {
        var done := PollFlushPipeline(mayStall);
        if done.Pending? {
          return Pending;
        }
        closed := true;
      }
      return Ready(());
    }

    /** `set_len`, awaited to the end. */
    method SetLen(newLen: nat) returns (r: Result<(), IoError>)
      requires Valid() && newLen <= U64_MAX
      modifies this, blob, backend
      ensures Valid() && closed == old(closed)
      ensures closed ==> r == Err(Closed) && Settled() == old(Settled())
      ensures !closed ==> r.Ok? && Settled() == WS.SetLen(old(Settled()), newLen)
      ensures old(backend.chunks).Keys <= backend.chunks.Keys
    {
      hide WellFormed, Coalesced, At, Resize, WS.Flush, WS.Submitted;
      var flushed := PollFlush(false);
      if flushed.value.Err? {
        return Err(flushed.value.error);
      }
      ResizeIds(blob.entries, blob.len, newLen);
      blob.SetLen(newLen);
      return Ok(());
    }

    /** `finalize`: close and hand out the blob with its id. */
    method Finalize() returns (b: Blob, id: BlobId)
      requires Valid() && !closed && WS.Ready(Settled(), size)
      modifies this, blob, backend
      ensures Valid() && closed
      ensures b == WS.Flush(old(Settled())).blob && ValidBlob(b) && id == Id(b)
      ensures Bytes(b) == old(WS.Content(Settled()))
      ensures forall s :: s in b.entries ==> b.entries[s].chunkId in backend.chunks
      ensures old(backend.chunks).Keys <= backend.chunks.Keys
    {
      WS.FlushKeepsContent(Settled(), size);
      var done := PollClose(false);
      b := Blob(blob.len, blob.entries);
      id := Id(b);
    }

    method Seek(from: WH.SeekFrom) returns (r: Result<nat, IoError>)
      requires Valid()
      modifies this`pos
      ensures Valid() && Settled() == old(Settled()).(pos := pos)
      ensures var target: int := match from
                case Start(n) => n
                case Current(d) => old(pos) + d
                case End(d) => blob.len + d;
              if 0 <= target <= U64_MAX then r == Ok(target) && pos == target
              else r == Err(SeekUnderflow) && pos == old(pos)
    {
      var target := WH.SeekTarget(pos, blob.len, from, true);
      if target.None? {
        return Err(SeekUnderflow);
      }
      pos := target.value;
      return Ok(pos);
    }
  }

  /** Reads a finished blob. */
  class BlobReader {
    const blob: Blob
    const backend: ChunkStore
    var fetched: Option<ChunkId>
    var pos: nat

    ghost predicate Valid()
      reads this, backend
    {
      && ValidBlob(blob) && backend.Valid()
      && (forall s :: s in blob.entries ==> blob.entries[s].chunkId in backend.chunks)
      && (fetched.Some? ==> fetched.value in backend.chunks)
    }

    constructor (blob: Blob, backend: ChunkStore)
      requires ValidBlob(blob) && backend.Valid()
      requires forall s :: s in blob.entries ==> blob.entries[s].chunkId in backend.chunks
      ensures Valid() && this.blob == blob && this.backend == backend && pos == 0
    {
      this.blob, this.backend := blob, backend;
      fetched, pos := None, 0;
    }

    /** One `poll_read`, awaited. */
    method Read(k: nat) returns (data: seq<byte>)
      requires Valid()
      modifies this`fetched, this`pos
      ensures Valid() && pos == old(pos) + |data|
      ensures k > 0 ==> WH.Reads(Bytes(blob), old(pos), k, data)
    {
      if k > 0 {
        WH.ReadMappedReads(blob, pos, k);
      }
      hide Bytes, WH.Reads, WH.ReadMapped, ValidBlob;
      if pos >= blob.len {
        NothingPastEnd(blob, pos, k);
        return [];
      }
      data := ReadHere(k);
      pos := pos + |data|;
    }

    /** What the map answers at the position, with its chunk from the cache or the store. */
    method ReadHere(k: nat) returns (data: seq<byte>)
      requires Valid()
      modifies this`fetched
      ensures Valid() && data == WH.ReadMapped(blob, pos, k)
    {
      hide WellFormed, Coalesced, Backed, ChunkEntries.Get;
      var entry := ChunkEntries.Get(blob.entries, blob.len, pos);
      if entry.None? {
        return [];
      }
      if entry.value.Hole? {
        return seq(Min(entry.value.len, k), _ => 0);
      }
      ChunkIsMapped(blob.entries, blob.len, pos);
      var id, offset := entry.value.chunkId, entry.value.chunkOffset;
      if fetched != Some(id) {
        var chunk := backend.GetChunk(id);
        fetched := Some(id);
      }
      var content := backend.chunks[id];
      assert content == id.content;
      return if offset <= |content| then content[offset..offset + Min(Min(entry.value.len, k), |content| - offset)] else [];
    }

    /** Reading in pieces of `k` bytes until nothing comes back gives the rest of the array. */
    method ReadToEnd(k: nat) returns (all: seq<byte>)
      requires Valid() && k > 0 && pos <= blob.len
      modifies this`fetched, this`pos
      ensures Valid() && pos == blob.len
      ensures all == Bytes(blob)[old(pos)..]
    {
      all := [];
      var more := true;
      while more
        invariant Valid() && old(pos) <= pos <= blob.len
        invariant all == Bytes(blob)[old(pos)..pos]
        invariant !more ==> pos == blob.len
        decreases blob.len - pos, more
      {
        ghost var start := pos;
        var data := Read(k);
        assert start < blob.len ==> data == Bytes(blob)[start..pos];
        all := all + data;
        more := data != [];
      }
    }

    method Seek(from: WH.SeekFrom) returns (r: Result<nat, IoError>)
      requires Valid()
      modifies this`pos
      ensures Valid()
      ensures var target: int := match from
                case Start(n) => n
                case Current(d) => old(pos) + d
                case End(d) => blob.len + d;
              if 0 <= target <= blob.len then r == Ok(target) && pos == target
              else r == Err(if 0 <= target <= U64_MAX then SeekBeyondEof else SeekUnderflow) && pos == old(pos)
    {
      var target := WH.SeekTarget(pos, blob.len, from, false);
      if target.None? {
        return Err(if WH.SeekTarget(pos, blob.len, from, true).None? then SeekUnderflow else SeekBeyondEof);
      }
      pos := target.value;
      return Ok(pos);
    }
  }

  /** What a poll of a write relies on: well-formed maps of chunks that fit the buffer. */
  ghost predicate Writable(w: WS.Writer, size: nat) {
    && size > 0
    && w.blob.len <= U64_MAX && WellFormed(w.blob.entries, w.blob.len) && Coalesced(w.blob.entries)
    && WellFormed(WS.Flush(w).blob.entries, WS.Flush(w).blob.len)
    && (forall s :: s in w.blob.entries ==> |w.blob.entries[s].chunkId.content| <= size)
    && (w.buf.Some? ==> |w.buf.value.content| <= size && w.buf.value.start + size <= U64_MAX)
  }

  lemma ReadyIsWritable(w: WS.Writer, size: nat)
    requires WS.Ready(w, size)
    ensures Writable(w, size)
  {
    WS.FlushKeepsContent(w, size);
    assert forall s :: s in w.blob.entries ==> WS.WholeBlock(w.blob.entries, size, s);
  }

  lemma NothingPastEnd(b: Blob, pos: nat, k: nat)
    requires ValidBlob(b) && b.len <= pos
    ensures WH.ReadMapped(b, pos, k) == []
  {
  }

  lemma PastEndReads(w: WS.Writer, k: nat)
    requires ValidBlob(w.blob)
    ensures w.blob.len <= w.pos ==> WH.ReadMapped(w.blob, w.pos, k) == []
  {
  }

  lemma FlushStaysWritable(w: WS.Writer, size: nat)
    requires Writable(w, size)
    ensures Writable(WS.Flush(w), size)
    ensures WS.Flush(WS.Flush(w)) == WS.Flush(w)
  {
    hide WellFormed, Coalesced, Insert;
    if w.buf.Some? && w.buf.value.dirty {
      SubmittedStaysWritable(w.blob, size, w.buf.value.start, w.buf.value.content);
    }
  }

  lemma SubmittedStaysWritable(b: Blob, size: nat, start: nat, content: seq<byte>)
    requires Writable(WS.Writer(b, None, 0), size) && start + |content| <= U64_MAX && |content| <= size
    ensures Writable(WS.Writer(WS.Submitted(b, start, content), None, 0), size)
  {
    var len := Max(b.len, start + |content|);
    WS.WellFormedWider(b.entries, b.len, len);
    hide WellFormed, Coalesced, Insert;
    assert WS.Submitted(b, start, content) == Blob(len, Insert(b.entries, len, start, |content|, HashOf(content), 0));
    InsertMeaning(b.entries, len, start, |content|, HashOf(content), 0);
    InsertIds(b.entries, len, start, |content|, HashOf(content), 0);
  }

  lemma OpenStaysWritable(w: WS.Writer, size: nat)
    requires Writable(w, size) && w.pos + size <= U64_MAX && w.buf.None?
    ensures var f := WS.Open(w.blob, size, w.pos); f.Some? ==> Writable(w.(buf := f), size)
  {
    hide WellFormed, Coalesced, ChunkEntries.Get, WS.Open;
    OpenCases(w.blob, size, w.pos);
    var e := ChunkEntries.Get(w.blob.entries, w.blob.len, w.pos - w.pos % size);
    if e.Some? && e.value.Chunk? {
      ChunkIsMapped(w.blob.entries, w.blob.len, w.pos - w.pos % size);
    }
  }

  lemma PrepareStaysWritable(w: WS.Writer, size: nat)
    requires Writable(w, size) && w.pos + size <= U64_MAX
    ensures WS.Prepare(w, size).Some? ==> Writable(WS.Prepare(w, size).value, size)
    ensures !(w.buf.Some? && WS.Contains(w.buf.value, w.pos)) ==>
              WellFormed(WS.Flush(WS.Flush(w)).blob.entries, WS.Flush(WS.Flush(w)).blob.len)
              && WS.Prepare(WS.Flush(w), size) == WS.Prepare(w, size)
  {
    hide WellFormed, Coalesced, WS.Submitted, WS.Open;
    FlushStaysWritable(w, size);
    OpenStaysWritable(WS.Flush(w), size);
  }

  lemma WriteWhenPrepared(w: WS.Writer, size: nat, data: seq<byte>)
    requires Writable(w, size)
    ensures match WS.Prepare(w, size)
            case None => WS.Write(w, size, data) == (WS.Flush(w), WS.MidChunk)
            case Some(p) =>
              p.buf.Some? &&
              if w.pos > p.buf.value.start + p.buf.value.cap then WS.Write(w, size, data) == (p, WS.Panicked)
              else
                p.buf.value.start <= w.pos &&
                var (b, n) := WS.WriteAt(p.buf.value, w.pos, data);
                WS.Write(w, size, data) == (p.(buf := Some(b), pos := w.pos + n), WS.Wrote(n))
  {
    hide WellFormed, Coalesced, WS.WriteAt;
    WS.BlockStart(w.pos, size);
  }

  /** A write depends on its state only through the prepared buffer and the flushed blob. */
  lemma SamePreparedSameWrite(w: WS.Writer, v: WS.Writer, size: nat, data: seq<byte>)
    requires Writable(w, size) && Writable(v, size) && w.pos == v.pos
    requires WS.Prepare(w, size) == WS.Prepare(v, size) && WS.Flush(w) == WS.Flush(v)
    ensures WS.Write(w, size, data) == WS.Write(v, size, data)
  {
    hide WS.Prepare, WS.Flush, WellFormed, Coalesced, WS.WriteAt;
  }

  lemma OpenCases(b: Blob, size: nat, pos: nat)
    requires size > 0 && WellFormed(b.entries, b.len)
    ensures pos - pos % size >= 0
    ensures var aligned := pos - pos % size;
            match ChunkEntries.Get(b.entries, b.len, aligned)
            case None => WS.Open(b, size, pos) == Some(WS.Buffer(aligned, size, [], false))
            case Some(Hole(n)) => WS.Open(b, size, pos) == Some(WS.Buffer(aligned, Min(n, size), [], false))
            case Some(Chunk(id, offset, _)) =>
              WS.Open(b, size, pos)
              == if offset == 0 then Some(WS.Buffer(aligned, Max(size, |id.content|), id.content, false)) else None
  {
    WS.BlockStart(pos, size);
  }

  lemma InsertIds(m: Entries, len: nat, offset: nat, n: nat, id: ChunkId, chunkOffset: nat)
    requires WellFormed(m, len) && Coalesced(m) && len <= U64_MAX
    ensures forall s :: s in Insert(m, len, offset, n, id, chunkOffset) ==>
              Insert(m, len, offset, n, id, chunkOffset)[s].chunkId == id ||
              exists t :: t in m && m[t].chunkId == Insert(m, len, offset, n, id, chunkOffset)[s].chunkId
  {
    InsertMeaning(m, len, offset, n, id, chunkOffset);
    var r := Insert(m, len, offset, n, id, chunkOffset);
    forall s | s in r ensures r[s].chunkId == id || exists t :: t in m && m[t].chunkId == r[s].chunkId {
      AtCovered(r, len, s, s);
      if At(m, s).Some? {
        var t := AtSome(m, len, s);
      }
    }
  }

  lemma ResizeIds(m: Entries, len: nat, newLen: nat)
    requires WellFormed(m, len) && Coalesced(m)
    ensures forall s :: s in Resize(m, len, newLen) ==>
              exists t :: t in m && m[t].chunkId == Resize(m, len, newLen)[s].chunkId
  {
    ResizeMeaning(m, len, newLen);
    var r := Resize(m, len, newLen);
    forall s | s in r ensures exists t :: t in m && m[t].chunkId == r[s].chunkId {
      AtCovered(r, newLen, s, s);
      var t := AtSome(m, len, s);
    }
  }

  lemma ChunkIsMapped(m: Entries, len: nat, offset: nat)
    requires WellFormed(m, len)
    requires Get(m, len, offset).Some? && Get(m, len, offset).value.Chunk?
    ensures exists s :: s in m && m[s].chunkId == Get(m, len, offset).value.chunkId
  {
  }
}
