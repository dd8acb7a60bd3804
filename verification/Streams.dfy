/** Byte streams: a transaction read chunk by chunk, and a byte range cut out of a stream chunked in any way. */
module Streams {
  import opened ByteStrings
  import opened Integers
  import opened Options

  function Concat(chunks: seq<Bytes>): Bytes {
    if chunks == [] then [] else Concat(chunks[..|chunks| - 1]) + chunks[|chunks| - 1]
  }

  // ---------------------------------------------------------------- reading a transaction's chunks

  /** What is asked of the chunk source: an absolute weave offset, and the offset within the transaction. */
  datatype Request = Request(absolute: int, relative: nat)

  /** The source's answers; `None` is a failed request. */
  type ChunkSource = Request -> Option<Bytes>

  /** `pending` is the request whose answer the next read pushes. */
  datatype Reader = Reader(pending: Option<Request>, bytes: nat, output: Bytes, requests: seq<Request>, ended: bool,
    destroyed: bool)

  /** The offset of a transaction's last byte and its size give the offset of its first byte. */
  function StartOffset(offset: int, size: nat): int {
    offset - size + 1
  }

  function Open(offset: int, size: nat): Reader {
    var first := Request(StartOffset(offset, size), 0);
    Reader(Some(first), 0, [], [first], false, false)
  }

  function Read(src: ChunkSource, offset: int, size: nat, r: Reader): Reader {
    if r.pending.None? then r.(ended := true)
    else match src(r.pending.value)
      case None => r.(destroyed := true)
      case Some(chunk) =>
        var r' := r.(output := r.output + chunk, bytes := r.bytes + |chunk|);
        if r'.bytes < size then
          var next := Request(StartOffset(offset, size) + r'.bytes, r'.bytes);
          r'.(pending := Some(next), requests := r'.requests + [next])
        else r'.(pending := None)
  }

  function Reads(src: ChunkSource, offset: int, size: nat, n: nat): Reader {
    if n == 0 then Open(offset, size) else Read(src, offset, size, Reads(src, offset, size, n - 1))
  }

  /**
   The source cuts `data` into `chunks`, and answers a request at the start of one of the first `n` with that chunk.
   */
  ghost predicate Cuts(src: ChunkSource, offset: int, data: Bytes, chunks: seq<Bytes>, n: nat) {
    && Concat(chunks) == data && n <= |chunks|
    && (forall k :: 0 <= k < |chunks| ==> chunks[k] != [])
    && (forall k :: 0 <= k < n ==> AnswersChunk(src, offset, |data|, chunks, k))
  }

  predicate AnswersChunk(src: ChunkSource, offset: int, size: nat, chunks: seq<Bytes>, k: nat)
    requires k < |chunks|
  {
    var relative := |Concat(chunks[..k])|;
    src(Request(StartOffset(offset, size) + relative, relative)) == Some(chunks[k])
  }

  lemma {:induction false} ConcatPrefix(chunks: seq<Bytes>, k: nat)
    requires k <= |chunks|
    ensures |Concat(chunks[..k])| <= |Concat(chunks)|
    ensures k < |chunks| ==> Concat(chunks[..k + 1]) == Concat(chunks[..k]) + chunks[k]
    ensures k < |chunks| && chunks[k] != [] ==> |Concat(chunks[..k])| < |Concat(chunks)|
    decreases |chunks|
  {
    if k == |chunks| {
      assert chunks[..k] == chunks;
    } else {
      var init := chunks[..|chunks| - 1];
      assert chunks[..k + 1][..k] == chunks[..k];
      assert chunks[..k] == init[..k];
      if k == |chunks| - 1 {
        assert chunks[..k + 1] == chunks;
      } else {
        assert chunks[..k + 1] == init[..k + 1];
        ConcatPrefix(init, k);
      }
    }
  }

  /** The reader once the first `k` chunks were pushed: the next one is asked for unless there is none. */
  ghost predicate AtChunk(r: Reader, offset: int, size: nat, chunks: seq<Bytes>, k: nat)
    requires k <= |chunks|
  {
    && r.output == Concat(chunks[..k]) && r.bytes == |r.output| && !r.ended && !r.destroyed
    && r.pending == if k < |chunks| then Some(Request(StartOffset(offset, size) + r.bytes, r.bytes)) else None
  }

  lemma ReadStep(src: ChunkSource, offset: int, data: Bytes, chunks: seq<Bytes>, k: nat, r: Reader)
    requires Cuts(src, offset, data, chunks, k + 1) && AtChunk(r, offset, |data|, chunks, k)
    ensures AtChunk(Read(src, offset, |data|, r), offset, |data|, chunks, k + 1)
  {
    ConcatPrefix(chunks, k);
    assert AnswersChunk(src, offset, |data|, chunks, k);
    if k + 1 < |chunks| {
      ConcatPrefix(chunks, k + 1);
    } else {
      assert chunks[..k + 1] == chunks;
    }
  }

  lemma {:induction false} ReadsChunks(src: ChunkSource, offset: int, data: Bytes, chunks: seq<Bytes>, k: nat)
    requires Cuts(src, offset, data, chunks, k) && data != []
    ensures AtChunk(Reads(src, offset, |data|, k), offset, |data|, chunks, k)
  {
    if k == 0 {
      assert chunks != [];
    } else {
      ReadsChunks(src, offset, data, chunks, k - 1);
      ReadStep(src, offset, data, chunks, k - 1, Reads(src, offset, |data|, k - 1));
    }
  }

  /**
   For every cutting into non-empty chunks the reader emits the transaction's bytes, all of them and no more, and then
   ends.
   */
  lemma ReaderEmitsTheTransaction(src: ChunkSource, offset: int, data: Bytes, chunks: seq<Bytes>)
    requires Cuts(src, offset, data, chunks, |chunks|) && data != []
    ensures var r := Reads(src, offset, |data|, |chunks| + 1);
      r.output == data && |r.output| == |data| && r.ended && !r.destroyed
    ensures forall n: nat :: n <= |chunks| ==> !Reads(src, offset, |data|, n).ended
  {
    ReadsChunks(src, offset, data, chunks, |chunks|);
    assert chunks[..|chunks|] == chunks;
    forall n: nat | n <= |chunks| ensures !Reads(src, offset, |data|, n).ended {
      ReadsChunks(src, offset, data, chunks, n);
    }
  }

  /** If the request for a chunk fails, the reader is destroyed, having emitted the chunks before it and no end. */
  lemma FailedRequestBreaksOff(src: ChunkSource, offset: int, data: Bytes, chunks: seq<Bytes>, k: nat)
    requires Cuts(src, offset, data, chunks, k) && data != [] && k < |chunks|
    requires var relative := |Concat(chunks[..k])|; src(Request(StartOffset(offset, |data|) + relative, relative)).None?
    ensures var r := Reads(src, offset, |data|, k + 1);
      r.destroyed && !r.ended && r.output == Concat(chunks[..k]) && |r.output| < |data|
  {
    ReadsChunks(src, offset, data, chunks, k);
    ConcatPrefix(chunks, k);
  }

  ghost predicate InRange(offset: int, size: nat, requests: seq<Request>) {
    forall i :: 0 <= i < |requests| ==>
      offset - size + 1 <= requests[i].absolute <= offset
        && requests[i].absolute == StartOffset(offset, size) + requests[i].relative
  }

  /** What is pending was the last thing asked for. */
  lemma {:induction false} PendingWasAsked(src: ChunkSource, offset: int, size: nat, n: nat)
    ensures var r := Reads(src, offset, size, n);
      r.pending.Some? ==> r.requests != [] && r.requests[|r.requests| - 1] == r.pending.value
  {
    if n > 0 {
      PendingWasAsked(src, offset, size, n - 1);
    }
  }

  lemma {:induction false} AsksFirst(src: ChunkSource, offset: int, size: nat, n: nat)
    ensures var r := Reads(src, offset, size, n);
      |r.requests| > 0 && r.requests[0] == Request(StartOffset(offset, size), 0)
  {
    if n > 0 {
      AsksFirst(src, offset, size, n - 1);
    }
  }

  lemma {:induction false} AsksBelowSize(src: ChunkSource, offset: int, size: nat, n: nat)
    requires size > 0
    ensures InRange(offset, size, Reads(src, offset, size, n).requests)
  {
    if n > 0 {
      AsksBelowSize(src, offset, size, n - 1);
    }
  }

  /**
   Whatever the source answers, the reader asks only for the transaction's own offsets, exactly when there are any:
   for an empty transaction it has asked for the byte behind it before the first read.
   */
  lemma AsksOnlyItsOwn(src: ChunkSource, offset: int, size: nat, n: nat)
    ensures InRange(offset, size, Reads(src, offset, size, n).requests) <==> size > 0
    ensures Reads(src, offset, size, n).pending.Some? ==>
      Reads(src, offset, size, n).pending.value in Reads(src, offset, size, n).requests
  {
    AsksFirst(src, offset, size, n);
    PendingWasAsked(src, offset, size, n);
    if size > 0 {
      AsksBelowSize(src, offset, size, n);
    }
  }

  class TxChunkStream {
    const source: ChunkSource
    const offset: int
    const size: nat
    var bytes: nat
    var chunkDataPromise: Option<Request>
    var output: Bytes
    ghost var requests: seq<Request>
    var ended: bool
    var destroyed: bool

    ghost function State(): Reader
      reads this
    {
      Reader(chunkDataPromise, bytes, output, requests, ended, destroyed)
    }

    constructor (source: ChunkSource, offset: int, size: nat)
      ensures this.source == source && this.offset == offset && this.size == size && State() == Open(offset, size)
    {
      this.source, this.offset, this.size := source, offset, size;
      bytes, output, ended, destroyed := 0, [], false, false;
      chunkDataPromise := Some(Request(offset - size + 1, 0));
      requests := [Request(offset - size + 1, 0)];
    }

    method ReadChunk()
      modifies this
      ensures State() == Read(source, offset, size, old(State()))
    {
      if chunkDataPromise.None? {
        ended := true;
        return;
      }
      var chunk := source(chunkDataPromise.value);
      if chunk.None? {
        destroyed := true;
        return;
      }
      output := output + chunk.value;
      bytes := bytes + |chunk.value|;
      if bytes < size {
        var startOffset := offset - size + 1;
        chunkDataPromise := Some(Request(startOffset + bytes, bytes));
        requests := requests + [chunkDataPromise.value];
      } else {
        chunkDataPromise := None;
      }
    }
  }

  /** A consumer that reads a well-served transaction to its end. */
  method ReadTransaction(
      src: ChunkSource, offset: int, size: nat, ghost data: Bytes, ghost chunks: seq<Bytes>) returns (output: Bytes)
    requires Cuts(src, offset, data, chunks, |chunks|) && size == |data| > 0
    ensures output == data
  {
    var stream := new TxChunkStream(src, offset, size);
    ghost var n: nat := 0;
    while !stream.ended
      invariant stream.source == src && stream.offset == offset && stream.size == size
      invariant n <= |chunks| + 1 && stream.State() == Reads(src, offset, size, n)
      invariant stream.ended <==> n == |chunks| + 1
      decreases |chunks| + 1 - n
    {
      ReadsChunks(src, offset, data, chunks, n);
      stream.ReadChunk();
      n := n + 1;
      ReaderEmitsTheTransaction(src, offset, data, chunks);
    }
    ReaderEmitsTheTransaction(src, offset, data, chunks);
    output := stream.output;
  }

  // ---------------------------------------------------------------- cutting out a range

  /** Bytes `start` to `end`, both included, as far as they exist. */
  function ByteRange(data: Bytes, start: nat, end: nat): Bytes
    requires start <= end
  {
    data[Min(start, |data|)..Min(end + 1, |data|)]
  }

  /** What the transform pushes for a chunk that begins at `position`. */
  function Intersection(chunk: Bytes, position: nat, start: nat, end: nat): Bytes {
    var from, to := Max(start, position), Min(end, position + |chunk| - 1);
    if from <= to then chunk[from - position..to - position + 1] else []
  }

  lemma SliceOfConcat(a: Bytes, b: Bytes, lo: nat, hi: nat)
    requires lo <= hi <= |a| + |b|
    ensures (a + b)[lo..hi] == a[Min(lo, |a|)..Min(hi, |a|)] + b[Max(lo - |a|, 0)..Max(hi - |a|, 0)]
  {
    var left := a[Min(lo, |a|)..Min(hi, |a|)];
    var right := b[Max(lo - |a|, 0)..Max(hi - |a|, 0)];
    assert |left + right| == hi - lo;
    forall i | 0 <= i < hi - lo ensures (a + b)[lo..hi][i] == (left + right)[i] {
      assert (a + b)[lo..hi][i] == (a + b)[lo + i];
    }
  }

  /** A chunk adds to a range what lies of it in the chunk. */
  lemma RangeGrows(data: Bytes, chunk: Bytes, start: nat, end: nat)
    requires start <= end
    ensures ByteRange(data + chunk, start, end) == ByteRange(data, start, end) + Intersection(chunk, |data|, start, end)
  {
    var lo, hi := Min(start, |data + chunk|), Min(end + 1, |data + chunk|);
    SliceOfConcat(data, chunk, lo, hi);
    assert data[Min(lo, |data|)..Min(hi, |data|)] == ByteRange(data, start, end);
    var pushed := chunk[Max(lo - |data|, 0)..Max(hi - |data|, 0)];
    if Max(start, |data|) <= Min(end, |data| + |chunk| - 1) {
      assert pushed == Intersection(chunk, |data|, start, end);
    } else {
      assert pushed == [];
    }
  }

  class RangeTransform {
    const start: nat
    const end: nat
    var position: nat
    var output: Bytes

    constructor (start: nat, end: nat)
      ensures this.start == start && this.end == end && position == 0 && output == []
    {
      this.start, this.end, position, output := start, end, 0, [];
    }

    method Transform(chunk: Bytes, ghost before: Bytes)
      requires start <= end && position == |before| && output == ByteRange(before, start, end)
      modifies this
      ensures position == |before + chunk| && output == ByteRange(before + chunk, start, end)
    {
      RangeGrows(before, chunk, start, end);
      var chunkStart := position;
      var chunkEnd := chunkStart + |chunk| - 1;
      var intersectionStart := Max(start, chunkStart);
      var intersectionEnd := Min(end, chunkEnd);
      if intersectionStart <= intersectionEnd {
        output := output + chunk[intersectionStart - chunkStart..intersectionEnd - chunkStart + 1];
      }
      position := position + |chunk|;
    }
  }

  /** For every chunking of a stream, empty chunks included, the transform's output is bytes `start` to `end` of it. */
  method CutRange(chunks: seq<Bytes>, start: nat, end: nat) returns (output: Bytes)
    requires start <= end
    ensures output == ByteRange(Concat(chunks), start, end)
    ensures end < |Concat(chunks)| ==> output == Concat(chunks)[start..end + 1] && |output| == end - start + 1
  {
    var transform := new RangeTransform(start, end);
    for i := 0 to |chunks|
      invariant transform.start == start && transform.end == end
      invariant transform.position == |Concat(chunks[..i])|
        && transform.output == ByteRange(Concat(chunks[..i]), start, end)
    {
      ConcatPrefix(chunks, i);
      transform.Transform(chunks[i], Concat(chunks[..i]));
    }
    assert chunks[..|chunks|] == chunks;
    output := transform.output;
  }
}
