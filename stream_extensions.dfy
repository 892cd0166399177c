/** StreamExtensions.ToAsyncEnumerable<T>(Stream, mediaType): the byte-stream-to-chunk adapter.
    It reads into one 4096-byte buffer until a read returns 0 and yields, for every read, a chunk
    over the whole buffer with the given media type.

    The buffer is reused, so every yielded chunk refers to the same array. The model records the
    buffer's contents when each chunk is yielded, which is what a consumer that copies each chunk
    before asking for the next one (as both bridges do) sees. */
module StreamExtensions {
  import opened Wrappers
  import opened Audio
  import opened ByteStreams

  const BufferSize: nat := 4096

  /** The contents of a new byte[4096]. */
  function Zeros(): (z: seq<byte>)
    ensures |z| == BufferSize
    ensures forall i :: 0 <= i < |z| ==> z[i] == 0
  {
    seq(BufferSize, _ => 0)
  }

  /** The chunks the adapter yields from a MemoryStream over data with its cursor at position,
      the reused buffer holding buf: each read overwrites the front of the buffer with the next
      bytes, and the chunk is the whole buffer. */
  function BlockChunks(data: seq<byte>, position: nat, mediaType: Option<string>, buf: seq<byte>): (r: seq<AudioContent>)
    requires |buf| == BufferSize
    ensures forall i :: 0 <= i < |r| ==> r[i].Inline? && r[i].mediaType == mediaType && |r[i].payload| == BufferSize
    decreases |data| - position
  {
    if position >= |data| then []
    else
      var n := Min(BufferSize, |data| - position);
      var next := data[position..position + n] + buf[n..];
      [Inline(next, mediaType)] + BlockChunks(data, position + n, mediaType, next)
  }

  /** The chunks holding exactly the bytes each read returned. */
  function ExactChunks(data: seq<byte>, position: nat, mediaType: Option<string>): (r: seq<AudioContent>)
    ensures forall i :: 0 <= i < |r| ==> r[i].Inline? && r[i].mediaType == mediaType && 0 < |r[i].payload| <= BufferSize
    decreases |data| - position
  {
    if position >= |data| then []
    else
      var n := Min(BufferSize, |data| - position);
      [Inline(data[position..position + n], mediaType)] + ExactChunks(data, position + n, mediaType)
  }

  /** The adapter as written: one chunk per read that returns more than 0 bytes, each the whole
      4096-byte buffer, until the first read that returns 0. */
  method ToAsyncEnumerable(stream: MemoryStream, mediaType: Option<string>) returns (chunks: seq<AudioContent>)
    modifies stream
    ensures chunks == BlockChunks(stream.data, old(stream.position), mediaType, Zeros())
    ensures stream.position == if old(stream.position) < |stream.data| then |stream.data| else old(stream.position)
  {
    var buffer := new byte[BufferSize](_ => 0);
    assert buffer[..] == Zeros();
    chunks := [];
    while true
      invariant buffer.Length == BufferSize
      invariant stream.position == old(stream.position) || (old(stream.position) < stream.position <= |stream.data|)
      invariant chunks + BlockChunks(stream.data, stream.position, mediaType, buffer[..])
                == BlockChunks(stream.data, old(stream.position), mediaType, Zeros())
      decreases |stream.data| - stream.position
    {
      ghost var prev := buffer[..];
      ghost var p := stream.position;
      var n := stream.ReadAsync(buffer, 0, buffer.Length);
      if n == 0 {
        break;
      }
      var chunk := Inline(buffer[..], mediaType);
      BlockStep(stream.data, p, mediaType, prev);
      ghost var rest := BlockChunks(stream.data, p + n, mediaType, buffer[..]);
      assert BlockChunks(stream.data, p, mediaType, prev) == [chunk] + rest;
      AppendAssoc(chunks, chunk, rest);
      chunks := chunks + [chunk];
      assert chunks + rest == BlockChunks(stream.data, old(stream.position), mediaType, Zeros());
    }
  }

  /** The adapter yielding buffer[..bytesRead] instead of the whole buffer. */
  method ToAsyncEnumerableExact(stream: MemoryStream, mediaType: Option<string>) returns (chunks: seq<AudioContent>)
    modifies stream
    ensures chunks == ExactChunks(stream.data, old(stream.position), mediaType)
    ensures stream.position == if old(stream.position) < |stream.data| then |stream.data| else old(stream.position)
  {
    var buffer := new byte[BufferSize](_ => 0);
    chunks := [];
    while true
      invariant buffer.Length == BufferSize
      invariant stream.position == old(stream.position) || (old(stream.position) < stream.position <= |stream.data|)
      invariant chunks + ExactChunks(stream.data, stream.position, mediaType)
                == ExactChunks(stream.data, old(stream.position), mediaType)
      decreases |stream.data| - stream.position
    {
      ghost var prev := buffer[..];
      ghost var p := stream.position;
      var n := stream.ReadAsync(buffer, 0, buffer.Length);
      if n == 0 {
        break;
      }
      var chunk := Inline(buffer[..n], mediaType);
      PrefixOfConcat(stream.data[p..p + n], prev[n..], buffer[..]);
      assert buffer[..n] == buffer[..][..n];
      assert chunk == Inline(stream.data[p..p + n], mediaType);
      ExactStep(stream.data, p, mediaType);
      ghost var rest := ExactChunks(stream.data, p + n, mediaType);
      assert ExactChunks(stream.data, p, mediaType) == [chunk] + rest;
      AppendAssoc(chunks, chunk, rest);
      chunks := chunks + [chunk];
      assert chunks + rest == ExactChunks(stream.data, old(stream.position), mediaType);
    }
  }

  lemma PrefixOfConcat(a: seq<byte>, b: seq<byte>, s: seq<byte>)
    requires s == a + b
    ensures s[..|a|] == a
  {
  }

  lemma AppendAssoc(chunks: seq<AudioContent>, c: AudioContent, rest: seq<AudioContent>)
    ensures (chunks + [c]) + rest == chunks + ([c] + rest)
  {
  }

  /** One read of the as-written adapter, unfolded. */
  lemma BlockStep(data: seq<byte>, position: nat, mediaType: Option<string>, buf: seq<byte>)
    requires |buf| == BufferSize && position < |data|
    ensures var n := Min(BufferSize, |data| - position);
            var next := data[position..position + n] + buf[n..];
            BlockChunks(data, position, mediaType, buf) == [Inline(next, mediaType)] + BlockChunks(data, position + n, mediaType, next)
  {
  }

  /** One read of the exact adapter, unfolded. */
  lemma ExactStep(data: seq<byte>, position: nat, mediaType: Option<string>)
    requires position < |data|
    ensures var n := Min(BufferSize, |data| - position);
            ExactChunks(data, position, mediaType) == [Inline(data[position..position + n], mediaType)] + ExactChunks(data, position + n, mediaType)
  {
  }

  /** The chunk count: an n-byte stream gives ceil(n / 4096) chunks. */
  lemma {:induction false} ExactChunksCount(data: seq<byte>, position: nat, mediaType: Option<string>)
    requires position <= |data|
    ensures |ExactChunks(data, position, mediaType)| == (|data| - position + BufferSize - 1) / BufferSize
    decreases |data| - position
  {
    if position < |data| {
      var n := Min(BufferSize, |data| - position);
      ExactChunksCount(data, position + n, mediaType);
    }
  }

  /** Chunk i holds the bytes of read i: source bytes [4096 i, 4096 i + bytesRead) from the
      starting position, where bytesRead is what a 4096-byte read returns there. */
  lemma {:induction false} ExactChunksAreReads(data: seq<byte>, position: nat, mediaType: Option<string>, i: nat)
    requires i < |ExactChunks(data, position, mediaType)|
    ensures var at := position + BufferSize * i;
            var n := ReadSize(|data|, at, BufferSize);
            0 < n && at + n <= |data|
            && ExactChunks(data, position, mediaType)[i] == Inline(data[at..at + n], mediaType)
    decreases i
  {
    if i > 0 {
      var n := Min(BufferSize, |data| - position);
      assert ExactChunks(data, position, mediaType)[i] == ExactChunks(data, position + n, mediaType)[i - 1];
      assert n == BufferSize;
      ExactChunksAreReads(data, position + n, mediaType, i - 1);
    }
  }

  /** Reading the exact chunks back as one stream gives the bytes that were read. */
  lemma {:induction false} ExactChunksRoundTrip(data: seq<byte>, position: nat, mediaType: Option<string>)
    requires position <= |data|
    ensures AllData(ExactChunks(data, position, mediaType))
    ensures Payloads(ExactChunks(data, position, mediaType)) == data[position..]
    decreases |data| - position
  {
    if position < |data| {
      var n := Min(BufferSize, |data| - position);
      ExactChunksRoundTrip(data, position + n, mediaType);
      assert data[position..] == data[position..position + n] + data[position + n..];
    }
  }

  /** The adapter as written yields as many chunks as there are reads; the front of every chunk
      is the bytes the read returned, and its tail still holds what the buffer held before the
      read (the previous chunk, or zeros). */
  lemma {:induction false} BlockChunksOverlayExact(data: seq<byte>, position: nat, mediaType: Option<string>, buf: seq<byte>)
    requires |buf| == BufferSize
    ensures var b := BlockChunks(data, position, mediaType, buf);
            var e := ExactChunks(data, position, mediaType);
            && |b| == |e|
            && (forall i :: 0 <= i < |b| ==>
                  b[i].payload == e[i].payload + (if i == 0 then buf else b[i - 1].payload)[|e[i].payload|..])
    decreases |data| - position
  {
    if position < |data| {
      var n := Min(BufferSize, |data| - position);
      var next := data[position..position + n] + buf[n..];
      BlockChunksOverlayExact(data, position + n, mediaType, next);
      var b := BlockChunks(data, position, mediaType, buf);
      var e := ExactChunks(data, position, mediaType);
      var b' := BlockChunks(data, position + n, mediaType, next);
      var e' := ExactChunks(data, position + n, mediaType);
      assert b == [Inline(next, mediaType)] + b' && e == [Inline(data[position..position + n], mediaType)] + e';
      forall i | 0 < i < |b|
        ensures b[i].payload == e[i].payload + b[i - 1].payload[|e[i].payload|..]
      {
        assert b[i] == b'[i - 1] && e[i] == e'[i - 1];
        if i == 1 {
          assert b[i - 1].payload == next;
        } else {
          assert b[i - 1] == b'[i - 2];
        }
      }
    }
  }

  /** The as-written adapter does not preserve the stream: reading its chunks back gives the bytes
      of the stream padded to a multiple of 4096 with whatever the buffer held. */
  lemma BlockChunksPadded(data: seq<byte>, mediaType: Option<string>)
    ensures |Payloads(BlockChunks(data, 0, mediaType, Zeros()))| == BufferSize * ((|data| + BufferSize - 1) / BufferSize)
  {
    var b := BlockChunks(data, 0, mediaType, Zeros());
    BlockChunksOverlayExact(data, 0, mediaType, Zeros());
    ExactChunksCount(data, 0, mediaType);
    FullBlocksLength(b);
  }

  /** A one-byte stream comes back as a full 4096-byte chunk. */
  lemma OneByteStreamIsPadded()
    ensures var b := BlockChunks([7], 0, None, Zeros());
            |b| == 1 && |Payloads(b)| == BufferSize && Payloads(b) != [7]
  {
    BlockChunksPadded([7], None);
    BlockChunksOverlayExact([7], 0, None, Zeros());
    assert ExactChunks([7], 1, None) == [];
  }

  /** Chunks that all carry BufferSize bytes read back as BufferSize bytes per chunk. */
  lemma {:induction false} FullBlocksLength(b: seq<AudioContent>)
    requires forall i :: 0 <= i < |b| ==> b[i].Inline? && |b[i].payload| == BufferSize
    ensures |Payloads(b)| == BufferSize * |b|
  {
    if b != [] {
      FullBlocksLength(b[1..]);
    }
  }
}
