/** AudioContentAsyncEnumerableStream: the older bridge from a sequence of audio chunks to a
    sequential, read-only byte stream. It has the same cursor fields as the DataContent bridge
    and no first chunk to re-inject. */
module AudioContentStream {
  import opened Wrappers
  import opened Audio
  import opened ChunkReader

  class AudioContentAsyncEnumerableStream {
    /** The chunks the bridge's enumerator yields. */
    const source: seq<AudioContent>
    var enumerated: nat
    var isCompleted: bool
    var remainingData: seq<byte>
    var remainingDataOffset: nat
    /** Bytes returned so far; they are Expected()[..position]. */
    var position: nat

    const CanRead: bool := true
    const CanSeek: bool := false
    const CanWrite: bool := false

    /** Everything the bridge returns over its lifetime: the payloads up to the first chunk
        without data. */
    ghost function Expected(): seq<byte>
    {
      ExpectedBytes(None, source)
    }

    function State(): ReaderState
      reads this
    {
      ReaderState(enumerated, isCompleted, remainingData, remainingDataOffset, position)
    }

    ghost predicate Valid()
      reads this
    {
      Consistent(None, source, State())
    }

    constructor (source: seq<AudioContent>)
      ensures Valid()
      ensures this.source == source
      ensures State() == Initial()
    {
      this.source := source;
      enumerated := 0;
      isCompleted := false;
      remainingData := [];
      remainingDataOffset := 0;
      position := 0;
      new;
      InitialConsistent(None, source);
    }

    /** The Position getter: the number of bytes returned so far. */
    function Position(): (p: nat)
      reads this
      ensures Valid() ==> p <= |Expected()|
      ensures Valid() && isCompleted ==> p == |Expected()|
    {
      position
    }

    function Length(): Result<int> { Failure(NotSupportedException) }
    function SetPosition(value: int): Result<()> { Failure(NotSupportedException) }
    function Flush(): Result<()> { Failure(NotSupportedException) }
    function Seek(offset: int, origin: SeekOrigin): Result<int> { Failure(NotSupportedException) }
    function SetLength(value: int): Result<()> { Failure(NotSupportedException) }
    function Read(buffer: seq<byte>, offset: int, count: int): Result<int> { Failure(NotSupportedException) }
    function Write(buffer: seq<byte>, offset: int, count: int): Result<()> { Failure(NotImplementedException) }

    /** ReadAsync(buffer, offset, count): copies up to count bytes into buffer[offset..] from the
        current chunk, fetching the next chunk when it is used up; the end of the sequence or a
        chunk without data completes the stream for good. The bytes written are the next bytes
        of Expected(), and fewer than count only once completed. */
    method ReadAsync(buffer: array<byte>, offset: int, count: int) returns (bytesRead: int)
      requires Valid()
      requires count > 0 ==> 0 <= offset && offset + count <= buffer.Length
      modifies this, buffer
      ensures Valid()
      ensures 0 <= bytesRead && (count <= 0 ==> bytesRead == 0) && (count > 0 ==> bytesRead <= count)
      ensures bytesRead < count ==> isCompleted
      ensures old(isCompleted) ==> bytesRead == 0 && unchanged(this) && unchanged(buffer)
      ensures old(isCompleted) ==> isCompleted
      ensures enumerated >= old(enumerated)
      ensures position == old(position) + bytesRead
      ensures forall i :: offset <= i < offset + bytesRead ==> buffer[i] == Expected()[old(position) + i - offset]
      ensures forall i :: 0 <= i < buffer.Length && !(offset <= i < offset + bytesRead) ==> buffer[i] == old(buffer[i])
    {
      if isCompleted {
        return 0;
      }
      bytesRead := 0;
      if count > 0 {
        bytesRead := ReadLoop(buffer, offset, count);
      }
    }

    /** The while (bytesRead < count) loop of ReadAsync on a stream that is not completed. */
    method ReadLoop(buffer: array<byte>, offset: int, count: int) returns (bytesRead: int)
      requires Valid() && !isCompleted
      requires 0 < count && 0 <= offset && offset + count <= buffer.Length
      modifies this, buffer
      ensures Valid()
      ensures 0 <= bytesRead <= count
      ensures bytesRead < count ==> isCompleted
      ensures enumerated >= old(enumerated)
      ensures position == old(position) + bytesRead
      ensures forall i :: offset <= i < offset + bytesRead ==> buffer[i] == Expected()[old(position) + i - offset]
      ensures forall i :: 0 <= i < buffer.Length && !(offset <= i < offset + bytesRead) ==> buffer[i] == old(buffer[i])
    {
      bytesRead := 0;
      while bytesRead < count
        invariant Valid() && !isCompleted
        invariant 0 <= bytesRead <= count
        invariant position == old(position) + bytesRead
        invariant enumerated >= old(enumerated)
        invariant forall i :: offset <= i < offset + bytesRead ==> buffer[i] == Expected()[old(position) + i - offset]
        invariant forall i :: 0 <= i < buffer.Length && !(offset <= i < offset + bytesRead) ==> buffer[i] == old(buffer[i])
        decreases count - bytesRead, |source| - enumerated, if remainingDataOffset < |remainingData| then 0 else 1
      {
        var n, completed := ReadStep(buffer, offset + bytesRead, count - bytesRead);
        bytesRead := bytesRead + n;
        if completed {
          break;
        }
      }
    }

    /** One pass of the read loop's body: copy from the current chunk when it has bytes left,
        otherwise move the enumerator on. Every pass copies something, completes the stream or
        moves the enumerator. */
    method ReadStep(buffer: array<byte>, at: int, want: int) returns (n: int, completed: bool)
      requires Valid() && !isCompleted
      requires 0 < want && 0 <= at && at + want <= buffer.Length
      modifies this, buffer
      ensures Valid() && completed == isCompleted
      ensures 0 <= n <= want && position == old(position) + n
      ensures forall i :: at <= i < at + n ==> buffer[i] == Expected()[old(position) + i - at]
      ensures forall i :: 0 <= i < buffer.Length && !(at <= i < at + n) ==> buffer[i] == old(buffer[i])
      ensures completed ==> n == 0
      ensures enumerated >= old(enumerated)
      ensures n > 0 || completed || enumerated > old(enumerated)
    {
      if remainingDataOffset < |remainingData| {
        n := CopyStep(buffer, at, want);
        completed := false;
      } else {
        n := 0;
        completed := MoveNext();
      }
    }

    /** The copy step of the read loop: Math.Min(want, bytes left in the current chunk) bytes go
        to buffer[at..], and the cursor and Position advance by that much. */
    method CopyStep(buffer: array<byte>, at: int, want: int) returns (n: int)
      requires Valid() && !isCompleted && remainingDataOffset < |remainingData|
      requires 0 < want && 0 <= at && at + want <= buffer.Length
      modifies this`remainingDataOffset, this`position, buffer
      ensures Valid() && !isCompleted
      ensures 0 < n <= want && position == old(position) + n
      ensures forall i :: at <= i < at + n ==> buffer[i] == Expected()[old(position) + i - at]
      ensures forall i :: 0 <= i < buffer.Length && !(at <= i < at + n) ==> buffer[i] == old(buffer[i])
    {
      n := if want < |remainingData| - remainingDataOffset then want else |remainingData| - remainingDataOffset;
      CopyKeeps(None, source, State(), n);
      ArrayCopy(remainingData, remainingDataOffset, buffer, at, n);
      remainingDataOffset := remainingDataOffset + n;
      position := position + n;
    }

    /** The refill step once the current chunk is used up: MoveNextAsync; the end of the sequence
        or a chunk without data completes the stream, otherwise that chunk's payload (possibly
        empty) becomes the current chunk. */
    method MoveNext() returns (completed: bool)
      requires Valid() && !isCompleted && remainingDataOffset == |remainingData|
      modifies this`enumerated, this`isCompleted, this`remainingData, this`remainingDataOffset
      ensures Valid() && completed == isCompleted
      ensures old(enumerated) < |source| ==> enumerated == old(enumerated) + 1
      ensures old(enumerated) == |source| ==> completed && enumerated == old(enumerated)
      ensures old(enumerated) < |source| ==>
                (completed <==> !source[old(enumerated)].ContainsData())
      ensures !completed ==> remainingData == source[old(enumerated)].payload && remainingDataOffset == 0
    {
      MoveNextKeeps(None, source, State());
      if enumerated == |source| {
        isCompleted := true;
        return true;
      }
      var current := source[enumerated];
      enumerated := enumerated + 1;
      if !current.ContainsData() {
        isCompleted := true;
        return true;
      }
      remainingData := current.payload;
      remainingDataOffset := 0;
      return false;
    }
  }

  /** The unsupported members: the stream cannot seek, be written or be read synchronously. */
  lemma UnsupportedMembers(s: AudioContentAsyncEnumerableStream, origin: SeekOrigin, data: seq<byte>)
    ensures s.CanRead && !s.CanSeek && !s.CanWrite
    ensures s.Length() == Failure(NotSupportedException)
    ensures s.SetPosition(0) == Failure(NotSupportedException)
    ensures s.Flush() == Failure(NotSupportedException)
    ensures s.Seek(0, origin) == Failure(NotSupportedException)
    ensures s.SetLength(0) == Failure(NotSupportedException)
    ensures s.Read(data, 0, |data|) == Failure(NotSupportedException)
    ensures s.Write(data, 0, |data|) == Failure(NotImplementedException)
  {
  }

  /** Reading the bridge to its end: reads until a read returns 0 and collects every byte. The
      result is the rest of the payloads up to the first chunk without data. */
  method CopyToEnd(s: AudioContentAsyncEnumerableStream) returns (bytes: seq<byte>)
    requires s.Valid()
    modifies s
    ensures s.Valid() && s.isCompleted
    ensures old(s.position) <= |s.Expected()| && bytes == s.Expected()[old(s.position)..]
  {
    var buffer := new byte[81920];
    bytes := [];
    while true
      invariant s.Valid()
      invariant old(s.position) <= s.position && bytes == s.Expected()[old(s.position)..s.position]
      decreases |s.Expected()| - s.position
    {
      ghost var before := s.position;
      var block := ReadBlock(s, buffer);
      if block == [] {
        break;
      }
      SliceSplit(s.Expected(), old(s.position), before, s.position);
      bytes := bytes + block;
    }
  }

  /** One ReadAsync into the whole copy buffer, seen as the block of bytes it returns: the next
      bytes the bridge stands for, and none only once the stream is completed. */
  method ReadBlock(s: AudioContentAsyncEnumerableStream, buffer: array<byte>) returns (block: seq<byte>)
    requires s.Valid() && buffer.Length > 0
    modifies s, buffer
    ensures s.Valid()
    ensures old(s.position) <= s.position <= |s.Expected()|
    ensures block == s.Expected()[old(s.position)..s.position]
    ensures block == [] ==> s.isCompleted
  {
    ghost var before := s.position;
    var n := s.ReadAsync(buffer, 0, buffer.Length);
    ElementsToSlice(buffer, s.Expected(), 0, before, n);
    block := buffer[..n];
  }

  /** A fresh bridge read to its end gives exactly the payloads of the chunks before the first
      chunk without data, in order. */
  method ReadAll(source: seq<AudioContent>) returns (bytes: seq<byte>)
    ensures bytes == Payloads(source)
  {
    var s := new AudioContentAsyncEnumerableStream(source);
    bytes := CopyToEnd(s);
    assert FirstBytes(None) + Payloads(source) == Payloads(source);
  }
}
