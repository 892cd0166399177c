/** DataContentAsyncEnumerableStream: a sequential, read-only byte stream over a sequence of
    audio chunks, which re-injects a first chunk the caller has already taken from the sequence. */
module DataContentStream {
  import opened Wrappers
  import opened Audio
  import opened ChunkReader

  class DataContentAsyncEnumerableStream {
    /** The chunks the bridge's own enumerator yields. */
    const source: seq<AudioContent>
    /** The chunk the caller already consumed, re-injected before the source (_firstChunk). */
    const firstChunk: Option<AudioContent>
    var enumerated: nat
    var isCompleted: bool
    var remainingData: seq<byte>
    var remainingDataOffset: nat
    /** Bytes returned so far; they are Expected()[..position]. */
    var position: nat

    const CanRead: bool := true
    const CanSeek: bool := false
    const CanWrite: bool := false

    /** Everything the bridge returns over its lifetime. */
    ghost function Expected(): seq<byte>
    {
      ExpectedBytes(firstChunk, source)
    }

    function State(): ReaderState
      reads this
    {
      ReaderState(enumerated, isCompleted, remainingData, remainingDataOffset, position)
    }

    ghost predicate Valid()
      reads this
    {
      Consistent(firstChunk, source, State())
    }

    /** A read with count > 0 returns: the loop only spins forever when a zero-length first chunk
        is due for injection. */
    predicate CanProgress()
      reads this
    {
      isCompleted || position > 0 || !EmptyFirstChunk(firstChunk)
    }

    constructor (source: seq<AudioContent>, firstChunk: Option<AudioContent>)
      ensures Valid()
      ensures this.source == source && this.firstChunk == firstChunk
      ensures State() == Initial()
    {
      this.source := source;
      this.firstChunk := firstChunk;
      enumerated := 0;
      isCompleted := false;
      remainingData := [];
      remainingDataOffset := 0;
      position := 0;
      new;
      InitialConsistent(firstChunk, source);
    }

    /** The Position getter: the number of bytes returned so far. */
    function Position(): (p: nat)
      reads this
      ensures Valid() ==> p <= |Expected()|
      ensures Valid() && isCompleted ==> p == |Expected()|
    {
      position
    }

    function Length(): Result<int> { Failure(NotSupportedException) }
    function SetPosition(value: int): Result<()> { Failure(NotSupportedException) }
    function Flush(): Result<()> { Failure(NotSupportedException) }
    function Seek(offset: int, origin: SeekOrigin): Result<int> { Failure(NotSupportedException) }
    function SetLength(value: int): Result<()> { Failure(NotSupportedException) }
    function Read(buffer: seq<byte>, offset: int, count: int): Result<int> { Failure(NotSupportedException) }
    function Write(buffer: seq<byte>, offset: int, count: int): Result<()> { Failure(NotImplementedException) }
    function AddFirstChunk(first: AudioContent): Result<()> { Failure(NotImplementedException) }

    /** ReadAsync(buffer, offset, count): copies up to count bytes into buffer[offset..], taking
        the first chunk while nothing has been returned yet, then the enumerator's chunks; the
        end of the sequence or a chunk without data completes the stream for good. The bytes
        written are the next bytes of Expected(), and fewer than count only once completed. */
    method ReadAsync(buffer: array<byte>, offset: int, count: int) returns (bytesRead: int)
      requires Valid()
      requires count > 0 ==> 0 <= offset && offset + count <= buffer.Length
      requires count <= 0 || CanProgress()
      modifies this, buffer
      ensures Valid()
      ensures old(CanProgress()) ==> CanProgress()
      ensures 0 <= bytesRead && (count <= 0 ==> bytesRead == 0) && (count > 0 ==> bytesRead <= count)
      ensures bytesRead < count ==> isCompleted
      ensures old(isCompleted) ==> bytesRead == 0 && unchanged(this) && unchanged(buffer)
      ensures old(isCompleted) ==> isCompleted
      ensures enumerated >= old(enumerated)
      ensures position == old(position) + bytesRead
      ensures forall i :: offset <= i < offset + bytesRead ==> buffer[i] == Expected()[old(position) + i - offset]
      ensures forall i :: 0 <= i < buffer.Length && !(offset <= i < offset + bytesRead) ==> buffer[i] == old(buffer[i])
    {
      if isCompleted {
        return 0;
      }
      bytesRead := 0;
      if count > 0 {
        bytesRead := ReadLoop(buffer, offset, count);
      }
    }

    /** The while (bytesRead < count) loop of ReadAsync on a stream that is not completed. */
    method ReadLoop(buffer: array<byte>, offset: int, count: int) returns (bytesRead: int)
      requires Valid() && !isCompleted && CanProgress()
      requires 0 < count && 0 <= offset && offset + count <= buffer.Length
      modifies this, buffer
      ensures Valid() && CanProgress()
      ensures 0 <= bytesRead <= count
      ensures bytesRead < count ==> isCompleted
      ensures enumerated >= old(enumerated)
      ensures position == old(position) + bytesRead
      ensures forall i :: offset <= i < offset + bytesRead ==> buffer[i] == Expected()[old(position) + i - offset]
      ensures forall i :: 0 <= i < buffer.Length && !(offset <= i < offset + bytesRead) ==> buffer[i] == old(buffer[i])
    {
      bytesRead := 0;
      while bytesRead < count
        invariant Valid() && !isCompleted && CanProgress()
        invariant 0 <= bytesRead <= count
        invariant position == old(position) + bytesRead
        invariant enumerated >= old(enumerated)
        invariant forall i :: offset <= i < offset + bytesRead ==> buffer[i] == Expected()[old(position) + i - offset]
        invariant forall i :: 0 <= i < buffer.Length && !(offset <= i < offset + bytesRead) ==> buffer[i] == old(buffer[i])
        decreases count - bytesRead, |source| - enumerated, if remainingDataOffset < |remainingData| then 0 else 1
      {
        var n, completed := ReadStep(buffer, offset + bytesRead, count - bytesRead);
        bytesRead := bytesRead + n;
        if completed {
          break;
        }
      }
    }

    /** One pass of the read loop's body: copy from the current chunk when it has bytes left;
        otherwise inject the first chunk when it is due, or move the enumerator on. Every pass
        copies something, completes the stream, moves the enumerator, or loads a chunk that
        has bytes left. */
    method ReadStep(buffer: array<byte>, at: int, want: int) returns (n: int, completed: bool)
      requires Valid() && !isCompleted && CanProgress()
      requires 0 < want && 0 <= at && at + want <= buffer.Length
      modifies this, buffer
      ensures Valid() && completed == isCompleted && CanProgress()
      ensures 0 <= n <= want && position == old(position) + n
      ensures forall i :: at <= i < at + n ==> buffer[i] == Expected()[old(position) + i - at]
      ensures forall i :: 0 <= i < buffer.Length && !(at <= i < at + n) ==> buffer[i] == old(buffer[i])
      ensures completed ==> n == 0
      ensures enumerated >= old(enumerated)
      ensures || n > 0 || completed || enumerated > old(enumerated)
              || (enumerated == old(enumerated) && old(remainingDataOffset) == old(|remainingData|)
                  && remainingDataOffset < |remainingData|)
    {
      if remainingDataOffset < |remainingData| {
        n := CopyStep(buffer, at, want);
        completed := false;
      } else if position == 0 && firstChunk.Some? && firstChunk.value.ContainsData() {
        // Special case: the first chunk was consumed by the caller and is read first.
        InjectKeeps(firstChunk, source, State());
        remainingData := firstChunk.value.payload;
        remainingDataOffset := 0;
        n, completed := 0, false;
      } else {
        n := 0;
        completed := MoveNext();
      }
    }

    /** The copy step of the read loop: Math.Min(want, bytes left in the current chunk) bytes go
        to buffer[at..], and the cursor and Position advance by that much. */
    method CopyStep(buffer: array<byte>, at: int, want: int) returns (n: int)
      requires Valid() && !isCompleted && remainingDataOffset < |remainingData|
      requires 0 < want && 0 <= at && at + want <= buffer.Length
      modifies this`remainingDataOffset, this`position, buffer
      ensures Valid() && !isCompleted
      ensures 0 < n <= want && position == old(position) + n
      ensures forall i :: at <= i < at + n ==> buffer[i] == Expected()[old(position) + i - at]
      ensures forall i :: 0 <= i < buffer.Length && !(at <= i < at + n) ==> buffer[i] == old(buffer[i])
    {
      n := if want < |remainingData| - remainingDataOffset then want else |remainingData| - remainingDataOffset;
      CopyKeeps(firstChunk, source, State(), n);
      ArrayCopy(remainingData, remainingDataOffset, buffer, at, n);
      remainingDataOffset := remainingDataOffset + n;
      position := position + n;
    }

    /** The refill step once the current chunk is used up and no first chunk is due: MoveNextAsync
        on the bridge's enumerator; the end of the sequence or a chunk without data completes the
        stream, otherwise that chunk's payload becomes the current chunk. */
    method MoveNext() returns (completed: bool)
      requires Valid() && !isCompleted && remainingDataOffset == |remainingData|
      requires !(position == 0 && FirstHasData(firstChunk))
      modifies this`enumerated, this`isCompleted, this`remainingData, this`remainingDataOffset
      ensures Valid() && completed == isCompleted
      ensures old(enumerated) < |source| ==> enumerated == old(enumerated) + 1
      ensures old(enumerated) == |source| ==> completed && enumerated == old(enumerated)
    {
      MoveNextKeeps(firstChunk, source, State());
      if enumerated == |source| {
        isCompleted := true;
        return true;
      }
      var current := source[enumerated];
      enumerated := enumerated + 1;
      if !current.ContainsData() {
        isCompleted := true;
        return true;
      }
      remainingData := current.payload;
      remainingDataOffset := 0;
      return false;
    }
  }

  /** The unsupported members: the stream cannot seek, be written or be read synchronously. */
  lemma UnsupportedMembers(s: DataContentAsyncEnumerableStream, origin: SeekOrigin, data: seq<byte>, first: AudioContent)
    ensures s.CanRead && !s.CanSeek && !s.CanWrite
    ensures s.Length() == Failure(NotSupportedException)
    ensures s.SetPosition(0) == Failure(NotSupportedException)
    ensures s.Flush() == Failure(NotSupportedException)
    ensures s.Seek(0, origin) == Failure(NotSupportedException)
    ensures s.SetLength(0) == Failure(NotSupportedException)
    ensures s.Read(data, 0, |data|) == Failure(NotSupportedException)
    ensures s.Write(data, 0, |data|) == Failure(NotImplementedException)
    ensures s.AddFirstChunk(first) == Failure(NotImplementedException)
  {
  }

  /** Stream.CopyToAsync into a MemoryStream, then ToArray: reads until a read returns 0 and
      collects every byte. The result is the rest of what the bridge stands for. */
  method CopyToEnd(s: DataContentAsyncEnumerableStream) returns (bytes: seq<byte>)
    requires s.Valid() && s.CanProgress()
    modifies s
    ensures s.Valid() && s.isCompleted
    ensures old(s.position) <= |s.Expected()| && bytes == s.Expected()[old(s.position)..]
  {
    var buffer := new byte[81920];
    bytes := [];
    while true
      invariant s.Valid() && s.CanProgress()
      invariant old(s.position) <= s.position && bytes == s.Expected()[old(s.position)..s.position]
      decreases |s.Expected()| - s.position
    {
      ghost var before := s.position;
      var block := ReadBlock(s, buffer);
      if block == [] {
        break;
      }
      SliceSplit(s.Expected(), old(s.position), before, s.position);
      bytes := bytes + block;
    }
  }

  /** One ReadAsync into the whole copy buffer, seen as the block of bytes it returns: the next
      bytes the bridge stands for, and none only once the stream is completed. */
  method ReadBlock(s: DataContentAsyncEnumerableStream, buffer: array<byte>) returns (block: seq<byte>)
    requires s.Valid() && s.CanProgress() && buffer.Length > 0
    modifies s, buffer
    ensures s.Valid() && s.CanProgress()
    ensures old(s.position) <= s.position <= |s.Expected()|
    ensures block == s.Expected()[old(s.position)..s.position]
    ensures block == [] ==> s.isCompleted
  {
    ghost var before := s.position;
    var n := s.ReadAsync(buffer, 0, buffer.Length);
    ElementsToSlice(buffer, s.Expected(), 0, before, n);
    block := buffer[..n];
  }

  /** A fresh bridge read to its end gives the first chunk's payload (when it carries data)
      followed by the payloads its own enumerator yields, up to the first chunk without data. */
  method ReadAll(source: seq<AudioContent>, firstChunk: Option<AudioContent>) returns (bytes: seq<byte>)
    requires !EmptyFirstChunk(firstChunk)
    ensures bytes == FirstBytes(firstChunk) + Payloads(source)
  {
    var s := new DataContentAsyncEnumerableStream(source, firstChunk);
    bytes := CopyToEnd(s);
  }
}
