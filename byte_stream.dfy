/** The System.IO.Stream the chunkers read from, as a MemoryStream: a byte sequence and a read
    cursor. A read returns as many of the requested bytes as are left, so a read returns 0
    exactly at the end of the data. */
module ByteStreams {
  import opened Wrappers
  import opened Audio

  function Min(a: int, b: int): int
  {
    if a < b then a else b
  }

  /** The number of bytes a MemoryStream read of count bytes at position returns. */
  function ReadSize(length: nat, position: nat, count: nat): (n: nat)
    ensures n <= count
    ensures position < length ==> n == Min(count, length - position)
    ensures position >= length ==> n == 0
    ensures n == 0 <==> count == 0 || position >= length
  {
    if position < length then Min(count, length - position) else 0
  }

  class MemoryStream {
    const data: seq<byte>
    const CanSeek: bool
    /** The read cursor; Seek may put it beyond the end of the data. */
    var position: nat

    constructor (data: seq<byte>, canSeek: bool, position: nat)
      ensures this.data == data && this.CanSeek == canSeek && this.position == position
    {
      this.data := data;
      this.CanSeek := canSeek;
      this.position := position;
    }

    /** ReadAsync(buffer, offset, count): copies the next ReadSize bytes into buffer[offset..]
        and moves the cursor past them; the rest of the buffer is untouched. */
    method ReadAsync(buffer: array<byte>, offset: nat, count: nat) returns (n: nat)
      requires offset + count <= buffer.Length
      modifies this`position, buffer
      ensures n == ReadSize(|data|, old(position), count)
      ensures position == old(position) + n
      ensures forall i :: offset <= i < offset + n ==> buffer[i] == data[old(position) + i - offset]
      ensures forall i :: 0 <= i < buffer.Length && !(offset <= i < offset + n) ==> buffer[i] == old(buffer[i])
      ensures offset == 0 && n > 0 ==> buffer[..] == data[old(position)..old(position) + n] + old(buffer[..])[n..]
    {
      ghost var prev := buffer[..];
      n := ReadSize(|data|, position, count);
      if n > 0 {
        ArrayCopy(data, position, buffer, offset, n);
        position := position + n;
      }
      if offset == 0 && n > 0 {
        OverwritePrefix(buffer[..], prev, data, old(position), n);
      }
    }

    /** Seek(offset, origin): on a seekable stream the cursor moves to the target, unless that
        is before the beginning (IOException); a stream that cannot seek throws
        NotSupportedException. The new position is returned. */
    method Seek(offset: int, origin: SeekOrigin) returns (r: Result<nat>)
      modifies this`position
      ensures !CanSeek ==> r == Failure(NotSupportedException)
      ensures CanSeek ==> r == SeekTarget(old(position), offset, origin)
      ensures r.Success? ==> position == r.value
      ensures r.Failure? ==> position == old(position)
    {
      if !CanSeek {
        return Failure(NotSupportedException);
      }
      r := SeekTarget(position, offset, origin);
      if r.Success? {
        position := r.value;
      }
    }

    /** Where Seek(offset, origin) puts the cursor of a seekable stream. */
    function SeekTarget(position: nat, offset: int, origin: SeekOrigin): (r: Result<nat>)
      ensures r.Failure? ==> r.error == IOException
      ensures origin == Begin && offset >= 0 ==> r == Success(offset)
      ensures origin == Current ==> (r.Success? <==> position + offset >= 0)
    {
      var target := match origin
        case Begin => offset
        case Current => position + offset
        case End => |data| + offset;
      if target < 0 then Failure(IOException) else Success(target)
    }
  }

  /** Overwriting the first n elements of prev with src[p..p + n] gives src[p..p + n] followed by
      the rest of prev. */
  lemma OverwritePrefix(b: seq<byte>, prev: seq<byte>, src: seq<byte>, p: nat, n: nat)
    requires |b| == |prev| && n <= |b| && p + n <= |src|
    requires forall i :: 0 <= i < n ==> b[i] == src[p + i - 0]
    requires forall i :: n <= i < |b| ==> b[i] == prev[i]
    ensures b == src[p..p + n] + prev[n..]
  {
  }
}
