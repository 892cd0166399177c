/** Audio chunks (Microsoft.Extensions.AI AudioContent) and the byte stream a sequence of them stands for. */
module Audio {
  import opened Wrappers

  newtype byte = x: int | 0 <= x < 256

  /** One chunk: inline bytes with an optional media type, or a reference (URI) without bytes. */
  datatype AudioContent =
    | Inline(payload: seq<byte>, mediaType: Option<string>)
    | ByReference(uri: string, mediaType: Option<string>)
  {
    /** DataContent.ContainsData. */
    predicate ContainsData()
    {
      Inline?
    }

    /** DataContent.Data: the bytes, or null for a reference. */
    function Data(): (d: Option<seq<byte>>)
      ensures d.Some? <==> ContainsData()
    {
      if Inline? then Some(payload) else None
    }
  }

  /** An IAsyncEnumerable<AudioContent> seen through two enumerators: what the first
      GetAsyncEnumerator yields, and what a second one, opened after the first has moved once,
      yields. A replayable source yields the same chunks again; a one-shot source yields what
      the first enumerator left behind. */
  datatype AudioSource = AudioSource(firstPass: seq<AudioContent>, secondPass: seq<AudioContent>)
  {
    predicate Replayable()
    {
      secondPass == firstPass
    }

    predicate OneShot()
    {
      |firstPass| > 0 && secondPass == firstPass[1..]
    }
  }

  /** The bytes a sequence of chunks stands for when it is read as one stream: the payloads, in
      order, up to the first chunk without data (which ends the stream like the end of the sequence). */
  function Payloads(chunks: seq<AudioContent>): seq<byte>
  {
    if chunks == [] then []
    else match chunks[0]
      case Inline(p, _) => p + Payloads(chunks[1..])
      case ByReference(_, _) => []
  }

  /** Every chunk carries data. */
  predicate AllData(chunks: seq<AudioContent>)
  {
    forall i :: 0 <= i < |chunks| ==> chunks[i].ContainsData()
  }

  /** The concatenation of a sequence of byte blocks. */
  function Concat(blocks: seq<seq<byte>>): seq<byte>
  {
    if blocks == [] then [] else blocks[0] + Concat(blocks[1..])
  }

  /** The payload of every chunk, in order (for chunks that all carry data). */
  function PayloadList(chunks: seq<AudioContent>): (r: seq<seq<byte>>)
    requires AllData(chunks)
    ensures |r| == |chunks|
    ensures forall i :: 0 <= i < |chunks| ==> r[i] == chunks[i].payload
  {
    if chunks == [] then [] else [chunks[0].payload] + PayloadList(chunks[1..])
  }

  /** For chunks that all carry data, reading them as a stream gives exactly the concatenation of
      their payloads. */
  lemma {:induction false} PayloadsOfDataChunks(chunks: seq<AudioContent>)
    requires AllData(chunks)
    ensures Payloads(chunks) == Concat(PayloadList(chunks))
  {
    if chunks != [] {
      PayloadsOfDataChunks(chunks[1..]);
    }
  }

  /** Reading a+b as a stream is reading a and then b, when every chunk of a carries data. */
  lemma {:induction false} PayloadsAppend(a: seq<AudioContent>, b: seq<AudioContent>)
    requires AllData(a)
    ensures Payloads(a + b) == Payloads(a) + Payloads(b)
  {
    if a == [] {
      assert a + b == b;
    } else {
      assert (a + b)[0] == a[0] && a[0].ContainsData();
      assert (a + b)[1..] == a[1..] + b;
      PayloadsAppend(a[1..], b);
    }
  }

  /** A chunk without data ends the stream: nothing after it is read. */
  lemma PayloadsStopAtReference(a: seq<AudioContent>, c: AudioContent, b: seq<AudioContent>)
    requires AllData(a)
    requires !c.ContainsData()
    ensures Payloads(a + [c] + b) == Payloads(a)
  {
    assert a + [c] + b == a + ([c] + b);
    PayloadsAppend(a, [c] + b);
  }

  /** A zero-length chunk contributes no bytes and does not end the stream. */
  lemma PayloadsSkipEmpty(a: seq<AudioContent>, m: Option<string>, b: seq<AudioContent>)
    requires AllData(a)
    ensures Payloads(a + [Inline([], m)] + b) == Payloads(a + b)
  {
    assert a + [Inline([], m)] + b == a + ([Inline([], m)] + b);
    PayloadsAppend(a, [Inline([], m)] + b);
    PayloadsAppend(a, b);
    assert ([Inline([], m)] + b)[1..] == b;
  }

  /** The payloads of the chunks that carry data, in order, skipping the others. */
  function DataOnly(chunks: seq<AudioContent>): (r: seq<seq<byte>>)
    ensures |r| <= |chunks|
  {
    if chunks == [] then []
    else match chunks[0]
      case Inline(p, _) => [p] + DataOnly(chunks[1..])
      case ByReference(_, _) => DataOnly(chunks[1..])
  }

  /** When every chunk carries data, nothing is skipped. */
  lemma {:induction false} DataOnlyOfDataChunks(chunks: seq<AudioContent>)
    requires AllData(chunks)
    ensures DataOnly(chunks) == PayloadList(chunks)
  {
    if chunks != [] {
      DataOnlyOfDataChunks(chunks[1..]);
    }
  }

  /** Reading one more chunk adds its payload when it carries data, and nothing otherwise. */
  lemma {:induction false} DataOnlyAppend(a: seq<AudioContent>, c: AudioContent)
    ensures DataOnly(a + [c]) == DataOnly(a) + (if c.ContainsData() then [c.payload] else [])
    decreases |a|
  {
    if a == [] {
      assert [c][1..] == [];
    } else {
      assert (a + [c])[0] == a[0] && (a + [c])[1..] == a[1..] + [c];
      DataOnlyAppend(a[1..], c);
    }
  }

  /** Array.Copy(src, srcOffset, dst, dstOffset, n) from a byte block into a caller's array:
      exactly dst[dstOffset .. dstOffset + n) changes, and it receives the copied bytes. */
  method ArrayCopy(src: seq<byte>, srcOffset: nat, dst: array<byte>, dstOffset: nat, n: nat)
    requires srcOffset + n <= |src| && dstOffset + n <= dst.Length
    modifies dst
    ensures forall i :: dstOffset <= i < dstOffset + n ==> dst[i] == src[srcOffset + i - dstOffset]
    ensures forall i :: 0 <= i < dst.Length && !(dstOffset <= i < dstOffset + n) ==> dst[i] == old(dst[i])
  {
    forall i | dstOffset <= i < dstOffset + n {
      dst[i] := src[srcOffset + i - dstOffset];
    }
  }

  /** System.IO.SeekOrigin. */
  datatype SeekOrigin = Begin | Current | End

  /** Element-wise agreement of a block of an array with a block of e is equality of the two slices. */
  lemma ElementsToSlice(b: array<byte>, e: seq<byte>, at: nat, p: nat, n: nat)
    requires at + n <= b.Length && p + n <= |e|
    requires forall i :: at <= i < at + n ==> b[i] == e[p + i - at]
    ensures b[at..at + n] == e[p..p + n]
  {
  }

  /** A slice of a sequence splits at any point in between. */
  lemma SliceSplit(s: seq<byte>, i: int, j: int, k: int)
    requires 0 <= i <= j <= k <= |s|
    ensures s[i..k] == s[i..j] + s[j..k]
  {
  }
}
