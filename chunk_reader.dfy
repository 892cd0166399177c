/** The state shared by the two read-only stream bridges over a sequence of audio chunks
    (DataContentAsyncEnumerableStream and AudioContentAsyncEnumerableStream): which chunk the
    enumerator is on, the bytes of the current chunk, how far they have been copied out, and how
    many bytes the stream has returned. The invariant and the effect of each step of the read loop
    are stated here on the values of those fields. */
module ChunkReader {
  import opened Wrappers
  import opened Audio

  /** The values of a bridge's mutable fields. */
  datatype ReaderState = ReaderState(
    enumerated: nat,          // how many times MoveNextAsync has returned true
    isCompleted: bool,
    remainingData: seq<byte>,
    remainingDataOffset: nat,
    position: nat)

  /** The state of a freshly constructed bridge. */
  function Initial(): ReaderState
  {
    ReaderState(0, false, [], 0, 0)
  }

  /** The payload of the re-injected first chunk, when one is given and it carries data. */
  function FirstBytes(first: Option<AudioContent>): seq<byte>
  {
    if first.Some? && first.value.ContainsData() then first.value.payload else []
  }

  /** The first chunk is given and carries data. */
  predicate FirstHasData(first: Option<AudioContent>)
  {
    first.Some? && first.value.ContainsData()
  }

  /** The first chunk carries zero bytes: re-injecting it never moves the read loop forward. */
  predicate EmptyFirstChunk(first: Option<AudioContent>)
  {
    FirstHasData(first) && first.value.payload == []
  }

  /** Everything a bridge returns over its lifetime: the first chunk's payload, then the payloads
      its enumerator yields up to the first chunk without data. */
  function ExpectedBytes(first: Option<AudioContent>, source: seq<AudioContent>): seq<byte>
  {
    FirstBytes(first) + Payloads(source)
  }

  /** The bytes already taken from the chunks (or, before anything was returned, the first chunk
      still to be injected) that have not been returned yet. */
  function PendingOf(first: Option<AudioContent>, st: ReaderState): seq<byte>
    requires st.remainingDataOffset <= |st.remainingData|
  {
    if st.position == 0 && st.remainingDataOffset == |st.remainingData| then FirstBytes(first)
    else st.remainingData[st.remainingDataOffset..]
  }

  /** The bytes p held back, followed by what reading the chunks as a stream gives, are exactly e:
      walked chunk by chunk, moving each payload into the held bytes. */
  ghost predicate Accounted(p: seq<byte>, chunks: seq<AudioContent>, e: seq<byte>)
    decreases |chunks|
  {
    if chunks == [] || !chunks[0].ContainsData() then p == e
    else Accounted(p + chunks[0].payload, chunks[1..], e)
  }

  lemma {:induction false} AccountedMeans(p: seq<byte>, chunks: seq<AudioContent>, e: seq<byte>)
    ensures Accounted(p, chunks, e) <==> p + Payloads(chunks) == e
    decreases |chunks|
  {
    if chunks == [] {
      assert p + [] == p;
    } else if !chunks[0].ContainsData() {
      assert Payloads(chunks) == [];
      assert p + [] == p;
    } else {
      assert p + Payloads(chunks) == (p + chunks[0].payload) + Payloads(chunks[1..]);
      AccountedMeans(p + chunks[0].payload, chunks[1..], e);
    }
  }

  /** Only the current chunk's bytes are held: the first chunk's, or those of the chunk the
      enumerator yielded last. */
  predicate RetainsCurrentChunkOnly(first: Option<AudioContent>, source: seq<AudioContent>, st: ReaderState)
    requires st.enumerated <= |source|
  {
    st.remainingData == []
    || (st.enumerated == 0 && st.remainingData == FirstBytes(first))
    || (0 < st.enumerated && source[st.enumerated - 1].Data() == Some(st.remainingData))
  }

  /** The bridge invariant: the first position bytes of ExpectedBytes have been returned; while
      the stream is not completed, what is held followed by what the enumerator has still to
      yield is the rest of them; once it is completed, all of them have been returned. */
  ghost predicate Consistent(first: Option<AudioContent>, source: seq<AudioContent>, st: ReaderState)
  {
    && st.remainingDataOffset <= |st.remainingData|
    && st.enumerated <= |source|
    && st.position <= |ExpectedBytes(first, source)|
    && (st.isCompleted ==> st.position == |ExpectedBytes(first, source)| && st.remainingDataOffset == |st.remainingData|)
    && (!st.isCompleted ==>
          Accounted(PendingOf(first, st), source[st.enumerated..], ExpectedBytes(first, source)[st.position..]))
    && (!st.isCompleted ==> RetainsCurrentChunkOnly(first, source, st))
    && (st.position == 0 && FirstHasData(first) ==> st.enumerated == 0)
  }

  /** A new bridge is consistent. */
  lemma InitialConsistent(first: Option<AudioContent>, source: seq<AudioContent>)
    ensures Consistent(first, source, Initial())
  {
    var e := ExpectedBytes(first, source);
    assert e[0..] == FirstBytes(first) + Payloads(source);
    AccountedMeans(FirstBytes(first), source, e[0..]);
  }

  /** When a + b is a suffix of s, a is the block of s where that suffix starts and b what follows it. */
  lemma SplitSuffix(a: seq<byte>, b: seq<byte>, s: seq<byte>, from: nat)
    requires from <= |s| && a + b == s[from..]
    ensures from + |a| <= |s| && a == s[from..from + |a|] && b == s[from + |a|..]
  {
    assert a == (a + b)[..|a|];
    assert b == (a + b)[|a|..];
  }

  /** Taking n bytes from data[off..]: when data[off..] followed by tail is e[p..], the n bytes
      taken are e[p..p + n] and what is left, followed by tail, is e[p + n..]. */
  lemma TakeFromPending(data: seq<byte>, off: nat, n: nat, tail: seq<byte>, e: seq<byte>, p: nat)
    requires off + n <= |data| && p <= |e| && data[off..] + tail == e[p..]
    ensures p + n <= |e| && data[off + n..] + tail == e[p + n..]
    ensures forall i :: off <= i < off + n ==> data[i] == e[p + i - off]
  {
    assert data[off..] == data[off..off + n] + data[off + n..];
    assert data[off..off + n] + (data[off + n..] + tail) == e[p..];
    SplitSuffix(data[off..off + n], data[off + n..] + tail, e, p);
    forall i | off <= i < off + n
      ensures data[i] == e[p + i - off]
    {
      assert data[i] == data[off..off + n][i - off];
    }
  }

  /** The copy step on the bytes alone: when the held bytes from off, followed by the rest of the
      chunks, account for the expected bytes from position p, the n bytes taken are the next n
      expected bytes and what is left accounts for the expected bytes from p + n. */
  lemma CopyAccounted(data: seq<byte>, off: nat, n: nat, rest: seq<AudioContent>, e: seq<byte>, p: nat)
    requires off + n <= |data| && p <= |e|
    requires Accounted(data[off..], rest, e[p..])
    ensures p + n <= |e| && Accounted(data[off + n..], rest, e[p + n..])
    ensures forall i :: off <= i < off + n ==> data[i] == e[p + i - off]
  {
    AccountedMeans(data[off..], rest, e[p..]);
    TakeFromPending(data, off, n, Payloads(rest), e, p);
    AccountedMeans(data[off + n..], rest, e[p + n..]);
  }

  /** The copy step: taking n bytes from the current chunk keeps the invariant, and the n bytes
      taken are the next n bytes of ExpectedBytes. */
  lemma CopyKeeps(first: Option<AudioContent>, source: seq<AudioContent>, st: ReaderState, n: nat)
    requires Consistent(first, source, st) && !st.isCompleted
    requires 0 < n && st.remainingDataOffset + n <= |st.remainingData|
    ensures Consistent(first, source, st.(remainingDataOffset := st.remainingDataOffset + n, position := st.position + n))
    ensures st.position + n <= |ExpectedBytes(first, source)|
    ensures forall i :: st.remainingDataOffset <= i < st.remainingDataOffset + n ==>
              st.remainingData[i] == ExpectedBytes(first, source)[st.position + i - st.remainingDataOffset]
  {
    CopyKeepsState(first, source, st, n, st.(remainingDataOffset := st.remainingDataOffset + n, position := st.position + n));
    assert PendingOf(first, st) == st.remainingData[st.remainingDataOffset..];
    CopyAccounted(st.remainingData, st.remainingDataOffset, n, source[st.enumerated..],
                  ExpectedBytes(first, source), st.position);
  }

  /** The invariant half of the copy step, with the new state given by name. */
  lemma CopyKeepsState(first: Option<AudioContent>, source: seq<AudioContent>, st: ReaderState, n: nat, st': ReaderState)
    requires Consistent(first, source, st) && !st.isCompleted
    requires 0 < n && st.remainingDataOffset + n <= |st.remainingData|
    requires st' == st.(remainingDataOffset := st.remainingDataOffset + n, position := st.position + n)
    ensures Consistent(first, source, st')
  {
    var e := ExpectedBytes(first, source);
    var off, p := st.remainingDataOffset, st.position;
    assert PendingOf(first, st) == st.remainingData[off..];
    CopyAccounted(st.remainingData, off, n, source[st.enumerated..], e, p);
    assert PendingOf(first, st') == st.remainingData[off + n..];
    assert RetainsCurrentChunkOnly(first, source, st');
    OpenConsistent(first, source, st');
  }

  /** The invariant of a bridge that is not completed and has returned something, from its parts. */
  lemma OpenConsistent(first: Option<AudioContent>, source: seq<AudioContent>, st: ReaderState)
    requires !st.isCompleted && 0 < st.position
    requires st.remainingDataOffset <= |st.remainingData| && st.enumerated <= |source|
    requires st.position <= |ExpectedBytes(first, source)|
    requires Accounted(PendingOf(first, st), source[st.enumerated..], ExpectedBytes(first, source)[st.position..])
    requires RetainsCurrentChunkOnly(first, source, st)
    ensures Consistent(first, source, st)
  {
  }

  /** The first chunk is due (nothing returned yet, the current chunk used up): making its payload
      the current chunk keeps the invariant. */
  lemma InjectKeeps(first: Option<AudioContent>, source: seq<AudioContent>, st: ReaderState)
    requires Consistent(first, source, st) && !st.isCompleted
    requires st.remainingDataOffset == |st.remainingData| && st.position == 0 && FirstHasData(first)
    ensures Consistent(first, source, st.(remainingData := first.value.payload, remainingDataOffset := 0))
  {
    var st' := st.(remainingData := first.value.payload, remainingDataOffset := 0);
    assert PendingOf(first, st) == FirstBytes(first) == PendingOf(first, st');
  }

  /** The read loop takes the injection branch: the current chunk is used up, nothing has been
      returned yet, and the first chunk carries data. */
  predicate InjectionDue(first: Option<AudioContent>, st: ReaderState)
  {
    st.remainingDataOffset == |st.remainingData| && st.position == 0 && FirstHasData(first)
  }

  /** The state after the injection branch: the first chunk's payload is the current chunk. */
  function Inject(first: Option<AudioContent>, st: ReaderState): ReaderState
    requires FirstHasData(first)
  {
    st.(remainingData := first.value.payload, remainingDataOffset := 0)
  }

  /** As written, a zero-length first chunk is injected again and again: after the injection
      branch the loop is due to take the same branch once more, from the same state, having
      copied nothing. */
  lemma EmptyFirstChunkSpins(first: Option<AudioContent>, st: ReaderState)
    requires EmptyFirstChunk(first) && InjectionDue(first, st)
    ensures InjectionDue(first, Inject(first, st)) && Inject(first, st).position == st.position
    ensures Inject(first, Inject(first, st)) == Inject(first, st)
  {
  }

  /** The intended guard injects only a first chunk that has bytes. Such an injection is always
      followed by a copy, and passing over an empty first chunk loses nothing: a bridge over it
      stands for the same bytes as a bridge without a first chunk. */
  lemma InjectOnlyBytes(first: Option<AudioContent>, source: seq<AudioContent>, st: ReaderState)
    requires InjectionDue(first, st) && FirstBytes(first) != []
    ensures !InjectionDue(first, Inject(first, st))
    ensures Inject(first, st).remainingDataOffset < |Inject(first, st).remainingData|
  {
  }

  /** A zero-length first chunk adds nothing to the bytes a bridge stands for. */
  lemma EmptyFirstChunkAddsNothing(first: Option<AudioContent>, source: seq<AudioContent>)
    requires EmptyFirstChunk(first)
    ensures ExpectedBytes(first, source) == ExpectedBytes(None, source)
  {
  }

  /** MoveNextAsync once the current chunk is used up and no first chunk is due: at the end of the
      sequence, or at a chunk without data, completing the stream keeps the invariant; any other
      chunk's payload becomes the current chunk and the invariant is kept. */
  lemma MoveNextKeeps(first: Option<AudioContent>, source: seq<AudioContent>, st: ReaderState)
    requires Consistent(first, source, st) && !st.isCompleted
    requires st.remainingDataOffset == |st.remainingData| && !(st.position == 0 && FirstHasData(first))
    ensures st.enumerated == |source| ==> Consistent(first, source, st.(isCompleted := true))
    ensures st.enumerated < |source| && !source[st.enumerated].ContainsData() ==>
              Consistent(first, source, st.(enumerated := st.enumerated + 1, isCompleted := true))
    ensures st.enumerated < |source| && source[st.enumerated].ContainsData() ==>
              Consistent(first, source, st.(enumerated := st.enumerated + 1,
                                            remainingData := source[st.enumerated].payload,
                                            remainingDataOffset := 0))
  {
    var e := ExpectedBytes(first, source);
    assert PendingOf(first, st) == [];
    AccountedMeans([], source[st.enumerated..], e[st.position..]);
    if st.enumerated < |source| {
      var k := st.enumerated;
      var current := source[k];
      assert source[k..][0] == current && source[k..][1..] == source[k + 1..];
      if current.ContainsData() {
        var st' := st.(enumerated := k + 1, remainingData := current.payload, remainingDataOffset := 0);
        assert PendingOf(first, st') == current.payload == [] + current.payload;
      }
    }
  }
}
