/** How the adapters that look at the first chunk before choosing a by-reference or a by-data
    call read the audio bytes: the bridges they build open a second enumerator on the same
    source, so what the service receives depends on whether the source replays its chunks. */
module FirstChunk {
  import opened Wrappers
  import opened Audio
  import opened ChunkReader
  import DataContentStream

  /** The seeded bridge loops forever on a zero-length first chunk, so the adapters that build it
      need a first chunk that is absent, a reference, or non-empty. */
  predicate BridgeTerminates(audio: AudioSource)
  {
    audio.firstPass == [] || !EmptyFirstChunk(Some(audio.firstPass[0]))
  }

  /** The bytes a DataContentAsyncEnumerableStream seeded with the first chunk yields: that chunk's
      payload, then what a second enumerator over the source yields (the Semantic Kernel and the
      AssemblyAI adapters). */
  function SeededBytes(audio: AudioSource): seq<byte>
    requires audio.firstPass != []
  {
    FirstBytes(Some(audio.firstPass[0])) + Payloads(audio.secondPass)
  }

  /** The bytes a fresh bridge over the source yields: only what a second enumerator yields (the
      OpenAI adapter). */
  function FreshBytes(audio: AudioSource): seq<byte>
  {
    Payloads(audio.secondPass)
  }

  /** Over a one-shot source, the seeded bridge sends exactly the audio the source stands for. */
  lemma SeededBytesOfOneShot(audio: AudioSource)
    requires audio.OneShot() && audio.firstPass[0].ContainsData()
    ensures SeededBytes(audio) == Payloads(audio.firstPass)
  {
  }

  /** Over a source that replays its chunks, the seeded bridge sends the first chunk twice: a
      single non-empty chunk p reaches the service as p + p. */
  lemma SeededBytesOfReplay(p: seq<byte>, m: Option<string>)
    requires p != []
    ensures var audio := AudioSource([Inline(p, m)], [Inline(p, m)]);
            audio.Replayable() && SeededBytes(audio) == p + p && SeededBytes(audio) != Payloads(audio.firstPass)
  {
    var audio := AudioSource([Inline(p, m)], [Inline(p, m)]);
    assert Payloads(audio.firstPass) == p + Payloads([]);
    assert |p + p| > |p|;
  }

  /** Over a source that replays its chunks, the fresh bridge sends exactly the audio. */
  lemma FreshBytesOfReplay(audio: AudioSource)
    requires audio.Replayable()
    ensures FreshBytes(audio) == Payloads(audio.firstPass)
  {
  }

  /** Over a one-shot source, the fresh bridge loses the chunk the adapter looked at: chunks p, q
      reach the service as q alone. */
  lemma FreshBytesOfOneShot(p: seq<byte>, q: seq<byte>, m: Option<string>)
    requires p != []
    ensures var audio := AudioSource([Inline(p, m), Inline(q, m)], [Inline(q, m)]);
            audio.OneShot() && FreshBytes(audio) == q && FreshBytes(audio) != Payloads(audio.firstPass)
  {
    var audio := AudioSource([Inline(p, m), Inline(q, m)], [Inline(q, m)]);
    assert audio.firstPass[1..] == [Inline(q, m)];
    assert Payloads([Inline(q, m)]) == q + Payloads([]);
    assert Payloads(audio.firstPass) == p + q;
    assert |p + q| > |q|;
  }

  /** The corrected read: the bridge is seeded with the first chunk and continues with the
      enumerator that produced it, so the service receives exactly the audio the source stands
      for, whether or not the source replays its chunks. */
  method ResumeBytes(audio: AudioSource) returns (bytes: seq<byte>)
    requires audio.firstPass != [] && audio.firstPass[0].ContainsData()
    requires !EmptyFirstChunk(Some(audio.firstPass[0]))
    ensures bytes == Payloads(audio.firstPass)
  {
    bytes := DataContentStream.ReadAll(audio.firstPass[1..], Some(audio.firstPass[0]));
  }
}
