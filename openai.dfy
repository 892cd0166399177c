/** OpenAITranscriptionClient: one request to the audio endpoint for the whole audio. */
module OpenAIClient {
  import opened Wrappers
  import opened Audio
  import opened Contract
  import opened FirstChunk
  import AudioContentStream

  /** The SDK's TranscriptionResult: the fields the adapter reads, and the object itself. */
  datatype TranscriptionResult = TranscriptionResult(
    id: Option<string>, text: Option<string>, startTime: Option<Ticks>, endTime: Option<Ticks>, handle: nat)

  /** The AudioClient calls: transcribe by URI, and transcribe the bytes of a stream. */
  datatype AudioClient = AudioClient(
    transcribeUri: string -> TranscriptionResult,
    transcribeStream: seq<byte> -> TranscriptionResult)

  /** The completion built from a result: its id, its text as the content, its times, and the
      result as the raw representation. */
  function ToCompletion(result: TranscriptionResult): (c: TranscriptionCompletion)
    ensures c.content == Some(TranscribedContent(result.text))
    ensures c.completionId == result.id && c.startTime == result.startTime && c.endTime == result.endTime
    ensures c.rawRepresentation == RawObject(result.handle)
    ensures c.modelId.None? && c.additionalProperties.None?
  {
    TranscriptionCompletion(result.id, None, Some(TranscribedContent(result.text)),
                            result.startTime, result.endTime, RawObject(result.handle), None)
  }

  /** TranscribeAsync: the first MoveNextAsync is not checked, so an empty sequence leaves Current
      null and reading ContainsData throws NullReferenceException. A reference is transcribed by
      URI; otherwise a fresh AudioContentAsyncEnumerableStream over the source is sent, which
      opens an enumerator of its own. */
  method TranscribeAsync(client: AudioClient, audio: AudioSource) returns (r: Result<TranscriptionCompletion>)
    ensures audio.firstPass == [] <==> r == Failure(NullReferenceException)
    ensures audio.firstPass != [] && !audio.firstPass[0].ContainsData() ==>
              r == Success(ToCompletion(client.transcribeUri(audio.firstPass[0].uri)))
    ensures audio.firstPass != [] && audio.firstPass[0].ContainsData() ==>
              r == Success(ToCompletion(client.transcribeStream(FreshBytes(audio))))
  {
    if audio.firstPass == [] {
      return Failure(NullReferenceException);
    }
    var firstChunk := audio.firstPass[0];
    var result;
    if !firstChunk.ContainsData() {
      result := client.transcribeUri(firstChunk.uri);
    } else {
      var bytes := AudioContentStream.ReadAll(audio.secondPass);
      result := client.transcribeStream(bytes);
    }
    return Success(ToCompletion(result));
  }

  /** The single update the streaming call yields for a completion. */
  function CompletionUpdate(c: TranscriptionCompletion): (u: TranscriptionUpdate)
    ensures u.eventName == "TranscriptionComplete"
    ensures u.transcription == (if c.content.Some? then c.content.value.transcription else None)
    ensures u.startTime == c.startTime && u.endTime == c.endTime && u.rawRepresentation == c.rawRepresentation
    ensures u.message.None? && u.additionalProperties.None? && u.modelId.None?
  {
    TranscriptionUpdate("TranscriptionComplete",
                        if c.content.Some? then c.content.value.transcription else None,
                        None, c.startTime, c.endTime, c.rawRepresentation, None, None)
  }

  /** TranscribeStreamingAsync: the non-streaming call, then exactly one "TranscriptionComplete"
      update carrying the transcription, the times and the raw result. */
  method TranscribeStreamingAsync(client: AudioClient, audio: AudioSource) returns (r: Result<seq<TranscriptionUpdate>>)
    ensures audio.firstPass == [] <==> r == Failure(NullReferenceException)
    ensures r.Success? ==> |r.value| == 1 && r.value[0].eventName == "TranscriptionComplete"
    ensures audio.firstPass != [] && audio.firstPass[0].ContainsData() ==>
              var result := client.transcribeStream(FreshBytes(audio));
              && r == Success([CompletionUpdate(ToCompletion(result))])
              && r.value[0].transcription == result.text
              && r.value[0].startTime == result.startTime && r.value[0].endTime == result.endTime
              && r.value[0].rawRepresentation == RawObject(result.handle)
    ensures audio.firstPass != [] && !audio.firstPass[0].ContainsData() ==>
              var result := client.transcribeUri(audio.firstPass[0].uri);
              && r == Success([CompletionUpdate(ToCompletion(result))])
              && r.value[0].transcription == result.text
              && r.value[0].startTime == result.startTime && r.value[0].endTime == result.endTime
              && r.value[0].rawRepresentation == RawObject(result.handle)
  {
    var c := TranscribeAsync(client, audio);
    if c.Failure? {
      return Failure(c.error);
    }
    return Success([CompletionUpdate(c.value)]);
  }
}
