/** The AssemblyAI client's non-streaming operations: one transcript for the whole audio. */
module AssemblyAIBatch {
  import opened Wrappers
  import opened Audio
  import opened ChunkReader
  import opened Contract
  import opened AssemblyAIClient
  import opened FirstChunk
  import DataContentStream

  /** The SDK calls: transcribe by URI, upload bytes (giving the uploaded file), transcribe an
      uploaded file, and transcribe a stream. */
  datatype AssemblyAIApi = AssemblyAIApi(
    transcribeUri: (string, TranscriptOptionalParams) -> Transcript,
    upload: seq<byte> -> nat,
    transcribeFile: (nat, TranscriptOptionalParams) -> Transcript,
    transcribeStream: (seq<byte>, TranscriptOptionalParams) -> Transcript)

  /** TranscribeAsync over chunks: the result of the first MoveNextAsync is not checked, so an
      empty sequence leaves Current null and reading ContainsData throws NullReferenceException.
      A reference is transcribed by URI; otherwise the bridged bytes are uploaded and the uploaded
      file is transcribed. Both use ToTranscriptOptionalParams(options). */
  method TranscribeAsync(api: AssemblyAIApi, audio: AudioSource, options: Option<TranscriptionOptions>)
    returns (r: Result<TranscriptionCompletion>)
    requires BridgeTerminates(audio)
    ensures audio.firstPass == [] ==> r == Failure(NullReferenceException)
    ensures audio.firstPass != [] && !audio.firstPass[0].ContainsData() ==>
              r == Success(ToTranscriptionCompletion(
                     api.transcribeUri(audio.firstPass[0].uri, ToTranscriptOptionalParams(options))))
    ensures audio.firstPass != [] && audio.firstPass[0].ContainsData() ==>
              r == Success(ToTranscriptionCompletion(
                     api.transcribeFile(api.upload(SeededBytes(audio)), ToTranscriptOptionalParams(options))))
  {
    if audio.firstPass == [] {
      return Failure(NullReferenceException);
    }
    var firstChunk := audio.firstPass[0];
    var transcript;
    if !firstChunk.ContainsData() {
      transcript := api.transcribeUri(firstChunk.uri, ToTranscriptOptionalParams(options));
    } else {
      var bytes := DataContentStream.ReadAll(audio.secondPass, Some(firstChunk));
      var fileUpload := api.upload(bytes);
      transcript := api.transcribeFile(fileUpload, ToTranscriptOptionalParams(options));
    }
    return Success(ToTranscriptionCompletion(transcript));
  }

  /** TranscribeAsync over a stream: no options are taken, so the default parameters are sent. */
  function TranscribeStream(api: AssemblyAIApi, stream: seq<byte>): (c: TranscriptionCompletion)
    ensures c == ToTranscriptionCompletion(api.transcribeStream(stream, DefaultParams()))
  {
    ToTranscriptionCompletion(api.transcribeStream(stream, TranscriptOptionalParams(None)))
  }
}
