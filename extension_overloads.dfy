/** AudioTranscriptionClientExtensions in the Extensions folder: the same single-content overload
    and enumerable adapter as the root file (ClientExtensions.TranscribeContent and
    ClientExtensions.ToAsyncEnumerable), and stream overloads that chunk through
    StreamExtensions without a media type. */
module ExtensionOverloads {
  import opened Wrappers
  import opened Audio
  import opened ByteStreams
  import opened StreamExtensions
  import opened Contract

  /** TranscribeAsync(client, audioStream, options): the client gets the stream's 4096-byte
      chunks with no media type, and the options as given. */
  method TranscribeStream<R>(client: (seq<AudioContent>, Option<TranscriptionOptions>) -> R,
                             audioStream: MemoryStream, options: Option<TranscriptionOptions>) returns (r: R)
    modifies audioStream
    ensures r == client(BlockChunks(audioStream.data, old(audioStream.position), None, Zeros()), options)
    ensures forall c :: c in BlockChunks(audioStream.data, old(audioStream.position), None, Zeros()) ==> c.mediaType == None
  {
    var chunks := ToAsyncEnumerable(audioStream, None);
    r := client(chunks, options);
  }

  /** TranscribeStreamingAsync(client, audioStream, options): as TranscribeStream, for the
      streaming call. */
  method TranscribeStreamingStream<U>(client: (seq<AudioContent>, Option<TranscriptionOptions>) -> seq<U>,
                                      audioStream: MemoryStream, options: Option<TranscriptionOptions>) returns (r: seq<U>)
    modifies audioStream
    ensures r == client(BlockChunks(audioStream.data, old(audioStream.position), None, Zeros()), options)
  {
    var chunks := ToAsyncEnumerable(audioStream, None);
    r := client(chunks, options);
  }
}
