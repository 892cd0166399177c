/** AsyncEnumerableAudioStream: an enumerable of audio chunks read from a stream, 4096 bytes at a
    time, with the constructor's media type. Each enumeration rewinds a seekable stream first, so
    the same stream can be enumerated again. */
module AsyncEnumerableAudio {
  import opened Wrappers
  import opened Audio
  import opened ByteStreams
  import opened StreamExtensions

  class AsyncEnumerableAudioStream {
    const audioStream: MemoryStream
    const mediaType: Option<string>

    constructor (audioStream: MemoryStream, mediaType: Option<string>)
      ensures this.audioStream == audioStream && this.mediaType == mediaType
    {
      this.audioStream := audioStream;
      this.mediaType := mediaType;
    }

    /** Where an enumeration starts reading: at 0 on a seekable stream (rewound when it has
        moved), where the cursor is on a stream that cannot seek. */
    function StartOf(position: nat): (start: nat)
    {
      if audioStream.CanSeek then 0 else position
    }

    /** ReadAudioStream (what GetAsyncEnumerator enumerates): rewind a seekable stream whose
        Position is past 0, then yield one whole-buffer chunk per read that returns bytes. */
    method ReadAudioStream() returns (chunks: seq<AudioContent>)
      modifies audioStream
      ensures chunks == BlockChunks(audioStream.data, StartOf(old(audioStream.position)), mediaType, Zeros())
      ensures !audioStream.CanSeek && old(audioStream.position) >= |audioStream.data| ==>
                audioStream.position == old(audioStream.position)
      ensures StartOf(old(audioStream.position)) < |audioStream.data| ==> audioStream.position == |audioStream.data|
    {
      if audioStream.CanSeek && audioStream.position > 0 {
        var r := audioStream.Seek(0, Begin);
      }
      chunks := ToAsyncEnumerable(audioStream, mediaType);
    }
  }

  /** Enumerating twice: a seekable stream yields the same chunks both times; a stream that
      cannot seek yields nothing the second time. */
  method EnumerateTwice(s: AsyncEnumerableAudioStream) returns (first: seq<AudioContent>, second: seq<AudioContent>)
    modifies s.audioStream
    ensures s.audioStream.CanSeek ==> first == second
    ensures !s.audioStream.CanSeek ==> second == []
    ensures first == BlockChunks(s.audioStream.data, s.StartOf(old(s.audioStream.position)), s.mediaType, Zeros())
  {
    first := s.ReadAudioStream();
    second := s.ReadAudioStream();
  }
}
