# meai-abstractions transcription core, modelled in Dafny

This project models the transcription abstractions of `meai-abstractions`: an
`IAudioTranscriptionClient` abstraction over speech-to-text services, built on the
Microsoft.Extensions.AI content types. The model covers:

- **The byte bridges.** `DataContentAsyncEnumerableStream` and
  `AudioContentAsyncEnumerableStream` are read-only, forward-only streams over an async
  sequence of audio chunks. Each is a class with the source's fields, and its `ReadAsync`
  loop carries invariants: the bytes it returns are exactly the payloads of the chunks up to
  the first chunk without data.
  - The first of them can also re-inject a first chunk that its caller has already taken. The
    shared invariant and the step lemmas are in module `ChunkReader`.
- **The chunkers in the other direction**, which read a stream into 4096-byte chunks:
  `StreamExtensions.ToAsyncEnumerable`, `AsyncEnumerableAudioStream` and the private chunker
  of the client extensions. They are modelled over a `MemoryStream` class whose `ReadAsync`
  returns as much as is left.
- **The client extensions**: the single-content, stream and streaming overloads. This
  includes the mapping from a file name to an `audio/<ext>` media type, with
  `Path.GetExtension` written out.
- **The value types**:
  - `AudioTranscriptionUpdateKind`: case-insensitive equality and hashing, validation, and the
    JSON converter, with a proved write/read round trip.
  - `AudioTranscriptionCompletion` and `StreamingAudioTranscriptionUpdate`: classes with their
    lazily created `Contents` list and the `Text` accessor over the first text item.
- **The adapters**: the Semantic Kernel audio-to-text adapter, Azure Speech, AssemblyAI
  (batch and real-time), Whisper.net and OpenAI.
  - The services they call are function-typed parameters.
  - An adapter's event-driven streaming loop (a queue filled by SDK callbacks and drained by a
    polling loop) is modelled by `UpdateQueue.Drain`. It runs over an explicit trace of
    rounds: what arrived, whether the session ended, and whether cancellation was requested.

**Two enumerations of one source.** Several adapters take the first chunk from one
enumerator and then hand the same `IAsyncEnumerable` to a bridge, which opens a second
enumerator. What the service receives then depends on the source, so an adapter's input is an
`Audio.AudioSource(firstPass, secondPass)`. A *replayable* source yields the same chunks
again. A *one-shot* source continues where the first enumerator stopped.

**Version skew in the source.**
- The Semantic Kernel adapter calls `ToStream(first)`.
- The AssemblyAI batch path constructs an `AudioContentAsyncEnumerableStream` with a first
  chunk.

Neither overload exists in the files shown. Both are modelled as the seeded
`DataContentAsyncEnumerableStream`, which is the only bridge that takes a first chunk.

Several adapters still use the older `TranscriptionCompletion` / `StreamingTranscriptionUpdate`
shapes (`EventName`, `Transcription`, `Message`). These are the datatypes
`Contract.TranscriptionCompletion` and `Contract.TranscriptionUpdate`.

**Other modelling choices.**
- TimeSpan values are `int` ticks, with 1 ms = 10,000 ticks.
- Overflow of `TimeSpan` addition is an `OverflowException` result.
- `OrdinalIgnoreCase` comparison is ASCII upper-casing.
- The dictionaries with a case-insensitive comparer are association lists keyed by the folded
  key (`Dictionaries`).

## Model

| member | source | states |
|---|---|---|
| DataContentStream.DataContentAsyncEnumerableStream.constructor | MEAI.Abstractions/Extensions/DataContentAsyncEnumerableStream.cs:16-28 | a new bridge holds the given source and first chunk, has returned nothing, and satisfies the bridge invariant |
| DataContentStream.DataContentAsyncEnumerableStream.Position | MEAI.Abstractions/Extensions/DataContentAsyncEnumerableStream.cs:34-38 | Position never exceeds the bytes the bridge stands for, and equals their number once the stream is completed |
| DataContentStream.DataContentAsyncEnumerableStream.ReadAsync | MEAI.Abstractions/Extensions/DataContentAsyncEnumerableStream.cs:53-101 | a completed stream returns 0 and changes nothing; otherwise the bytes written to buffer[offset..] are the next bytes of first-chunk payload + payloads; a short read only happens once completed; no other buffer cell changes |
| DataContentStream.DataContentAsyncEnumerableStream.ReadLoop | MEAI.Abstractions/Extensions/DataContentAsyncEnumerableStream.cs:62-98 | the while loop fills up to count bytes with the next expected bytes and stops short only at completion, keeping the invariant |
| DataContentStream.DataContentAsyncEnumerableStream.ReadStep | MEAI.Abstractions/Extensions/DataContentAsyncEnumerableStream.cs:64-97 | one pass copies the next bytes, injects the first chunk while nothing has been returned, or moves the enumerator; every pass makes progress |
| DataContentStream.DataContentAsyncEnumerableStream.CopyStep | MEAI.Abstractions/Extensions/DataContentAsyncEnumerableStream.cs:64-71 | Math.Min(want, bytes left) bytes are copied, and they are the next expected bytes; cursor and Position advance by that amount |
| DataContentStream.DataContentAsyncEnumerableStream.MoveNext | MEAI.Abstractions/Extensions/DataContentAsyncEnumerableStream.cs:83-96 | the end of the sequence or a chunk without data completes the stream; otherwise the enumerator advances by exactly one chunk |
| DataContentStream.UnsupportedMembers | MEAI.Abstractions/Extensions/DataContentAsyncEnumerableStream.cs:30-121 | the stream can read but not seek or write; Length, the Position setter, Flush, Seek, SetLength and Read throw NotSupportedException; Write and AddFirstChunk throw NotImplementedException |
| DataContentStream.CopyToEnd | SK.Abstractions/AudioTranscriptionClientAudioToTextService.cs:39-41 | copying the stream to a MemoryStream collects exactly the remaining expected bytes and completes the stream |
| DataContentStream.ReadAll | SK.Abstractions/AudioTranscriptionClientAudioToTextService.cs:39-43 | a fresh seeded bridge read to its end gives the first chunk's payload followed by the payloads of its own enumeration |
| ChunkReader.InitialConsistent | MEAI.Abstractions/Extensions/DataContentAsyncEnumerableStream.cs:16-22 | the initial field values satisfy the bridge invariant |
| ChunkReader.CopyKeeps | MEAI.Abstractions/Extensions/DataContentAsyncEnumerableStream.cs:64-71 | the copy step keeps the invariant, and the bytes taken are the next expected bytes |
| ChunkReader.InjectKeeps | MEAI.Abstractions/Extensions/DataContentAsyncEnumerableStream.cs:74-81 | loading the first chunk while nothing has been returned keeps the invariant |
| ChunkReader.EmptyFirstChunkSpins | MEAI.Abstractions/Extensions/DataContentAsyncEnumerableStream.cs:75-80 | as written, injecting a zero-length first chunk leaves the loop due for the same injection from the same state, with nothing copied |
| ChunkReader.InjectOnlyBytes | MEAI.Abstractions/Extensions/DataContentAsyncEnumerableStream.cs:75-80 | injecting only a first chunk with bytes is always followed by a copy, so the branch cannot repeat |
| ChunkReader.EmptyFirstChunkAddsNothing | MEAI.Abstractions/Extensions/DataContentAsyncEnumerableStream.cs:75-80 | a zero-length first chunk adds nothing to what the bridge stands for, so skipping it loses no audio |
| ChunkReader.MoveNextKeeps | MEAI.Abstractions/Extensions/DataContentAsyncEnumerableStream.cs:83-96 | completing at the end or at a chunk without data, or loading the next payload, keeps the invariant |
| ChunkReader.AccountedMeans | MEAI.Abstractions/Extensions/DataContentAsyncEnumerableStream.cs:62-98 | the chunk-by-chunk accounting predicate is equivalent to held bytes + payloads of the remaining chunks == expected suffix |
| AudioContentStream.AudioContentAsyncEnumerableStream.constructor | MEAI.Abstractions/Utilities/AudioContentStream.cs:18-24 | a new bridge holds the source, has returned nothing, and satisfies the invariant |
| AudioContentStream.AudioContentAsyncEnumerableStream.Position | MEAI.Abstractions/Utilities/AudioContentStream.cs:30-34 | Position is bounded by the bytes the bridge stands for, and reaches their number at completion |
| AudioContentStream.AudioContentAsyncEnumerableStream.ReadAsync | MEAI.Abstractions/Utilities/AudioContentStream.cs:49-86 | the bytes written are the next bytes of the payloads up to the first chunk without data; a short read only at completion; a completed stream changes nothing |
| AudioContentStream.AudioContentAsyncEnumerableStream.ReadLoop | MEAI.Abstractions/Utilities/AudioContentStream.cs:56-83 | the loop fills up to count expected bytes and stops short only at completion |
| AudioContentStream.AudioContentAsyncEnumerableStream.ReadStep | MEAI.Abstractions/Utilities/AudioContentStream.cs:58-82 | one pass either copies the next bytes or moves the enumerator, keeping the invariant |
| AudioContentStream.AudioContentAsyncEnumerableStream.CopyStep | MEAI.Abstractions/Utilities/AudioContentStream.cs:58-65 | the copied bytes are the next expected ones, and cursor and Position advance by their number |
| AudioContentStream.AudioContentAsyncEnumerableStream.MoveNext | MEAI.Abstractions/Utilities/AudioContentStream.cs:68-81 | the end or a chunk without data completes the stream; otherwise exactly one more chunk is taken |
| AudioContentStream.UnsupportedMembers | MEAI.Abstractions/Utilities/AudioContentStream.cs:26-101 | the stream can read but not seek or write; Length, the Position setter, Flush, Seek, SetLength and Read throw NotSupportedException, and Write throws NotImplementedException |
| AudioContentStream.CopyToEnd | MEAI.Abstractions/Utilities/AudioContentStream.cs:49-86 | reading until a read returns 0 collects exactly the remaining expected bytes |
| AudioContentStream.ReadAll | Console.OpenAI/OpenAITranscriptionClient.cs:42-43 | a fresh bridge read to its end yields exactly the payloads of the chunks up to the first chunk without data |
| Audio.PayloadsOfDataChunks | MEAI.Abstractions/Utilities/AudioContentStream.cs:56-83 | when every chunk carries data, the stream is the concatenation of all the payloads |
| Audio.PayloadsAppend | MEAI.Abstractions/Utilities/AudioContentStream.cs:56-83 | reading a + b is reading a and then b, when every chunk of a carries data |
| Audio.PayloadsStopAtReference | MEAI.Abstractions/Utilities/AudioContentStream.cs:74-78 | nothing after a chunk without data is read |
| Audio.PayloadsSkipEmpty | MEAI.Abstractions/Utilities/AudioContentStream.cs:58-81 | a zero-length chunk contributes nothing and does not end the stream |
| Audio.DataOnlyOfDataChunks | Console.AssemblyAI/AssemblyAITranscriptionClient.Streaming.cs:96-102 | when every chunk carries data, skipping the chunks without data skips nothing |
| Audio.ArrayCopy | MEAI.Abstractions/Extensions/DataContentAsyncEnumerableStream.cs:67 | Array.Copy writes exactly the destination block, with the source bytes, and leaves every other cell unchanged |
| ByteStreams.ReadSize | MEAI.Abstractions/Extensions/StreamExtensions.cs:11 | a read returns min(count, bytes left), and 0 exactly when count is 0 or the stream is at or past its end |
| ByteStreams.MemoryStream.ReadAsync | MEAI.Abstractions/Extensions/StreamExtensions.cs:11 | the bytes at the cursor are copied into buffer[offset..], the cursor advances by their number, and nothing else in the buffer changes |
| ByteStreams.MemoryStream.Seek | MEAI.Abstractions/PublicUtilities/AsyncEnumerableAudioStream.cs:28-31 | a stream that cannot seek throws NotSupportedException; otherwise the cursor moves to the computed target, or is unchanged on IOException |
| ByteStreams.MemoryStream.SeekTarget | MEAI.Abstractions/PublicUtilities/AsyncEnumerableAudioStream.cs:30 | Seek(0, Begin) goes to 0; a seek relative to the cursor fails with IOException exactly when it would land before the start |
| StreamExtensions.BlockChunks | MEAI.Abstractions/Extensions/StreamExtensions.cs:10-14 | every yielded chunk is inline, carries the media type, and is the whole 4096-byte buffer |
| StreamExtensions.ExactChunks | MEAI.Abstractions/Extensions/StreamExtensions.cs:10-14 | corrected chunker: every chunk carries the media type and between 1 and 4096 bytes |
| StreamExtensions.ToAsyncEnumerable | MEAI.Abstractions/Extensions/StreamExtensions.cs:7-15 | the loop yields BlockChunks of the data from the cursor (the buffer after each read, stale tail included) and leaves the cursor at the end |
| StreamExtensions.ToAsyncEnumerableExact | MEAI.Abstractions/Extensions/StreamExtensions.cs:7-15 | the corrected loop yields ExactChunks (only the bytes read) and leaves the cursor at the end |
| StreamExtensions.ExactChunksCount | MEAI.Abstractions/Extensions/StreamExtensions.cs:11-14 | ceil(remaining / 4096) chunks are yielded |
| StreamExtensions.ExactChunksAreReads | MEAI.Abstractions/Extensions/StreamExtensions.cs:11-13 | chunk i is exactly the bytes of the i-th read at position + 4096·i |
| StreamExtensions.ExactChunksRoundTrip | MEAI.Abstractions/Extensions/StreamExtensions.cs:7-15 | reading the corrected chunks back as a stream gives back exactly the data from the cursor |
| StreamExtensions.BlockChunksOverlayExact | MEAI.Abstractions/Extensions/StreamExtensions.cs:10-14 | each yielded buffer is the bytes just read followed by the tail of the previous buffer |
| StreamExtensions.BlockChunksPadded | MEAI.Abstractions/Extensions/StreamExtensions.cs:10-14 | the yielded stream is always a whole number of 4096-byte blocks long |
| StreamExtensions.OneByteStreamIsPadded | MEAI.Abstractions/Extensions/StreamExtensions.cs:13 | a one-byte stream yields a 4096-byte chunk, not the one byte |
| StreamExtensions.FullBlocksLength | MEAI.Abstractions/Extensions/StreamExtensions.cs:13 | chunks that are all whole buffers read back as 4096 bytes per chunk |
| AsyncEnumerableAudio.AsyncEnumerableAudioStream.constructor | MEAI.Abstractions/PublicUtilities/AsyncEnumerableAudioStream.cs:15-20 | the enumerable holds the given stream and media type |
| AsyncEnumerableAudio.AsyncEnumerableAudioStream.ReadAudioStream | MEAI.Abstractions/PublicUtilities/AsyncEnumerableAudioStream.cs:25-39 | rewinds a seekable stream that has moved, then yields the 4096-byte buffer after each read; the cursor ends at the end of the data |
| AsyncEnumerableAudio.EnumerateTwice | MEAI.Abstractions/PublicUtilities/AsyncEnumerableAudioStream.cs:22-31 | enumerating twice gives the same chunks on a seekable stream, and nothing the second time on a non-seekable one |
| ClientExtensions.GetExtension | MEAI.Abstractions/AudioTranscriptionClientExtensions.cs:46 | Path.GetExtension is empty, or a '.' followed by a non-empty name without '.' or separators that ends the path |
| ClientExtensions.ExtensionScanShape | MEAI.Abstractions/AudioTranscriptionClientExtensions.cs:46 | the backward scan is empty or a dotted suffix of the path without separators |
| ClientExtensions.ExtensionOfName | MEAI.Abstractions/AudioTranscriptionClientExtensions.cs:46 | stem + "." + name has extension "." + name |
| ClientExtensions.ExtensionOfTrailingDot | MEAI.Abstractions/AudioTranscriptionClientExtensions.cs:46 | a path ending in '.' has an empty extension |
| ClientExtensions.ExtensionWithoutDot | MEAI.Abstractions/AudioTranscriptionClientExtensions.cs:46 | a last path segment without a '.' has an empty extension |
| ClientExtensions.TrimStartDots | MEAI.Abstractions/AudioTranscriptionClientExtensions.cs:46 | TrimStart('.') removes exactly the leading dots |
| ClientExtensions.ToMediaType | MEAI.Abstractions/AudioTranscriptionClientExtensions.cs:39-54 | a null or blank name has no media type; a media type is "audio/" followed by a text that does not start with '.' |
| ClientExtensions.ToMediaTypeMeans | MEAI.Abstractions/AudioTranscriptionClientExtensions.cs:39-54 | the media type is present exactly when the name is not blank and has a non-blank extension, and it is then "audio/" + the extension |
| ClientExtensions.ToMediaTypeOfName | MEAI.Abstractions/AudioTranscriptionClientExtensions.cs:39-54 | stem.name maps to audio/name |
| ClientExtensions.ToMediaTypeOfWav | MEAI.Abstractions/AudioTranscriptionClientExtensions.cs:53 | "microphone.wav" maps to "audio/wav" |
| ClientExtensions.ToMediaTypeWithoutExtension | MEAI.Abstractions/AudioTranscriptionClientExtensions.cs:48-51 | names without an extension, or with a trailing dot, have no media type |
| ClientExtensions.ToAsyncEnumerable | MEAI.Abstractions/AudioTranscriptionClientExtensions.cs:67-73 | the async enumerable yields the items of the list, in order |
| ClientExtensions.TranscribeContent | MEAI.Abstractions/AudioTranscriptionClientExtensions.cs:8-16 | one content is transcribed as the one-element sequence, with the same options |
| ClientExtensions.TranscribeStream | MEAI.Abstractions/AudioTranscriptionClientExtensions.cs:18-26 | the client receives the 4096-byte buffers of the stream, tagged with the media type of options' SourceFileName; the file's private chunker (lines 56-64) is the same loop as StreamExtensions.ToAsyncEnumerable, so the model reuses that method |
| ClientExtensions.TranscribeStreamingStream | MEAI.Abstractions/AudioTranscriptionClientExtensions.cs:29-37 | the streaming client receives the same chunks as the non-streaming overload, from the same shared chunker |
| ExtensionOverloads.TranscribeStream | MEAI.Abstractions/Extensions/AudioTranscriptionClientExtensions.cs:18-26 | the client receives StreamExtensions' 4096-byte buffers, without a media type |
| ExtensionOverloads.TranscribeStreamingStream | MEAI.Abstractions/Extensions/AudioTranscriptionClientExtensions.cs:29-37 | the streaming client receives StreamExtensions' chunks, without a media type |
| UpdateKinds.New | MEAI.Abstractions/AudioTranscriptionUpdateKind.cs:39-43 | construction succeeds exactly for a value that is not null or white space, and keeps it; null throws ArgumentNullException, blank throws ArgumentException |
| UpdateKinds.Eq | MEAI.Abstractions/AudioTranscriptionUpdateKind.cs:52-55 | == holds exactly when the values agree ignoring case |
| UpdateKinds.Equals | MEAI.Abstractions/AudioTranscriptionUpdateKind.cs:74-75 | Equals holds exactly when the upper-cased values agree |
| UpdateKinds.GetHashCode | MEAI.Abstractions/AudioTranscriptionUpdateKind.cs:78-79 | the hash depends only on the upper-cased value: every spelling with the same upper-cased form hashes alike |
| UpdateKinds.Neq | MEAI.Abstractions/AudioTranscriptionUpdateKind.cs:64-67 | != holds exactly when the values differ ignoring case |
| UpdateKinds.ToString | MEAI.Abstractions/AudioTranscriptionUpdateKind.cs:82 | constructing from ToString of a valid kind gives the kind back |
| UpdateKinds.EqualsIsEquivalence | MEAI.Abstractions/AudioTranscriptionUpdateKind.cs:74-75 | Equals is reflexive, symmetric and transitive |
| UpdateKinds.OperatorsAgree | MEAI.Abstractions/AudioTranscriptionUpdateKind.cs:52-67 | == agrees with Equals, and != is its negation |
| UpdateKinds.EqualKindsHashEqually | MEAI.Abstractions/AudioTranscriptionUpdateKind.cs:78-79 | equal kinds have equal hash codes, for any string hash applied to the case-folded value |
| UpdateKinds.CaseDoesNotMatter | MEAI.Abstractions/AudioTranscriptionUpdateKind.cs:74-75 | a kind equals its upper-cased form |
| UpdateKinds.CanonicalKinds | MEAI.Abstractions/AudioTranscriptionUpdateKind.cs:14-24 | the five well-known kinds are valid and pairwise different |
| UpdateKinds.Write | MEAI.Abstractions/AudioTranscriptionUpdateKind.cs:93-97 | a null writer throws ArgumentNullException; otherwise exactly the JSON string of the value is appended |
| UpdateKinds.Read | MEAI.Abstractions/AudioTranscriptionUpdateKind.cs:89-90 | a kind is read only from a JSON string token holding exactly its non-blank value; a null token throws ArgumentNullException and a malformed token passes the reader's exception on |
| UpdateKinds.WriteReadRoundTrip | MEAI.Abstractions/AudioTranscriptionUpdateKind.cs:89-97 | reading back what Write appended gives the same kind |
| UpdateKinds.ReadRejects | MEAI.Abstractions/AudioTranscriptionUpdateKind.cs:89-90 | reading a JSON null throws ArgumentNullException, and reading a blank string throws ArgumentException |
| JsonString.WriteReadRoundTrip | MEAI.Abstractions/AudioTranscriptionUpdateKind.cs:90-96 | GetString of a written JSON string value gives back the string |
| ContentLists.FindFirstText | MEAI.Abstractions/AudioTranscriptionCompletion.cs:50 | FindFirst<TextContent> gives the first text item, or none when there is no text item |
| ContentLists.FirstTextAt | MEAI.Abstractions/AudioTranscriptionCompletion.cs:50 | a text item that has no text item before it is the one found |
| ContentLists.WithTextMeans | MEAI.Abstractions/AudioTranscriptionCompletion.cs:51-61 | the setter replaces the first text item in place, appends a text item only for a non-null value, and otherwise leaves the list alone |
| ContentLists.TextAfterSet | MEAI.Abstractions/AudioTranscriptionCompletion.cs:48-61 | reading Text after setting it gives the value set, and the first text item keeps its position |
| ContentLists.ContentsOfString | MEAI.Abstractions/AudioTranscriptionCompletion.cs:29-32 | the string constructor's list is empty for null, one item otherwise, and its Text is the string |
| AudioCompletion.AudioTranscriptionCompletion.constructor | MEAI.Abstractions/AudioTranscriptionCompletion.cs:15-17 | all fields are null |
| AudioCompletion.AudioTranscriptionCompletion.FromContents | MEAI.Abstractions/AudioTranscriptionCompletion.cs:21-25 | the list is kept and the other fields are null |
| AudioCompletion.AudioTranscriptionCompletion.FromString | MEAI.Abstractions/AudioTranscriptionCompletion.cs:29-32 | the list is the string's content list, so Text reads the string back |
| AudioCompletion.AudioTranscriptionCompletion.Contents | MEAI.Abstractions/AudioTranscriptionCompletion.cs:66-68 | the getter returns the list, creating an empty one the first time it runs on a null list |
| AudioCompletion.AudioTranscriptionCompletion.SetContents | MEAI.Abstractions/AudioTranscriptionCompletion.cs:69 | the setter stores the value, null included |
| AudioCompletion.AudioTranscriptionCompletion.Text | MEAI.Abstractions/AudioTranscriptionCompletion.cs:50 | Text is the text of the first text item in Contents |
| AudioCompletion.AudioTranscriptionCompletion.SetText | MEAI.Abstractions/AudioTranscriptionCompletion.cs:51-61 | the list becomes WithText of the old list, and Text then reads back the value |
| AudioCompletion.New | MEAI.Abstractions/AudioTranscriptionCompletion.cs:21-25 | the list constructor throws ArgumentNullException exactly for a null list |
| StreamingUpdate.StreamingAudioTranscriptionUpdate.constructor | MEAI.Abstractions/StreamingAudioTranscriptionUpdate.cs:14-16 | the required Kind is set, and the other fields are null |
| StreamingUpdate.StreamingAudioTranscriptionUpdate.FromContents | MEAI.Abstractions/StreamingAudioTranscriptionUpdate.cs:20-24 | the list and the Kind are kept |
| StreamingUpdate.StreamingAudioTranscriptionUpdate.FromString | MEAI.Abstractions/StreamingAudioTranscriptionUpdate.cs:28-31 | the list is the string's content list, so Text reads the string back |
| StreamingUpdate.StreamingAudioTranscriptionUpdate.Contents | MEAI.Abstractions/StreamingAudioTranscriptionUpdate.cs:73-75 | the getter returns the list, creating an empty one on first use |
| StreamingUpdate.StreamingAudioTranscriptionUpdate.SetContents | MEAI.Abstractions/StreamingAudioTranscriptionUpdate.cs:76 | the setter stores the value |
| StreamingUpdate.StreamingAudioTranscriptionUpdate.Text | MEAI.Abstractions/StreamingAudioTranscriptionUpdate.cs:57 | Text is the text of the first text item |
| StreamingUpdate.StreamingAudioTranscriptionUpdate.SetText | MEAI.Abstractions/StreamingAudioTranscriptionUpdate.cs:58-68 | the list becomes WithText of the old list, and Text reads back the value |
| StreamingUpdate.New | MEAI.Abstractions/StreamingAudioTranscriptionUpdate.cs:20-24 | the list constructor throws ArgumentNullException exactly for a null list |
| Dictionaries.IndexOf | SK.Abstractions/AudioTranscriptionClientAudioToTextService.cs:115 | the lookup finds the first entry whose key agrees ignoring case, or reports that there is none |
| Dictionaries.IndexOfFolded | SK.Abstractions/AudioTranscriptionClientAudioToTextService.cs:115 | keys that agree ignoring case find the same entry |
| Dictionaries.SetMeans | SK.Abstractions/AudioTranscriptionClientAudioToTextService.cs:57 | the indexer setter maps the key (in any case) to the value, leaves the other keys alone, keeps keys distinct, and adds an entry only for a new key |
| Dictionaries.AssignedMeans | SK.Abstractions/AudioTranscriptionClientAudioToTextService.cs:131-140 | after assigning a list of entries, each key maps to the last assigned value for it (null values skipped when asked), or else to its old value |
| Dictionaries.AssignAll | SK.Abstractions/AudioTranscriptionClientAudioToTextService.cs:133-139 | the foreach loop of indexer assignments computes Assigned |
| Dictionaries.LastValueAt | SK.Abstractions/AudioTranscriptionClientAudioToTextService.cs:55-58 | an entry whose key is not assigned again later is the value that remains |
| Contract.AddTicks | Console.AzureAISpeech/AzureTranscriptionClient.cs:232-233 | TimeSpan addition succeeds exactly when the sum fits in a long, and otherwise throws OverflowException |
| Contract.FromMilliseconds | Console.AssemblyAI/AssemblyAITranscriptionClient.Streaming.cs:58-59 | an int millisecond count always fits in a TimeSpan, and a non-negative one gives a non-negative span |
| FirstChunk.SeededBytesOfOneShot | SK.Abstractions/AudioTranscriptionClientAudioToTextService.cs:39-43 | over a one-shot source, the seeded bridge sends exactly the audio |
| FirstChunk.SeededBytesOfReplay | SK.Abstractions/AudioTranscriptionClientAudioToTextService.cs:39-43 | over a replayable source, the seeded bridge sends the first chunk twice (p becomes p + p) |
| FirstChunk.FreshBytesOfReplay | Console.OpenAI/OpenAITranscriptionClient.cs:40-44 | over a replayable source, the fresh bridge sends exactly the audio |
| FirstChunk.FreshBytesOfOneShot | Console.OpenAI/OpenAITranscriptionClient.cs:40-44 | over a one-shot source, the fresh bridge drops the first chunk (p, q becomes q) |
| FirstChunk.ResumeBytes | MEAI.Abstractions/Extensions/DataContentAsyncEnumerableStream.cs:74-81 | corrected bridge: seeding with the first chunk and continuing the same enumeration sends exactly the audio, whatever the source |
| SemanticKernel.KeysDiffer | SK.Abstractions/AudioTranscriptionClientAudioToTextService.cs:121-126 | "audio_language" and "audio_sample_rate" are different keys even ignoring case |
| SemanticKernel.BaseDataMeans | SK.Abstractions/AudioTranscriptionClientAudioToTextService.cs:113-127 | the extension data holds the audio language and the sample rate under their keys exactly when the options set them |
| SemanticKernel.PromptSettingsMeans | SK.Abstractions/AudioTranscriptionClientAudioToTextService.cs:106-143 | no settings exactly for null options; otherwise the model id is kept and each key maps to its last non-null additional property, or else to the language or sample rate entry |
| SemanticKernel.ToPromptExecutionSettings | SK.Abstractions/AudioTranscriptionClientAudioToTextService.cs:106-143 | the imperative conversion computes PromptSettings |
| SemanticKernel.GetTextContent | SK.Abstractions/AudioTranscriptionClientAudioToTextService.cs:25-44 | an empty sequence throws ArgumentException; a reference goes to the service by URI, and data goes as the seeded bridge's bytes with the first chunk's media type |
| SemanticKernel.CopiedMetadataMeans | SK.Abstractions/AudioTranscriptionClientAudioToTextService.cs:53-59 | every metadata key maps to its last value, null included, and an entry not overridden later survives |
| SemanticKernel.TranscribeAsync | SK.Abstractions/AudioTranscriptionClientAudioToTextService.cs:23-62 | ArgumentException exactly for an empty sequence; otherwise a new completion whose Text is the reply's text, whose properties are the copied metadata, and whose raw value is the reply |
| SemanticKernel.TranscribeStreamingAsync | SK.Abstractions/AudioTranscriptionClientAudioToTextService.cs:64-104 | ArgumentException exactly for an empty sequence; otherwise exactly one Transcribed update carrying the reply's text, metadata and raw reply |
| AzureSpeech.RecognitionLanguage | Console.AzureAISpeech/AzureTranscriptionClient.cs:27 | the recognition language is the options' source language, or "en-US" |
| AzureSpeech.Pushed | Console.AzureAISpeech/AzureTranscriptionClient.cs:31-53 | the push succeeds exactly when there are chunks and all of them carry data, and then writes one block per chunk plus at most one closing write |
| AzureSpeech.PushedMeans | Console.AzureAISpeech/AzureTranscriptionClient.cs:31-53 | NotSupportedException exactly when some chunk is a reference; InvalidOperationException exactly for no chunks; otherwise the pushed bytes are the audio, each payload written in order, plus an empty write exactly when the last payload is non-empty |
| AzureSpeech.PushAudio | Console.AzureAISpeech/AzureTranscriptionClient.cs:31-61 | the push loop computes Pushed |
| AzureSpeech.ToCompletion | Console.AzureAISpeech/AzureTranscriptionClient.cs:68-79 | id, text, start 0, end = duration and raw result, with the recognition Reason as the only property |
| AzureSpeech.TranscribeAsync | Console.AzureAISpeech/AzureTranscriptionClient.cs:23-80 | push errors are thrown; otherwise one recognition over the pushed writes, in the chosen language, is mapped to the completion |
| AzureSpeech.CanceledTime | Console.AzureAISpeech/AzureTranscriptionClient.cs:172-174 | the canceled offset saturates at long.MaxValue and is kept when it fits |
| AzureSpeech.GetEndTime | Console.AzureAISpeech/AzureTranscriptionClient.cs:232-233 | the end time is the checked TimeSpan sum of offset and duration |
| AzureSpeech.HandleEvent | Console.AzureAISpeech/AzureTranscriptionClient.cs:129-206 | each event enqueues at most one update: Recognizing, Recognized and NoMatch carry the result's times and text (or the no-match text), other reasons enqueue nothing, Canceled uses the saturated offset for both times, and SessionStopped carries 0, the elapsed time and the session id; an end time that overflows throws |
| AzureSpeech.TranscribeStreamingAsync | Console.AzureAISpeech/AzureTranscriptionClient.cs:208-229 | the drain loop's Outcome over the rounds of callbacks: one update dequeued and yielded, oldest first, in every round that finds the queue non-empty; the loop leaves at the first check where the session has stopped (Canceled or SessionStopped) and the queue is empty, or right after the first iteration at whose end cancellation is seen; recognition is then stopped once |
| UpdateQueue.Served | Console.AzureAISpeech/AzureTranscriptionClient.cs:211-216 | the count of dequeued updates never exceeds the arrivals or the rounds |
| UpdateQueue.Drain | Console.AzureAISpeech/AzureTranscriptionClient.cs:211-227 | the polling loop meets Outcome: it has yielded exactly the first Served updates that arrived, in order (one per round with a non-empty queue); no earlier round stopped it; it exits Drained exactly at the first check where the session is over and the queue empty, Cancelled exactly right after the first iteration at whose end cancellation is seen, and otherwise only when the trace runs out |
| UpdateQueue.OutcomeDetermined | Console.AzureAISpeech/AzureTranscriptionClient.cs:211-227 | Outcome pins the loop down: two runs over the same rounds yield the same updates and stop at the same round for the same reason |
| UpdateQueue.StopsAtTheEnd | Console.AzureAISpeech/AzureTranscriptionClient.cs:211-226 | the loop stops after the last round, or at a round where the session was over with the queue empty, or where cancellation was seen |
| UpdateQueue.StopsNoLater | Console.AzureAISpeech/AzureTranscriptionClient.cs:211-226 | the loop does not run past a round where the session was over with the queue empty, or where cancellation was seen |
| UpdateQueue.DrainedYieldsAll | Console.AzureAISpeech/AzureTranscriptionClient.cs:211 | leaving because the loop condition failed means the session ended and every update that arrived was yielded |
| UpdateQueue.YieldsAtMostOnePerRound | Console.AzureAISpeech/AzureTranscriptionClient.cs:213-216 | at most one update is yielded per iteration |
| AssemblyAIClient.ToSourceLanguage | Console.AssemblyAI/AssemblyAITranscriptionClient.cs:36-48 | null maps to null; "PT" in any case maps to Pt; every other language maps to EnUs |
| AssemblyAIClient.PortugueseInAnyCase | Console.AssemblyAI/AssemblyAITranscriptionClient.cs:43-45 | a language maps to Pt exactly when it equals "pt" ignoring case |
| AssemblyAIClient.ToTranscriptOptionalParams | Console.AssemblyAI/AssemblyAITranscriptionClient.cs:23-34 | null options give the default parameters; otherwise the language code is the mapped source language |
| AssemblyAIClient.ToTranscriptionCompletion | Console.AssemblyAI/AssemblyAITranscriptionClient.cs:51-60 | the content is null exactly when the text is; id, language model and raw transcript are copied; times and properties stay null |
| AssemblyAIBatch.TranscribeAsync | Console.AssemblyAI/AssemblyAITranscriptionClient.NonStreaming.cs:10-39 | an empty sequence throws NullReferenceException; a reference is transcribed by URI; data is uploaded as the seeded bridge's bytes and the upload is transcribed |
| AssemblyAIBatch.TranscribeStream | Console.AssemblyAI/AssemblyAITranscriptionClient.NonStreaming.cs:41-46 | a stream is transcribed with the default parameters |
| AssemblyAIStreaming.HandleEvent | Console.AssemblyAI/AssemblyAITranscriptionClient.Streaming.cs:24-88 | each event enqueues at most one update, and nothing exactly for a partial transcript with empty text; transcripts carry their text and millisecond times as ticks |
| AssemblyAIStreaming.TranscribeStreamingAsync | Console.AssemblyAI/AssemblyAITranscriptionClient.Streaming.cs:107-125 | the drain loop's Outcome over the rounds of events: one update dequeued and yielded, oldest first, in every round that finds the queue non-empty; the loop leaves at the first check where the connection has closed and the queue is empty, or right after the first iteration at whose end cancellation is seen; the transcriber is then closed once |
| AssemblyAIStreaming.UploadAudio | Console.AssemblyAI/AssemblyAITranscriptionClient.Streaming.cs:94-103 | the upload task walks the chunks forward and sends the payload of every chunk with data, in order, and skips the others |
| Audio.DataOnlyAppend | Console.AssemblyAI/AssemblyAITranscriptionClient.Streaming.cs:96-101 | one more chunk adds its payload to what is sent when it carries data, and nothing otherwise |
| AssemblyAIStreaming.ToUInt | Console.AssemblyAI/AssemblyAITranscriptionClient.Streaming.cs:135 | the (uint) cast wraps modulo 2^32 and keeps values that fit |
| AssemblyAIStreaming.FlagOf | Console.AssemblyAI/AssemblyAITranscriptionClient.Streaming.cs:136 | a dictionary without the key throws KeyNotFoundException; otherwise the flag is set exactly when the value is the boolean true |
| AssemblyAIStreaming.ToRealtimeTranscriberOptions | Console.AssemblyAI/AssemblyAITranscriptionClient.Streaming.cs:128-145 | null options give 16000 Hz without the flag; otherwise the cast sample rate (16000 by default) and the flag; it fails exactly when the properties exist but lack the flag's key |
| AssemblyAIStreaming.MissingFlagThrows | Console.AssemblyAI/AssemblyAITranscriptionClient.Streaming.cs:136 | options with an empty property dictionary make the conversion throw KeyNotFoundException |
| AssemblyAIStreaming.ToRealtimeTranscriberOptionsCorrected | Console.AssemblyAI/AssemblyAITranscriptionClient.Streaming.cs:128-145 | corrected conversion: it never throws, a missing key means false, and it agrees with the original wherever that succeeds |
| Whisper.Handles | Console.WhisperNet/WhisperTranscriptionClient.cs:57-61 | the raw list holds the segments' objects, in order |
| Whisper.JoinTextsParts | Console.WhisperNet/WhisperTranscriptionClient.cs:58-62 | each segment's text appears in the transcription right after the texts of the segments before it |
| Whisper.FoldSegments | Console.WhisperNet/WhisperTranscriptionClient.cs:41-65 | over the segments before cancellation: the start is the first one's start, the end is the last one's end (both null without segments), the text is the concatenation, and the raw value is the segment list |
| Whisper.TranscribeAsync | Console.WhisperNet/WhisperTranscriptionClient.cs:37-66 | the processor reads the bridge's bytes, and the completion is the fold of its segments |
| Whisper.WhisperTranscriptionClient.constructor | Console.WhisperNet/WhisperTranscriptionClient.cs:19-22 | no processor exists yet |
| Whisper.WhisperTranscriptionClient.EnsureProcessor | Console.WhisperNet/WhisperTranscriptionClient.cs:75-80 | the processor is built only when there is none, and once built it is reused |
| Whisper.WhisperTranscriptionClient.TranscribeStreamingAsync | Console.WhisperNet/WhisperTranscriptionClient.cs:68-98 | one "Update" per segment before cancellation, in order, with its text, times and object; the processor is kept |
| OpenAIClient.ToCompletion | Console.OpenAI/OpenAITranscriptionClient.cs:46-53 | the id, text, times and raw result are copied |
| OpenAIClient.TranscribeAsync | Console.OpenAI/OpenAITranscriptionClient.cs:27-54 | NullReferenceException exactly for an empty sequence; a reference is transcribed by URI; data goes as the bytes of a fresh bridge over the source |
| OpenAIClient.CompletionUpdate | Console.OpenAI/OpenAITranscriptionClient.cs:60-67 | the update is "TranscriptionComplete" with the completion's transcription, times and raw result |
| OpenAIClient.TranscribeStreamingAsync | Console.OpenAI/OpenAITranscriptionClient.cs:56-68 | the non-streaming error, or, on both the by-URI and the by-data path, exactly the one "TranscriptionComplete" update of the result's completion, carrying its text, start and end times and raw result |

## Left out

- Cancellation tokens passed to SDK calls, `Task.Delay` polling and wall-clock delays. Cancellation appears only where the source tests `IsCancellationRequested`. There it is an input: the round, or the segment index, at which it is seen.
- Concurrency.
  - Adapters: the SDK callbacks, the upload tasks and the polling loop are not interleaved. Instead, each round of the trace says what the callbacks enqueued before that poll.
  - `Task.Run` exceptions in the AssemblyAI upload are never observed by the source, so `UploadAudio` is modelled apart from the drain.
  - The Azure streaming upload's errors are modelled by `Pushed` on the non-streaming path only.
- UpdateQueue.Drain: with a trace that ends before the session does, the model stops (`TraceEnded`). The source would keep polling for ever.
- TranscribeStreamingAsync (Azure Speech and AssemblyAI): the same bound applies; with `TraceEnded` the model makes no stop or close call, since the source has not reached that line yet.
- The SDKs themselves: Azure Speech, AssemblyAI, Whisper.net, OpenAI and Semantic Kernel services are function parameters. Their results are opaque handles with the fields the adapters read. Stopwatch elapsed time is a field of the SessionStopped event.
- `new Uri(...)` validation of reference URIs: a reference's URI is passed on as a string.
- `Current is null` in the Semantic Kernel adapter: sequences hold non-null chunks, so only the empty-sequence case of that guard is modelled.
- DataContentStream.ReadAsync: a zero-length first chunk makes the source's loop spin for ever (see "## Findings"). The model requires `CanProgress`, and the adapters that build a seeded bridge require `FirstChunk.BridgeTerminates`.
- DataContentStream.ReadAsync and AudioContentStream.ReadAsync: an offset or count outside the buffer makes Array.Copy throw ArgumentException in the source. The model requires the range to fit instead; every caller in the model passes a whole buffer that fits.
- Buffer aliasing in the 4096-byte chunkers: every yielded chunk shares one buffer in the source. The model records the buffer's contents at each yield. A consumer that keeps chunks after the next read sees less than the model shows.
- Lazy streaming: each whole-stream read is eager (`ReadAll`/`CopyToEnd`). How reads interleave with service calls is not modelled.
- Dispose of bridges, enumerators, recognizers and processors.
- `default(AudioTranscriptionUpdateKind)`, whose Value is null: only constructed kinds are modelled.
- `TextContent` objects are values. Setting Text on the first text item replaces that item in the list and does not mutate a shared object.
- Case-insensitive comparison and hashing use ASCII upper-casing. `char.IsWhiteSpace` is the fixed .NET list.
- The JSON writer's choice of which characters it escapes is a fixed escaping (quote, backslash and controls). Only the round trip through `GetString` is claimed.
- `Path.GetExtension` treats both '/' and '\\' as directory separators, and ignores volume separators (':').
- ByteStreams.MemoryStream: a read returns as many bytes as are left, up to count. Streams that return fewer bytes are not modelled.
- The Semantic Kernel `AudioToTextServiceAudioTranscriptionClient` and the extension registration files are not part of this model.
- The `TranscribeAsync(AudioContent)` overload of `MEAI.Abstractions/Extensions/AudioTranscriptionClientExtensions.cs` (lines 8-16), and its `ToAsyncEnumerable<T>` (lines 40-46), are identical to the root extensions. Both are covered by `ClientExtensions.TranscribeContent` and `ClientExtensions.ToAsyncEnumerable`.
- AzureSpeech.HandleEvent: an exception thrown inside an SDK callback (a TimeSpan overflow) is a Failure result. What the SDK then does with it is not modelled.

## Findings

| source | as written | input that shows it | evidently intended | confidence | as-written member | corrected member |
|---|---|---|---|---|---|---|
| MEAI.Abstractions/Extensions/StreamExtensions.cs:10-14 | each chunk is the whole 4096-byte buffer, whatever the read returned; the same happens in AudioTranscriptionClientExtensions.cs:58-62 and AsyncEnumerableAudioStream.cs:33-38 | a one-byte stream [7] yields one 4096-byte chunk | each chunk holds only the bytes read (`buffer[..bytesRead]`), so the chunks read back as the stream | not executed | StreamExtensions.OneByteStreamIsPadded | StreamExtensions.ExactChunksRoundTrip |
| SK.Abstractions/AudioTranscriptionClientAudioToTextService.cs:39-43 | the first chunk is re-injected into a bridge that opens a second enumerator on the same sequence; the same happens in AssemblyAITranscriptionClient.NonStreaming.cs:29 | a replayable sequence with one chunk p reaches the service as p + p | the service receives the audio once: the first chunk, then the rest of the same enumeration | not executed | FirstChunk.SeededBytesOfReplay | FirstChunk.ResumeBytes |
| Console.OpenAI/OpenAITranscriptionClient.cs:40-44 | after the first chunk is taken, a fresh bridge opens a second enumerator on the sequence | a one-shot sequence p, q reaches the service as q alone | the first chunk is kept: the bridge reads it and then the rest of the same enumeration | not executed | FirstChunk.FreshBytesOfOneShot | FirstChunk.ResumeBytes |
| MEAI.Abstractions/Extensions/DataContentAsyncEnumerableStream.cs:75-80 | a first chunk with data is injected whenever nothing has been returned and the current chunk is used up, even when its payload is empty | a seeded bridge whose first chunk has zero bytes: ReadAsync with count > 0 injects it, copies nothing, and takes the injection branch again from the same state, for ever | inject the first chunk only when it has bytes; an empty first chunk adds nothing, so passing over it loses no audio | not executed | ChunkReader.EmptyFirstChunkSpins | ChunkReader.InjectOnlyBytes |
| Console.AssemblyAI/AssemblyAITranscriptionClient.Streaming.cs:136 | `AdditionalProperties?[key]` uses the throwing indexer | options whose AdditionalProperties is an empty dictionary throw KeyNotFoundException | a missing DisablePartialTranscripts key means false, like a missing dictionary | not executed | AssemblyAIStreaming.MissingFlagThrows | AssemblyAIStreaming.ToRealtimeTranscriberOptionsCorrected |

The adapters and extension overloads are modelled as written, so they call the chunkers and
bridges as the source does. The corrected members hold the intended behaviour, and the
properties above are proved about them.
