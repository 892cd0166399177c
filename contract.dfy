/** The provider-neutral transcription contract's value types: options, content items, the
    completion and update records of the older contract generation (CompletionId/Content and
    EventName/Transcription), and TimeSpan as a count of ticks. */
module Contract {
  import opened Wrappers
  import opened Dictionaries

  /** A TimeSpan as its number of 100-nanosecond ticks, a signed 64-bit count. */
  type Ticks = int

  const TicksPerMillisecond: int := 10000
  const LongMaxValue: int := 0x7FFF_FFFF_FFFF_FFFF
  const LongMinValue: int := -0x8000_0000_0000_0000

  /** The 64-bit range TimeSpan ticks live in. */
  predicate IsLong(x: int)
  {
    LongMinValue <= x <= LongMaxValue
  }

  /** TimeSpan + TimeSpan: the sum of the ticks, or OverflowException outside the 64-bit range. */
  function AddTicks(a: Ticks, b: Ticks): (r: Result<Ticks>)
    ensures r.Success? <==> IsLong(a + b)
    ensures r.Success? ==> r.value == a + b
    ensures r.Failure? ==> r.error == OverflowException
  {
    if IsLong(a + b) then Success(a + b) else Failure(OverflowException)
  }

  /** A signed 32-bit number. */
  predicate IsInt32(x: int)
  {
    -0x8000_0000 <= x < 0x8000_0000
  }

  /** TimeSpan.FromMilliseconds for a whole number of milliseconds. */
  function FromMilliseconds(ms: int): (t: Ticks)
    ensures IsInt32(ms) ==> IsLong(t)
    ensures ms >= 0 ==> t >= 0
  {
    ms * TicksPerMillisecond
  }

  /** The SDK object an update or completion keeps as its RawRepresentation. */
  datatype Raw = NoRaw | RawObject(handle: nat) | RawList(items: seq<nat>)

  /** AudioTranscriptionOptions / TranscriptionOptions: the members of both generations. The
      AudioLanguage and AudioSampleRate members are read by the Semantic Kernel adapter only. */
  datatype TranscriptionOptions = TranscriptionOptions(
    modelId: Option<string>,
    sourceLanguage: Option<string>,
    sourceSampleRate: Option<int>,
    sourceFileName: Option<string>,
    audioLanguage: Option<string>,
    audioSampleRate: Option<int>,
    additionalProperties: Option<Dict>)

  /** The source file name of possibly absent options (options?.SourceFileName). */
  function SourceFileNameOf(options: Option<TranscriptionOptions>): Option<string>
  {
    if options.Some? then options.value.sourceFileName else None
  }

  /** An item of a Contents list: a TextContent (whose Text may be set to null), or any other
      content, which Text ignores. */
  datatype AIContent = TextContent(text: Option<string>) | OtherContent(handle: nat)

  /** TranscribedContent / AudioTranscribedContent; the constructor does not check for null. */
  datatype TranscribedContent = TranscribedContent(transcription: Option<string>)

  /** TranscriptionCompletion, the older completion record. */
  datatype TranscriptionCompletion = TranscriptionCompletion(
    completionId: Option<string>,
    modelId: Option<string>,
    content: Option<TranscribedContent>,
    startTime: Option<Ticks>,
    endTime: Option<Ticks>,
    rawRepresentation: Raw,
    additionalProperties: Option<Dict>)

  /** new TranscriptionCompletion(): every member unset. */
  function EmptyCompletion(): TranscriptionCompletion
  {
    TranscriptionCompletion(None, None, None, None, None, NoRaw, None)
  }

  /** StreamingTranscriptionUpdate, the older update record, keyed by its required EventName. */
  datatype TranscriptionUpdate = TranscriptionUpdate(
    eventName: string,
    transcription: Option<string>,
    message: Option<string>,
    startTime: Option<Ticks>,
    endTime: Option<Ticks>,
    rawRepresentation: Raw,
    additionalProperties: Option<Dict>,
    modelId: Option<string>)

  /** An update with only its event name, raw representation and transcription set. */
  function Update(eventName: string, raw: Raw, transcription: Option<string>): TranscriptionUpdate
  {
    TranscriptionUpdate(eventName, transcription, None, None, None, raw, None, None)
  }
}
