/** AzureTranscriptionClient: transcription with the Azure Speech SDK. The audio is pushed chunk
    by chunk into a push stream; the SDK's recognizer and its events are given as a function and
    as a trace of events. */
module AzureSpeech {
  import opened Wrappers
  import opened Audio
  import opened Dictionaries
  import opened Contract
  import opened UpdateQueue

  const DefaultLanguage: string := "en-US"
  const ReasonKey: string := "Reason"
  const SessionIdKey: string := "SessionId"
  const NoMatchText: string := "Speech could not be recognized."
  const SessionStoppedText: string := "Session stopped event."

  /** An unsigned 64-bit number (the Canceled event's Offset). */
  type ulong = x: int | 0 <= x < 0x1_0000_0000_0000_0000

  /** ResultReason, by the members the client tells apart. */
  datatype ResultReason = RecognizedSpeech | NoMatch | OtherReason(name: string)

  function ReasonName(r: ResultReason): string
  {
    match r
    case RecognizedSpeech => "RecognizedSpeech"
    case NoMatch => "NoMatch"
    case OtherReason(name) => name
  }

  /** SpeechRecognitionResult: id, text, offset and duration (in ticks), reason, and the object. */
  datatype RecognitionResult = RecognitionResult(
    resultId: string, text: string, offsetInTicks: Ticks, duration: Ticks, reason: ResultReason, handle: nat)

  /** speechConfig.SpeechRecognitionLanguage = options?.SourceLanguage ?? "en-US". */
  function RecognitionLanguage(options: Option<TranscriptionOptions>): (language: string)
    ensures options.Some? && options.value.sourceLanguage.Some? ==> language == options.value.sourceLanguage.value
    ensures options.None? || options.value.sourceLanguage.None? ==> language == DefaultLanguage
  {
    if options.Some? && options.value.sourceLanguage.Some? then options.value.sourceLanguage.value else DefaultLanguage
  }

  /** The writes the push loop makes: NotSupportedException at a chunk without data, otherwise
      every payload in order and, when the last one is not empty, the empty write that signals the
      end of the audio; InvalidOperationException when no chunk carried data. */
  function Pushed(chunks: seq<AudioContent>): (r: Result<seq<seq<byte>>>)
    ensures r.Success? <==> AllData(chunks) && chunks != []
    ensures r.Success? ==> |chunks| <= |r.value| <= |chunks| + 1
  {
    if !AllData(chunks) then Failure(NotSupportedException)
    else if chunks == [] then Failure(InvalidOperationException)
    else Success(PayloadList(chunks) + (if |chunks[|chunks| - 1].payload| > 0 then [[]] else []))
  }

  /** Which input gives which exception, and what the push stream receives otherwise. */
  lemma PushedMeans(chunks: seq<AudioContent>)
    ensures Pushed(chunks) == Failure(NotSupportedException) <==> exists i :: 0 <= i < |chunks| && !chunks[i].ContainsData()
    ensures Pushed(chunks) == Failure(InvalidOperationException) <==> chunks == []
    ensures Pushed(chunks).Success? ==>
              var w := Pushed(chunks).value;
              && Concat(w) == Payloads(chunks)
              && w[..|chunks|] == PayloadList(chunks)
              && (|w| == |chunks| + 1 <==> |chunks[|chunks| - 1].payload| > 0)
              && (|w| == |chunks| + 1 ==> w[|chunks|] == [])
  {
    if Pushed(chunks).Success? {
      var w := Pushed(chunks).value;
      PayloadsOfDataChunks(chunks);
      ConcatAppendEmpty(PayloadList(chunks), w);
      assert w[..|chunks|] == PayloadList(chunks);
    }
  }

  /** Appending empty blocks does not change the concatenation. */
  lemma {:induction false} ConcatAppendEmpty(a: seq<seq<byte>>, w: seq<seq<byte>>)
    requires w == a || w == a + [[]]
    ensures Concat(w) == Concat(a)
    decreases |a|
  {
    if a == [] {
      if w != a {
        assert w == [[]] && w[1..] == [];
      }
    } else {
      if w == a + [[]] {
        assert w[0] == a[0] && w[1..] == a[1..] + [[]];
        ConcatAppendEmpty(a[1..], w[1..]);
      }
    }
  }

  /** The await foreach over the chunks in TranscribeAsync, and the same loop in the upload task
      of TranscribeStreamingAsync: lastContentSize and whether any data was seen change per chunk. */
  method PushAudio(chunks: seq<AudioContent>) returns (r: Result<seq<seq<byte>>>)
    ensures r == Pushed(chunks)
  {
    var writes: seq<seq<byte>> := [];
    var lastContentSize := 0;
    var dataProcessed := false;
    for i := 0 to |chunks|
      invariant AllData(chunks[..i])
      invariant writes == PayloadList(chunks[..i])
      invariant dataProcessed <==> i > 0
      invariant i > 0 ==> lastContentSize == |chunks[i - 1].payload|
    {
      if !chunks[i].ContainsData() {
        assert !AllData(chunks);
        return Failure(NotSupportedException);
      }
      assert chunks[..i + 1] == chunks[..i] + [chunks[i]];
      PayloadListAppend(chunks[..i], chunks[i]);
      dataProcessed := true;
      lastContentSize := |chunks[i].payload|;
      writes := writes + [chunks[i].payload];
    }
    assert chunks[..|chunks|] == chunks;
    if !dataProcessed {
      return Failure(InvalidOperationException);
    }
    assert writes == PayloadList(chunks) && lastContentSize == |chunks[|chunks| - 1].payload|;
    if lastContentSize > 0 {
      writes := writes + [[]];
    } else {
      assert writes == PayloadList(chunks) + [];
    }
    return Success(writes);
  }

  /** The payload list of a + [c] is that of a followed by c's payload. */
  lemma PayloadListAppend(a: seq<AudioContent>, c: AudioContent)
    requires AllData(a) && c.ContainsData()
    ensures AllData(a + [c]) && PayloadList(a + [c]) == PayloadList(a) + [c.payload]
  {
    assert AllData(a + [c]);
  }

  /** The completion built from the recognizer's single result. */
  function ToCompletion(result: RecognitionResult): (c: TranscriptionCompletion)
    ensures c.completionId == Some(result.resultId) && c.modelId == None
    ensures c.content == Some(TranscribedContent(Some(result.text)))
    ensures c.startTime == Some(0) && c.endTime == Some(result.duration)
    ensures c.rawRepresentation == RawObject(result.handle)
    ensures c.additionalProperties.Some? && |c.additionalProperties.value| == 1
    ensures Get(c.additionalProperties.value, ReasonKey) == Some(Enum(ReasonName(result.reason)))
  {
    TranscriptionCompletion(
      Some(result.resultId), None, Some(TranscribedContent(Some(result.text))), Some(0), Some(result.duration),
      RawObject(result.handle), Some([Entry(ReasonKey, Enum(ReasonName(result.reason)))]))
  }

  /** TranscribeAsync: push the audio, then RecognizeOnceAsync with the recognition language over
      what was pushed; the push loop's exceptions come first. */
  method TranscribeAsync(recognizeOnce: (string, seq<seq<byte>>) -> RecognitionResult,
                         chunks: seq<AudioContent>, options: Option<TranscriptionOptions>)
    returns (r: Result<TranscriptionCompletion>)
    ensures Pushed(chunks).Failure? ==> r == Failure(Pushed(chunks).error)
    ensures Pushed(chunks).Success? ==>
              r == Success(ToCompletion(recognizeOnce(RecognitionLanguage(options), Pushed(chunks).value)))
  {
    var language := RecognitionLanguage(options);
    var pushed := PushAudio(chunks);
    if pushed.Failure? {
      return Failure(pushed.error);
    }
    var result := recognizeOnce(language, pushed.value);
    return Success(ToCompletion(result));
  }

  /** GetEndTime: offset + duration, which throws OverflowException outside the TimeSpan range. */
  function GetEndTime(offset: Ticks, duration: Ticks): (r: Result<Ticks>)
    ensures r == AddTicks(offset, duration)
  {
    AddTicks(offset, duration)
  }

  /** The Canceled event's time: TimeSpan.MaxValue for an offset above long.MaxValue, otherwise
      the offset in ticks. */
  function CanceledTime(offset: ulong): (t: Ticks)
    ensures IsLong(t) && t <= offset
    ensures offset <= LongMaxValue ==> t == offset
    ensures offset > LongMaxValue ==> t == LongMaxValue
  {
    if offset > LongMaxValue then LongMaxValue else offset
  }

  /** The recognizer's events. */
  datatype SpeechEvent =
    | Recognizing(result: RecognitionResult, handle: nat)
    | Recognized(result: RecognitionResult, handle: nat)
    | CanceledEvent(offset: ulong, reason: string, errorCode: string, errorDetails: string, handle: nat)
    | SessionStopped(sessionId: string, elapsed: Ticks, handle: nat)
  {
    /** Canceled and SessionStopped complete stopRecognition. */
    predicate EndsSession()
    {
      CanceledEvent? || SessionStopped?
    }
  }

  /** An update timed by a recognition result: from its offset to GetEndTime(offset, duration). */
  function TimedUpdate(name: string, result: RecognitionResult, handle: nat, text: string): Result<TranscriptionUpdate>
  {
    match GetEndTime(result.offsetInTicks, result.duration)
    case Failure(e) => Failure(e)
    case Success(end) =>
      Success(TranscriptionUpdate(name, Some(text), None, Some(result.offsetInTicks), Some(end), RawObject(handle), None, None))
  }

  /** What an event's handler enqueues (or throws): Recognizing and recognized speech give an
      update with the text; NoMatch one with a fixed text; any other recognition reason nothing;
      Canceled an update at its (saturated) offset; SessionStopped one from zero to the elapsed
      time, with the session id. */
  function HandleEvent(e: SpeechEvent): (r: Result<seq<TranscriptionUpdate>>)
    ensures r.Success? ==> |r.value| <= 1
    ensures r.Failure? <==> (e.Recognizing? || (e.Recognized? && !e.result.reason.OtherReason?))
                            && !IsLong(e.result.offsetInTicks + e.result.duration)
    ensures r.Failure? ==> r.error == OverflowException
    ensures e.Recognized? && e.result.reason.OtherReason? ==> r == Success([])
    ensures r.Success? && (e.Recognizing? || (e.Recognized? && !e.result.reason.OtherReason?)) ==>
              |r.value| == 1 && r.value[0].startTime == Some(e.result.offsetInTicks)
              && r.value[0].endTime == Some(e.result.offsetInTicks + e.result.duration)
    ensures e.Recognizing? && r.Success? ==> r.value[0].transcription == Some(e.result.text)
    ensures e.Recognized? && e.result.reason.RecognizedSpeech? && r.Success? ==>
              r.value[0].eventName == "Recognized" && r.value[0].transcription == Some(e.result.text)
    ensures e.Recognized? && e.result.reason.NoMatch? && r.Success? ==>
              r.value[0].eventName == "NoMatch" && r.value[0].transcription == Some(NoMatchText)
    ensures e.CanceledEvent? ==>
              && r.Success? && |r.value| == 1
              && r.value[0].startTime == r.value[0].endTime == Some(CanceledTime(e.offset))
    ensures e.SessionStopped? ==>
              && r.Success? && |r.value| == 1
              && r.value[0].startTime == Some(0) && r.value[0].endTime == Some(e.elapsed)
              && r.value[0].additionalProperties == Some([Entry(SessionIdKey, Str(e.sessionId))])
  {
    match e
    case Recognizing(result, h) =>
      (match TimedUpdate("Recognizing", result, h, result.text)
       case Failure(x) => Failure(x)
       case Success(u) => Success([u]))
    case Recognized(result, h) =>
      if result.reason == RecognizedSpeech then
        match TimedUpdate("Recognized", result, h, result.text)
        case Failure(x) => Failure(x)
        case Success(u) => Success([u])
      else if result.reason == NoMatch then
        match TimedUpdate("NoMatch", result, h, NoMatchText)
        case Failure(x) => Failure(x)
        case Success(u) => Success([u])
      else Success([])
    case CanceledEvent(offset, reason, code, details, h) =>
      var t := CanceledTime(offset);
      Success([TranscriptionUpdate("Canceled",
        Some("Reason=" + reason + ", ErrorCode=" + code + ", ErrorDetails=" + details),
        None, Some(t), Some(t), RawObject(h), None, None)])
    case SessionStopped(id, elapsed, h) =>
      Success([TranscriptionUpdate("SessionStopped", Some(SessionStoppedText), None, Some(0), Some(elapsed),
        RawObject(h), Some([Entry(SessionIdKey, Str(id))]), None)])
  }

  /** What a run of events enqueues: each handler's updates in order; a handler that throws
      (on the SDK's thread) enqueues nothing. */
  function Enqueued(events: seq<SpeechEvent>): seq<TranscriptionUpdate>
    decreases |events|
  {
    if events == [] then []
    else
      var last := HandleEvent(events[|events| - 1]);
      Enqueued(events[..|events| - 1]) + (if last.Success? then last.value else [])
  }

  /** Some event of the run completes stopRecognition. */
  predicate AnyEnds(events: seq<SpeechEvent>)
  {
    exists i :: 0 <= i < |events| && events[i].EndsSession()
  }

  /** A round of the trace: the events that fire before a check of the loop condition, and whether
      cancellation is seen after the iteration. */
  datatype EventRound = EventRound(events: seq<SpeechEvent>, cancelled: bool)

  function ToRound(r: EventRound): Round<TranscriptionUpdate>
  {
    Round(Enqueued(r.events), AnyEnds(r.events), r.cancelled)
  }

  /** The trace as the rounds the drain loop sees. */
  function Rounds(trace: seq<EventRound>): (rounds: seq<Round<TranscriptionUpdate>>)
    ensures |rounds| == |trace|
    ensures forall i :: 0 <= i < |trace| ==> rounds[i] == ToRound(trace[i])
  {
    seq(|trace|, i requires 0 <= i < |trace| => ToRound(trace[i]))
  }

  /** TranscribeStreamingAsync's drain loop over the events, followed by one
      StopContinuousRecognitionAsync when the loop exits. */
  method TranscribeStreamingAsync(trace: seq<EventRound>)
    returns (updates: seq<TranscriptionUpdate>, exit: Exit, steps: nat, stopCalls: nat)
    ensures Outcome(Rounds(trace), updates, exit, steps)
    ensures exit != TraceEnded ==> stopCalls == 1
  {
    updates, exit, steps := Drain(Rounds(trace));
    stopCalls := if exit != TraceEnded then 1 else 0;
  }
}
