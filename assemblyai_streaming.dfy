/** The AssemblyAI client's streaming operation: the real-time transcriber's events become
    updates in a Queue that a loop drains while the connection is open; the audio is sent from a
    separate task. */
module AssemblyAIStreaming {
  import opened Wrappers
  import opened Text
  import opened Audio
  import opened Dictionaries
  import opened Contract
  import opened UpdateQueue

  const DefaultSampleRate: nat := 16000
  const DisablePartialTranscriptsKey: string := "DisablePartialTranscripts"

  /** The real-time transcriber's events, with the fields the handlers read. */
  datatype RealtimeEvent =
    | SessionBegins(sessionId: string, expiresAt: string, handle: nat)
    | Closed(code: int, reason: string, handle: nat)
    | PartialTranscript(text: Option<string>, audioStart: int, audioEnd: int, handle: nat)
    | FinalTranscript(text: Option<string>, audioStart: int, audioEnd: int, handle: nat)
    | ErrorReceived(error: string, handle: nat)

  /** An update with a message and no transcription. */
  function MessageUpdate(name: string, handle: nat, message: string): TranscriptionUpdate
  {
    TranscriptionUpdate(name, None, Some(message), None, None, RawObject(handle), None, None)
  }

  /** An update for a transcript, timed by its AudioStart and AudioEnd milliseconds. */
  function TranscriptUpdate(name: string, text: Option<string>, audioStart: int, audioEnd: int, handle: nat): TranscriptionUpdate
  {
    TranscriptionUpdate(name, text, None, Some(FromMilliseconds(audioStart)), Some(FromMilliseconds(audioEnd)),
      RawObject(handle), None, None)
  }

  /** What each subscribed handler enqueues: partial transcripts with null or empty text are
      dropped; every other event, final transcripts included whatever their text, gives exactly
      one update. */
  function HandleEvent(e: RealtimeEvent): (r: seq<TranscriptionUpdate>)
    ensures |r| <= 1
    ensures r == [] <==> e.PartialTranscript? && IsNullOrEmpty(e.text)
    ensures (e.PartialTranscript? || e.FinalTranscript?) && r != [] ==>
              && r[0].transcription == e.text
              && r[0].startTime == Some(e.audioStart * TicksPerMillisecond)
              && r[0].endTime == Some(e.audioEnd * TicksPerMillisecond)
    ensures e.FinalTranscript? ==> r[0].eventName == "FinalTranscriptReceived"
    ensures e.PartialTranscript? && r != [] ==> r[0].eventName == "PartialTranscriptReceived"
    ensures e.Closed? ==> r[0].eventName == "Closed"
  {
    match e
    case SessionBegins(id, expires, h) =>
      [MessageUpdate("SessionBegins", h, "Session begins: \n- Session ID: " + id + "\n- Expires at: " + expires)]
    case Closed(code, reason, h) =>
      [MessageUpdate("Closed", h, "Real-time connection closed: " + IntToString(code) + " - " + reason)]
    case PartialTranscript(text, s, t, h) =>
      if IsNullOrEmpty(text) then [] else [TranscriptUpdate("PartialTranscriptReceived", text, s, t, h)]
    case FinalTranscript(text, s, t, h) =>
      [TranscriptUpdate("FinalTranscriptReceived", text, s, t, h)]
    case ErrorReceived(error, h) =>
      [MessageUpdate("ErrorReceived", h, "Real-time error: " + error)]
  }

  /** What a run of events enqueues, in order. */
  function Enqueued(events: seq<RealtimeEvent>): seq<TranscriptionUpdate>
    decreases |events|
  {
    if events == [] then [] else Enqueued(events[..|events| - 1]) + HandleEvent(events[|events| - 1])
  }

  /** Only the Closed event clears connectionOpen. */
  predicate AnyClosed(events: seq<RealtimeEvent>)
  {
    exists i :: 0 <= i < |events| && events[i].Closed?
  }

  /** A round of the trace: the events that fire before a check of the loop condition, and
      whether cancellation is seen after the iteration. */
  datatype EventRound = EventRound(events: seq<RealtimeEvent>, cancelled: bool)

  function ToRound(r: EventRound): Round<TranscriptionUpdate>
  {
    Round(Enqueued(r.events), AnyClosed(r.events), r.cancelled)
  }

  /** The trace as the rounds the drain loop sees. */
  function Rounds(trace: seq<EventRound>): (rounds: seq<Round<TranscriptionUpdate>>)
    ensures |rounds| == |trace|
    ensures forall i :: 0 <= i < |trace| ==> rounds[i] == ToRound(trace[i])
  {
    seq(|trace|, i requires 0 <= i < |trace| => ToRound(trace[i]))
  }

  /** The drain loop (while connectionOpen or updates are queued), followed by one CloseAsync. */
  method TranscribeStreamingAsync(trace: seq<EventRound>)
    returns (updates: seq<TranscriptionUpdate>, exit: Exit, steps: nat, closeCalls: nat)
    ensures Outcome(Rounds(trace), updates, exit, steps)
    ensures exit != TraceEnded ==> closeCalls == 1
  {
    updates, exit, steps := Drain(Rounds(trace));
    closeCalls := if exit != TraceEnded then 1 else 0;
  }

  /** The upload task: SendAudioAsync for every chunk that has Data, in order; the others are
      skipped. */
  method UploadAudio(chunks: seq<AudioContent>) returns (sent: seq<seq<byte>>)
    ensures sent == DataOnly(chunks)
  {
    sent := [];
    for i := 0 to |chunks|
      invariant sent == DataOnly(chunks[..i])
    {
      assert chunks[..i + 1] == chunks[..i] + [chunks[i]];
      DataOnlyAppend(chunks[..i], chunks[i]);
      if chunks[i].ContainsData() {
        sent := sent + [chunks[i].payload];
      }
    }
    assert chunks[..|chunks|] == chunks;
  }

  /** RealtimeTranscriberOptions, by the members the client sets. */
  datatype RealtimeTranscriberOptions = RealtimeTranscriberOptions(apiKey: string, sampleRate: nat, disablePartialTranscripts: bool)

  /** The unchecked (uint) conversion of a 32-bit int: negative values wrap around. */
  function ToUInt(x: int): (u: nat)
    ensures u < 0x1_0000_0000
    ensures 0 <= x < 0x1_0000_0000 ==> u == x
  {
    x % 0x1_0000_0000
  }

  /** AdditionalProperties?[key] as bool? ?? false: false without a dictionary, the flag when the
      key holds a boolean, false for any other value; the indexer throws KeyNotFoundException
      when the dictionary lacks the key. */
  function FlagOf(props: Option<Dict>, key: string): (r: Result<bool>)
    ensures r.Failure? <==> props.Some? && Get(props.value, key).None?
    ensures r.Failure? ==> r.error == KeyNotFoundException
    ensures r.Success? ==> (r.value <==> props.Some? && Get(props.value, key) == Some(Bool(true)))
  {
    if props.None? then Success(false)
    else match Get(props.value, key)
      case None => Failure(KeyNotFoundException)
      case Some(v) => Success(v.Bool? && v.b)
  }

  /** ToRealtimeTranscriberOptions: without options, 16000 Hz and partial transcripts on; with
      options, the source sample rate (default 16000) and the DisablePartialTranscripts flag. */
  function ToRealtimeTranscriberOptions(apiKey: string, options: Option<TranscriptionOptions>): (r: Result<RealtimeTranscriberOptions>)
    ensures options.None? ==> r == Success(RealtimeTranscriberOptions(apiKey, DefaultSampleRate, false))
    ensures options.Some? && options.value.additionalProperties.None? ==> r.Success? && !r.value.disablePartialTranscripts
    ensures r.Failure? <==> options.Some? && options.value.additionalProperties.Some?
                            && Get(options.value.additionalProperties.value, DisablePartialTranscriptsKey).None?
    ensures r.Success? && options.Some? ==>
              && r.value.apiKey == apiKey
              && r.value.sampleRate == ToUInt(options.value.sourceSampleRate.GetOr(DefaultSampleRate))
              && (r.value.disablePartialTranscripts <==>
                    options.value.additionalProperties.Some?
                    && Get(options.value.additionalProperties.value, DisablePartialTranscriptsKey) == Some(Bool(true)))
  {
    if options.None? then Success(RealtimeTranscriberOptions(apiKey, DefaultSampleRate, false))
    else
      var o := options.value;
      match FlagOf(o.additionalProperties, DisablePartialTranscriptsKey)
      case Failure(e) => Failure(e)
      case Success(disable) =>
        Success(RealtimeTranscriberOptions(apiKey, ToUInt(o.sourceSampleRate.GetOr(DefaultSampleRate)), disable))
  }

  /** Options whose AdditionalProperties do not mention DisablePartialTranscripts make the
      transcriber's options throw instead of leaving partial transcripts on. */
  lemma MissingFlagThrows(apiKey: string, o: TranscriptionOptions)
    requires o.additionalProperties == Some([])
    ensures ToRealtimeTranscriberOptions(apiKey, Some(o)) == Failure(KeyNotFoundException)
  {
  }

  /** The flag read as TryGetValue would: a missing key means partial transcripts stay on. */
  function FlagOrFalse(props: Option<Dict>, key: string): bool
  {
    props.Some? && Get(props.value, key) == Some(Bool(true))
  }

  /** The evidently intended options: never an exception; the flag is set only when the
      dictionary holds true under its key, and the sample rate is as before. */
  function ToRealtimeTranscriberOptionsCorrected(apiKey: string, options: Option<TranscriptionOptions>): (r: RealtimeTranscriberOptions)
    ensures options.None? ==> r == RealtimeTranscriberOptions(apiKey, DefaultSampleRate, false)
    ensures options.Some? ==>
              && r.sampleRate == ToUInt(options.value.sourceSampleRate.GetOr(DefaultSampleRate))
              && (r.disablePartialTranscripts <==>
                    options.value.additionalProperties.Some?
                    && Get(options.value.additionalProperties.value, DisablePartialTranscriptsKey) == Some(Bool(true)))
    ensures ToRealtimeTranscriberOptions(apiKey, options).Success? ==> ToRealtimeTranscriberOptions(apiKey, options).value == r
  {
    if options.None? then RealtimeTranscriberOptions(apiKey, DefaultSampleRate, false)
    else
      var o := options.value;
      RealtimeTranscriberOptions(apiKey, ToUInt(o.sourceSampleRate.GetOr(DefaultSampleRate)),
        FlagOrFalse(o.additionalProperties, DisablePartialTranscriptsKey))
  }
}
