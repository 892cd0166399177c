/** WhisperTranscriptionClient: local transcription with Whisper.net. The audio is read through
    the chunk bridge; the processor's segments are given by a function of the bytes it reads. */
module Whisper {
  import opened Wrappers
  import opened Audio
  import opened Contract
  import AudioContentStream

  /** Whisper.net's SegmentData: text, start and end, and the object. */
  datatype Segment = Segment(text: string, start: Ticks, end: Ticks, handle: nat)

  /** The number of segments consumed: IsCancellationRequested is checked before each one, and
      once requested it stays requested, so cancellation is given as the index of the first
      segment at which it is seen. */
  function Consumed(segments: seq<Segment>, cancelAt: Option<nat>): (k: nat)
    ensures k <= |segments|
    ensures cancelAt.None? ==> k == |segments|
    ensures cancelAt.Some? ==> k == if cancelAt.value < |segments| then cancelAt.value else |segments|
  {
    if cancelAt.Some? && cancelAt.value < |segments| then cancelAt.value else |segments|
  }

  /** The texts of the segments, concatenated in order (the StringBuilder). */
  function JoinTexts(segments: seq<Segment>): string
    decreases |segments|
  {
    if segments == [] then [] else JoinTexts(segments[..|segments| - 1]) + segments[|segments| - 1].text
  }

  /** The segment handles, in order. */
  function Handles(segments: seq<Segment>): (r: seq<nat>)
    ensures |r| == |segments|
    ensures forall i :: 0 <= i < |segments| ==> r[i] == segments[i].handle
  {
    seq(|segments|, i requires 0 <= i < |segments| => segments[i].handle)
  }

  /** The length of the transcription is the sum of the segment text lengths; each segment's text
      appears in it at the offset of the texts before it. */
  lemma {:induction false} JoinTextsParts(segments: seq<Segment>, i: nat)
    requires i < |segments|
    ensures |JoinTexts(segments[..i])| + |segments[i].text| <= |JoinTexts(segments)|
    ensures JoinTexts(segments)[|JoinTexts(segments[..i])|..|JoinTexts(segments[..i])| + |segments[i].text|] == segments[i].text
    decreases |segments|
  {
    var n := |segments|;
    var init := segments[..n - 1];
    if i == n - 1 {
      assert init == segments[..i];
    } else {
      assert init[..i] == segments[..i] && init[i] == segments[i];
      JoinTextsParts(init, i);
      var a := JoinTexts(init);
      assert JoinTexts(segments) == a + segments[n - 1].text;
      assert JoinTexts(segments)[..|a|] == a;
    }
  }

  /** The fold over the segments in TranscribeAsync. */
  method FoldSegments(segments: seq<Segment>, cancelAt: Option<nat>) returns (c: TranscriptionCompletion)
    ensures var k := Consumed(segments, cancelAt);
            && c.startTime == (if k > 0 then Some(segments[0].start) else None)
            && c.endTime == (if k > 0 then Some(segments[k - 1].end) else None)
            && c.content == Some(TranscribedContent(Some(JoinTexts(segments[..k]))))
            && c.rawRepresentation == RawList(Handles(segments[..k]))
            && c.completionId.None? && c.modelId.None? && c.additionalProperties.None?
  {
    c := EmptyCompletion();
    var fullTranscription: string := [];
    var processed: seq<Segment> := [];
    var k := Consumed(segments, cancelAt);
    var i := 0;
    while i < |segments|
      invariant i <= k
      invariant processed == segments[..i]
      invariant fullTranscription == JoinTexts(processed)
      invariant c.startTime == (if i > 0 then Some(segments[0].start) else None)
      invariant c.endTime == (if i > 0 then Some(segments[i - 1].end) else None)
      invariant c.completionId.None? && c.modelId.None? && c.additionalProperties.None?
    {
      if cancelAt.Some? && cancelAt.value <= i {
        break;
      }
      var segment := segments[i];
      if c.startTime.None? {
        c := c.(startTime := Some(segment.start));
      }
      c := c.(endTime := Some(segment.end));
      assert segments[..i + 1][..i] == segments[..i];
      processed := processed + [segment];
      fullTranscription := fullTranscription + segment.text;
      i := i + 1;
    }
    assert i == k;
    c := c.(rawRepresentation := RawList(Handles(processed)), content := Some(TranscribedContent(Some(fullTranscription))));
  }

  /** The lazily built _processor: built on the first streaming call and reused afterwards. */
  class WhisperTranscriptionClient {
    /** The built processor, by its handle, or null before the first streaming call. */
    var processor: Option<nat>

    constructor ()
      ensures processor.None?
    {
      processor := None;
    }

    /** if (_processor is null) _processor = Build(): a processor, once built, is never replaced. */
    method EnsureProcessor(built: nat) returns (p: nat)
      modifies this`processor
      ensures old(processor).Some? ==> p == old(processor).value
      ensures old(processor).None? ==> p == built
      ensures processor == Some(p)
    {
      if processor.None? {
        processor := Some(built);
      }
      p := processor.value;
    }

    /** TranscribeStreamingAsync: one "Update" per consumed segment, in order, carrying its text,
        start, end and the segment itself; the segments come from the (lazily built) processor
        over the bytes the bridge reads. */
    method TranscribeStreamingAsync(process: (nat, seq<byte>) -> seq<Segment>, built: nat,
                                    audio: seq<AudioContent>, cancelAt: Option<nat>)
      returns (updates: seq<TranscriptionUpdate>)
      modifies this`processor
      ensures old(processor).Some? ==> processor == old(processor)
      ensures processor.Some?
      ensures var segments := process(processor.value, Payloads(audio));
              && |updates| == Consumed(segments, cancelAt)
              && forall i :: 0 <= i < |updates| ==>
                   updates[i] == TranscriptionUpdate("Update", Some(segments[i].text), None,
                                   Some(segments[i].start), Some(segments[i].end), RawObject(segments[i].handle), None, None)
    {
      var bytes := AudioContentStream.ReadAll(audio);
      var p := EnsureProcessor(built);
      var segments := process(p, bytes);
      updates := [];
      var i := 0;
      while i < |segments|
        invariant i <= Consumed(segments, cancelAt)
        invariant |updates| == i
        invariant forall j :: 0 <= j < i ==>
                    updates[j] == TranscriptionUpdate("Update", Some(segments[j].text), None,
                                    Some(segments[j].start), Some(segments[j].end), RawObject(segments[j].handle), None, None)
      {
        if cancelAt.Some? && cancelAt.value <= i {
          break;
        }
        var segment := segments[i];
        updates := updates + [TranscriptionUpdate("Update", Some(segment.text), None,
                               Some(segment.start), Some(segment.end), RawObject(segment.handle), None, None)];
        i := i + 1;
      }
    }
  }

  /** TranscribeAsync: builds its own processor, reads the audio through the bridge and folds the
      segments into one completion. */
  method TranscribeAsync(process: (nat, seq<byte>) -> seq<Segment>, built: nat,
                         audio: seq<AudioContent>, cancelAt: Option<nat>)
    returns (c: TranscriptionCompletion)
    ensures var segments := process(built, Payloads(audio));
            var k := Consumed(segments, cancelAt);
            && c.startTime == (if k > 0 then Some(segments[0].start) else None)
            && c.endTime == (if k > 0 then Some(segments[k - 1].end) else None)
            && c.content == Some(TranscribedContent(Some(JoinTexts(segments[..k]))))
            && c.rawRepresentation == RawList(Handles(segments[..k]))
  {
    var bytes := AudioContentStream.ReadAll(audio);
    var segments := process(built, bytes);
    c := FoldSegments(segments, cancelAt);
  }
}
