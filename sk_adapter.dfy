/** AudioTranscriptionClientAudioToTextService: a transcription client on top of a Semantic Kernel
    IAudioToTextService. Both operations look at the first chunk: a reference goes to the service
    by URI; otherwise the chunks are read through the byte-stream bridge and sent as one block. */
module SemanticKernel {
  import opened Wrappers
  import opened Text
  import opened Audio
  import opened ChunkReader
  import opened Dictionaries
  import opened Contract
  import opened ContentLists
  import opened UpdateKinds
  import opened AudioCompletion
  import opened StreamingUpdate
  import opened FirstChunk
  import DataContentStream

  const AudioLanguageKey: string := "audio_language"
  const AudioSampleRateKey: string := "audio_sample_rate"

  /** PromptExecutionSettings: the model id and the ExtensionData dictionary, whose keys are compared
      ignoring case. */
  datatype PromptExecutionSettings = PromptExecutionSettings(modelId: Option<string>, extensionData: Dict)

  /** Semantic Kernel's TextContent: the text, the metadata entries (in enumeration order), and
      the object itself as a handle. */
  datatype SkTextContent = SkTextContent(text: Option<string>, metadata: Option<seq<Entry>>, handle: nat)

  /** The two GetTextContentAsync calls of IAudioToTextService: for an AudioContent made from a URI,
      and for one made from bytes with a media type. */
  datatype AudioToTextService = AudioToTextService(
    byUri: (string, Option<PromptExecutionSettings>) -> SkTextContent,
    byData: (seq<byte>, Option<string>, Option<PromptExecutionSettings>) -> SkTextContent)

  /** ExtensionData before the additional properties: audio_language and then audio_sample_rate,
      each only when the option is not null. */
  function BaseData(o: TranscriptionOptions): Dict
  {
    var withLanguage := if o.audioLanguage.Some? then Set([], AudioLanguageKey, Str(o.audioLanguage.value)) else [];
    if o.audioSampleRate.Some? then Set(withLanguage, AudioSampleRateKey, Int(o.audioSampleRate.value)) else withLanguage
  }

  /** The settings ToPromptExecutionSettings builds: none for null options; otherwise the model id,
      and the language and sample rate overwritten by the non-null additional properties. */
  function PromptSettings(options: Option<TranscriptionOptions>): Option<PromptExecutionSettings>
  {
    if options.None? then None
    else
      var o := options.value;
      Some(PromptExecutionSettings(o.modelId, Assigned(BaseData(o), o.additionalProperties.GetOr([]), true)))
  }

  /** The value each key of ExtensionData holds, key by key: the last non-null additional property
      with that key (ignoring case), else the sample rate or the language under their keys, else
      nothing. */
  function SettingFor(o: TranscriptionOptions, k: string): Option<Value>
  {
    LastValue(o.additionalProperties.GetOr([]), k, true).Or(
      if Fold(k) == Fold(AudioSampleRateKey) && o.audioSampleRate.Some? then Some(Int(o.audioSampleRate.value))
      else if Fold(k) == Fold(AudioLanguageKey) && o.audioLanguage.Some? then Some(Str(o.audioLanguage.value))
      else None)
  }

  /** The two fixed keys differ even ignoring case. */
  lemma KeysDiffer()
    ensures Fold(AudioLanguageKey) != Fold(AudioSampleRateKey)
  {
    assert Fold(AudioLanguageKey)[6] == FoldChar(AudioLanguageKey[6]);
    assert Fold(AudioSampleRateKey)[6] == FoldChar(AudioSampleRateKey[6]);
  }

  /** What the base entries hold, key by key. */
  lemma BaseDataMeans(o: TranscriptionOptions)
    ensures KeysDistinct(BaseData(o))
    ensures forall k :: Get(BaseData(o), k) ==
              if Fold(k) == Fold(AudioSampleRateKey) && o.audioSampleRate.Some? then Some(Int(o.audioSampleRate.value))
              else if Fold(k) == Fold(AudioLanguageKey) && o.audioLanguage.Some? then Some(Str(o.audioLanguage.value))
              else None
  {
    KeysDiffer();
    var empty: Dict := [];
    var withLanguage := if o.audioLanguage.Some? then Set(empty, AudioLanguageKey, Str(o.audioLanguage.value)) else empty;
    if o.audioLanguage.Some? {
      SetMeans(empty, AudioLanguageKey, Str(o.audioLanguage.value));
    }
    if o.audioSampleRate.Some? {
      SetMeans(withLanguage, AudioSampleRateKey, Int(o.audioSampleRate.value));
    }
  }

  /** ToPromptExecutionSettings: null for null options; otherwise the model id is copied, and every
      key of ExtensionData holds what SettingFor says, with distinct keys. */
  lemma PromptSettingsMeans(options: Option<TranscriptionOptions>)
    ensures PromptSettings(options).None? <==> options.None?
    ensures options.Some? ==>
              var s := PromptSettings(options).value;
              && s.modelId == options.value.modelId
              && KeysDistinct(s.extensionData)
              && forall k :: Get(s.extensionData, k) == SettingFor(options.value, k)
  {
    if options.Some? {
      var o := options.value;
      BaseDataMeans(o);
      AssignedMeans(BaseData(o), o.additionalProperties.GetOr([]), true);
    }
  }

  /** ToPromptExecutionSettings, with its two conditional entries and its loop over the additional
      properties. */
  method ToPromptExecutionSettings(options: Option<TranscriptionOptions>) returns (r: Option<PromptExecutionSettings>)
    ensures r == PromptSettings(options)
  {
    if options.None? {
      return None;
    }
    var o := options.value;
    var data: Dict := [];
    if o.audioLanguage.Some? {
      data := Set(data, AudioLanguageKey, Str(o.audioLanguage.value));
    }
    if o.audioSampleRate.Some? {
      data := Set(data, AudioSampleRateKey, Int(o.audioSampleRate.value));
    }
    if o.additionalProperties.Some? {
      data := AssignAll(data, o.additionalProperties.value, true);
    }
    return Some(PromptExecutionSettings(o.modelId, data));
  }

  /** The service's reply: by URI for a reference, otherwise for the bridged bytes with the first
      chunk's media type. */
  function Reply(service: AudioToTextService, audio: AudioSource, options: Option<TranscriptionOptions>): SkTextContent
    requires audio.firstPass != []
  {
    match audio.firstPass[0]
    case ByReference(uri, _) => service.byUri(uri, PromptSettings(options))
    case Inline(_, mediaType) => service.byData(SeededBytes(audio), mediaType, PromptSettings(options))
  }

  /** The part both operations share: ArgumentException when the sequence is empty, otherwise the
      call chosen by the first chunk. */
  method GetTextContent(service: AudioToTextService, audio: AudioSource, options: Option<TranscriptionOptions>)
    returns (r: Result<SkTextContent>)
    requires BridgeTerminates(audio)
    ensures audio.firstPass == [] ==> r == Failure(ArgumentException)
    ensures audio.firstPass != [] ==> r == Success(Reply(service, audio, options))
  {
    if audio.firstPass == [] {
      return Failure(ArgumentException);
    }
    var first := audio.firstPass[0];
    var settings := ToPromptExecutionSettings(options);
    if !first.ContainsData() {
      return Success(service.byUri(first.uri, settings));
    }
    var bytes := DataContentStream.ReadAll(audio.secondPass, Some(first));
    return Success(service.byData(bytes, first.mediaType, settings));
  }

  /** The properties the results carry: the reply's metadata copied into an empty dictionary. */
  function CopiedMetadata(reply: SkTextContent): Dict
  {
    Assigned([], reply.metadata.GetOr([]), false)
  }

  /** Every metadata entry that no later entry overrides appears with its value, and nothing else
      does. */
  lemma CopiedMetadataMeans(reply: SkTextContent)
    ensures KeysDistinct(CopiedMetadata(reply))
    ensures forall k :: Get(CopiedMetadata(reply), k) == LastValue(reply.metadata.GetOr([]), k, false)
    ensures var entries := reply.metadata.GetOr([]);
            forall i :: 0 <= i < |entries| && NotOverridden(entries, i) ==>
              Get(CopiedMetadata(reply), entries[i].key) == Some(entries[i].value)
  {
    var entries := reply.metadata.GetOr([]);
    AssignedMeans([], entries, false);
    forall i | 0 <= i < |entries| && NotOverridden(entries, i)
      ensures Get(CopiedMetadata(reply), entries[i].key) == Some(entries[i].value)
    {
      LastValueAt(entries, i, false);
    }
  }

  /** TranscribeAsync: the completion's Text is the reply's text, its AdditionalProperties the
      copied metadata, and its RawRepresentation the reply. */
  method TranscribeAsync(service: AudioToTextService, audio: AudioSource, options: Option<TranscriptionOptions>)
    returns (r: Result<AudioTranscriptionCompletion>)
    requires BridgeTerminates(audio)
    ensures r.Failure? <==> audio.firstPass == []
    ensures r.Failure? ==> r.error == ArgumentException
    ensures r.Success? ==> var reply := Reply(service, audio, options);
              && fresh(r.value)
              && TextOf(r.value.ContentsValue()) == reply.text
              && r.value.additionalProperties == Some(CopiedMetadata(reply))
              && r.value.rawRepresentation == RawObject(reply.handle)
  {
    var reply := GetTextContent(service, audio, options);
    if reply.Failure? {
      return Failure(reply.error);
    }
    var sk := reply.value;
    var result := new AudioTranscriptionCompletion();
    result.SetText(sk.text);
    result.additionalProperties := Some([]);
    result.rawRepresentation := RawObject(sk.handle);
    if sk.metadata.Some? {
      var copied := AssignAll([], sk.metadata.value, false);
      result.additionalProperties := Some(copied);
    }
    return Success(result);
  }

  /** TranscribeStreamingAsync: exactly one update, of kind Transcribed, carrying the reply's text,
      the copied metadata and the reply. */
  method TranscribeStreamingAsync(service: AudioToTextService, audio: AudioSource, options: Option<TranscriptionOptions>)
    returns (r: Result<seq<StreamingAudioTranscriptionUpdate>>)
    requires BridgeTerminates(audio)
    ensures r.Failure? <==> audio.firstPass == []
    ensures r.Failure? ==> r.error == ArgumentException
    ensures r.Success? ==> var reply := Reply(service, audio, options);
              && |r.value| == 1
              && fresh(r.value[0])
              && r.value[0].kind == Transcribed
              && TextOf(r.value[0].ContentsValue()) == reply.text
              && r.value[0].additionalProperties == Some(CopiedMetadata(reply))
              && r.value[0].rawRepresentation == RawObject(reply.handle)
  {
    var reply := GetTextContent(service, audio, options);
    if reply.Failure? {
      return Failure(reply.error);
    }
    var sk := reply.value;
    var update := new StreamingAudioTranscriptionUpdate(Transcribed);
    update.SetText(sk.text);
    update.additionalProperties := Some([]);
    update.rawRepresentation := RawObject(sk.handle);
    if sk.metadata.Some? {
      var copied := AssignAll([], sk.metadata.value, false);
      update.additionalProperties := Some(copied);
    }
    return Success([update]);
  }
}
