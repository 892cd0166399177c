/** The option and result mapping shared by the AssemblyAI client's operations. */
module AssemblyAIClient {
  import opened Wrappers
  import opened Text
  import opened Contract

  const PortugueseCode: string := "PT"

  /** TranscriptLanguageCode, by the members the client produces. */
  datatype LanguageCode = Pt | EnUs

  /** TranscriptOptionalParams, by the member the client sets. */
  datatype TranscriptOptionalParams = TranscriptOptionalParams(languageCode: Option<LanguageCode>)

  /** new TranscriptOptionalParams(): no language code. */
  function DefaultParams(): TranscriptOptionalParams
  {
    TranscriptOptionalParams(None)
  }

  /** The local ToSourceLanguage: null stays null; "PT" after ToUpperInvariant is Portuguese, and
      every other language is US English. */
  function ToSourceLanguage(sourceLanguage: Option<string>): (r: Option<LanguageCode>)
    ensures r.None? <==> sourceLanguage.None?
    ensures r == Some(Pt) <==> sourceLanguage.Some? && Fold(sourceLanguage.value) == PortugueseCode
  {
    if sourceLanguage.None? then None
    else if Fold(sourceLanguage.value) == PortugueseCode then Some(Pt)
    else Some(EnUs)
  }

  /** Portuguese is "pt" in any letter case, and nothing else. */
  lemma PortugueseInAnyCase(s: string, pt: string)
    requires pt == "pt"
    ensures ToSourceLanguage(Some(s)) == Some(Pt) <==> EqualsIgnoreCase(s, pt)
  {
    EqualsIgnoreCaseIsFoldEquality(s, pt);
    assert Fold(pt) == PortugueseCode by {
      assert Fold(pt)[0] == FoldChar(pt[0]) && Fold(pt)[1] == FoldChar(pt[1]);
    }
  }

  /** ToTranscriptOptionalParams: the default parameters for null options, otherwise the mapped
      source language. */
  function ToTranscriptOptionalParams(options: Option<TranscriptionOptions>): (p: TranscriptOptionalParams)
    ensures options.None? ==> p == DefaultParams()
    ensures options.None? || options.value.sourceLanguage.None? ==> p.languageCode.None?
    ensures options.Some? ==> p.languageCode == ToSourceLanguage(options.value.sourceLanguage)
  {
    if options.None? then DefaultParams() else TranscriptOptionalParams(ToSourceLanguage(options.value.sourceLanguage))
  }

  /** The SDK's Transcript: id, language model, text, and the object. */
  datatype Transcript = Transcript(id: Option<string>, languageModel: Option<string>, text: Option<string>, handle: nat)

  /** ToTranscriptionCompletion: content exactly when the transcript has text, holding that text. */
  function ToTranscriptionCompletion(transcript: Transcript): (c: TranscriptionCompletion)
    ensures c.content.None? <==> transcript.text.None?
    ensures c.content.Some? ==> c.content.value.transcription == transcript.text
    ensures c.completionId == transcript.id && c.modelId == transcript.languageModel
    ensures c.rawRepresentation == RawObject(transcript.handle)
    ensures c.startTime.None? && c.endTime.None? && c.additionalProperties.None?
  {
    TranscriptionCompletion(
      transcript.id, transcript.languageModel,
      if transcript.text.Some? then Some(TranscribedContent(transcript.text)) else None,
      None, None, RawObject(transcript.handle), None)
  }
}
