/** StreamingAudioTranscriptionUpdate: an update whose Contents list is created on first use and
    whose Text reads and writes the list's first text item. */
module StreamingUpdate {
  import opened Wrappers
  import opened Dictionaries
  import opened Contract
  import opened ContentLists
  import opened UpdateKinds

  class StreamingAudioTranscriptionUpdate {
    /** The backing _contents field: null until a list is given or Contents is first read. */
    var contents: Option<seq<AIContent>>
    var completionId: Option<string>
    /** The required Kind, set once at construction (init). */
    const kind: UpdateKind
    var startTime: Option<Ticks>
    var endTime: Option<Ticks>
    var rawRepresentation: Raw
    var additionalProperties: Option<Dict>

    /** The list Contents returns: the backing list, or the empty list it would create. */
    function ContentsValue(): seq<AIContent>
      reads this
    {
      contents.GetOr([])
    }

    /** new StreamingAudioTranscriptionUpdate(): nothing set, no list yet. */
    constructor (kind: UpdateKind)
      ensures this.kind == kind
      ensures contents == None && completionId == None
      ensures startTime == None && endTime == None && rawRepresentation == NoRaw
      ensures additionalProperties == None
    {
      this.kind := kind;
      contents := None;
      completionId := None;
      startTime := None;
      endTime := None;
      rawRepresentation := NoRaw;
      additionalProperties := None;
    }

    /** new StreamingAudioTranscriptionUpdate(contents) for a list that is not null. */
    constructor FromContents(kind: UpdateKind, items: seq<AIContent>)
      ensures this.kind == kind
      ensures contents == Some(items) && completionId == None
      ensures startTime == None && endTime == None && rawRepresentation == NoRaw
      ensures additionalProperties == None
    {
      this.kind := kind;
      contents := Some(items);
      completionId := None;
      startTime := None;
      endTime := None;
      rawRepresentation := NoRaw;
      additionalProperties := None;
    }

    /** new StreamingAudioTranscriptionUpdate(string? content): an empty list for null, one text item
        holding the content otherwise. */
    constructor FromString(kind: UpdateKind, content: Option<string>)
      ensures this.kind == kind
      ensures contents == Some(ContentsOfString(content))
      ensures TextOf(ContentsValue()) == content
      ensures completionId == None && startTime == None && endTime == None
      ensures rawRepresentation == NoRaw && additionalProperties == None
    {
      this.kind := kind;
      contents := Some(ContentsOfString(content));
      completionId := None;
      startTime := None;
      endTime := None;
      rawRepresentation := NoRaw;
      additionalProperties := None;
    }

    /** The Contents getter (_contents ??= []): the first read creates the empty list, and every
        read returns the list that is then stored. */
    method Contents() returns (items: seq<AIContent>)
      modifies this`contents
      ensures items == old(ContentsValue()) && contents == Some(items)
    {
      if contents.None? {
        contents := Some([]);
      }
      items := contents.value;
    }

    /** The Contents setter, which accepts null. */
    method SetContents(value: Option<seq<AIContent>>)
      modifies this`contents
      ensures contents == value
    {
      contents := value;
    }

    /** The Text getter: the first text item's text, or null; reading it creates the list. */
    method Text() returns (text: Option<string>)
      modifies this`contents
      ensures text == TextOf(old(ContentsValue())) && contents == Some(old(ContentsValue()))
    {
      var items := Contents();
      var i := FindFirstText(items);
      text := if i.Some? then items[i.value].text else None;
    }

    /** The Text setter: the first text item gets value; without one, a non-null value is appended
        and a null one changes nothing. Reading Text afterwards gives value. */
    method SetText(value: Option<string>)
      modifies this`contents
      ensures contents == Some(WithText(old(ContentsValue()), value))
      ensures TextOf(ContentsValue()) == value
    {
      var items := Contents();
      var i := FindFirstText(items);
      if i.Some? {
        contents := Some(items[i.value := TextContent(value)]);
      } else if value.Some? {
        contents := Some(items + [TextContent(value)]);
      }
      TextAfterSet(items, value);
    }
  }

  /** The list constructor: ArgumentNullException for a null list. */
  method New(kind: UpdateKind, items: Option<seq<AIContent>>) returns (r: Result<StreamingAudioTranscriptionUpdate>)
    ensures items.None? <==> r == Failure(ArgumentNullException)
    ensures r.Success? ==> fresh(r.value) && r.value.contents == items && r.value.kind == kind
  {
    if items.None? {
      return Failure(ArgumentNullException);
    }
    var c := new StreamingAudioTranscriptionUpdate.FromContents(kind, items.value);
    return Success(c);
  }
}
