/** AudioTranscriptionCompletion: a completion whose Contents list is created on first use and
    whose Text reads and writes the list's first text item. */
module AudioCompletion {
  import opened Wrappers
  import opened Dictionaries
  import opened Contract
  import opened ContentLists

  class AudioTranscriptionCompletion {
    /** The backing _contents field: null until a list is given or Contents is first read. */
    var contents: Option<seq<AIContent>>
    var completionId: Option<string>
    var modelId: Option<string>
    var startTime: Option<Ticks>
    var endTime: Option<Ticks>
    var rawRepresentation: Raw
    var additionalProperties: Option<Dict>

    /** The list Contents returns: the backing list, or the empty list it would create. */
    function ContentsValue(): seq<AIContent>
      reads this
    {
      contents.GetOr([])
    }

    /** new AudioTranscriptionCompletion(): nothing set, no list yet. */
    constructor ()
      ensures contents == None && completionId == None && modelId == None
      ensures startTime == None && endTime == None && rawRepresentation == NoRaw
      ensures additionalProperties == None
    {
      contents := None;
      completionId := None;
      modelId := None;
      startTime := None;
      endTime := None;
      rawRepresentation := NoRaw;
      additionalProperties := None;
    }

    /** new AudioTranscriptionCompletion(contents) for a list that is not null. */
    constructor FromContents(items: seq<AIContent>)
      ensures contents == Some(items) && completionId == None && modelId == None
      ensures startTime == None && endTime == None && rawRepresentation == NoRaw
      ensures additionalProperties == None
    {
      contents := Some(items);
      completionId := None;
      modelId := None;
      startTime := None;
      endTime := None;
      rawRepresentation := NoRaw;
      additionalProperties := None;
    }

    /** new AudioTranscriptionCompletion(string? content): an empty list for null, one text item
        holding the content otherwise. */
    constructor FromString(content: Option<string>)
      ensures contents == Some(ContentsOfString(content))
      ensures TextOf(ContentsValue()) == content
      ensures completionId == None && modelId == None && startTime == None && endTime == None
      ensures rawRepresentation == NoRaw && additionalProperties == None
    {
      contents := Some(ContentsOfString(content));
      completionId := None;
      modelId := None;
      startTime := None;
      endTime := None;
      rawRepresentation := NoRaw;
      additionalProperties := None;
    }

    /** The Contents getter (_contents ??= []): the first read creates the empty list, and every
        read returns the list that is then stored. */
    method Contents() returns (items: seq<AIContent>)
      modifies this`contents
      ensures items == old(ContentsValue()) && contents == Some(items)
    {
      if contents.None? {
        contents := Some([]);
      }
      items := contents.value;
    }

    /** The Contents setter, which accepts null. */
    method SetContents(value: Option<seq<AIContent>>)
      modifies this`contents
      ensures contents == value
    {
      contents := value;
    }

    /** The Text getter: the first text item's text, or null; reading it creates the list. */
    method Text() returns (text: Option<string>)
      modifies this`contents
      ensures text == TextOf(old(ContentsValue())) && contents == Some(old(ContentsValue()))
    {
      var items := Contents();
      var i := FindFirstText(items);
      text := if i.Some? then items[i.value].text else None;
    }

    /** The Text setter: the first text item gets value; without one, a non-null value is appended
        and a null one changes nothing. Reading Text afterwards gives value. */
    method SetText(value: Option<string>)
      modifies this`contents
      ensures contents == Some(WithText(old(ContentsValue()), value))
      ensures TextOf(ContentsValue()) == value
    {
      var items := Contents();
      var i := FindFirstText(items);
      if i.Some? {
        contents := Some(items[i.value := TextContent(value)]);
      } else if value.Some? {
        contents := Some(items + [TextContent(value)]);
      }
      TextAfterSet(items, value);
    }
  }

  /** The list constructor: ArgumentNullException for a null list. */
  method New(items: Option<seq<AIContent>>) returns (r: Result<AudioTranscriptionCompletion>)
    ensures items.None? <==> r == Failure(ArgumentNullException)
    ensures r.Success? ==> fresh(r.value) && r.value.contents == items
  {
    if items.None? {
      return Failure(ArgumentNullException);
    }
    var c := new AudioTranscriptionCompletion.FromContents(items.value);
    return Success(c);
  }
}
