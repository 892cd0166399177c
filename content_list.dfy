/** The Text accessor shared by AudioTranscriptionCompletion and StreamingAudioTranscriptionUpdate,
    stated on the value of the Contents list: the getter reads the first TextContent, the setter
    changes that item or appends a new one. */
module ContentLists {
  import opened Wrappers
  import opened Contract

  /** Contents.FindFirst<TextContent>(): the index of the first text item, if any. */
  function FindFirstText(items: seq<AIContent>): (r: Option<nat>)
    ensures r.Some? ==> r.value < |items| && items[r.value].TextContent?
    ensures r.Some? ==> forall i :: 0 <= i < r.value ==> !items[i].TextContent?
    ensures r.None? ==> forall i :: 0 <= i < |items| ==> !items[i].TextContent?
  {
    if items == [] then None
    else if items[0].TextContent? then Some(0)
    else
      match FindFirstText(items[1..])
      case None => None
      case Some(i) => Some(i + 1)
  }

  /** The Text getter: the first text item's text, or null when there is none. */
  function TextOf(items: seq<AIContent>): Option<string>
  {
    match FindFirstText(items)
    case None => None
    case Some(i) => items[i].text
  }

  /** The Text setter: the first text item takes the new text; without one, a non-null value is
      appended as a new text item and a null value changes nothing. */
  function WithText(items: seq<AIContent>, value: Option<string>): seq<AIContent>
  {
    match FindFirstText(items)
    case Some(i) => items[i := TextContent(value)]
    case None => if value.Some? then items + [TextContent(value)] else items
  }

  /** What setting Text does to the list: with a text item, only that item changes and the length
      stays; without one, a non-null value adds exactly one item at the end and a null value
      leaves the list as it was. */
  lemma WithTextMeans(items: seq<AIContent>, value: Option<string>)
    ensures FindFirstText(items).Some? ==>
              var i := FindFirstText(items).value;
              && |WithText(items, value)| == |items|
              && WithText(items, value)[i] == TextContent(value)
              && (forall j :: 0 <= j < |items| && j != i ==> WithText(items, value)[j] == items[j])
    ensures FindFirstText(items).None? && value.Some? ==>
              WithText(items, value) == items + [TextContent(value)]
    ensures FindFirstText(items).None? && value.None? ==> WithText(items, value) == items
  {
  }

  /** Reading Text after setting it gives the value set, and the first text item is where it
      was (or, when there was none and the value is not null, the new last item). */
  lemma TextAfterSet(items: seq<AIContent>, value: Option<string>)
    ensures TextOf(WithText(items, value)) == value
    ensures FindFirstText(items).Some? ==> FindFirstText(WithText(items, value)) == FindFirstText(items)
    ensures FindFirstText(items).None? && value.Some? ==> FindFirstText(WithText(items, value)) == Some(|items|)
  {
    var r := WithText(items, value);
    match FindFirstText(items)
    case Some(i) =>
      FirstTextAt(r, i);
    case None =>
      if value.Some? {
        FirstTextAt(r, |items|);
      }
  }

  /** A text item at i with none before it is what FindFirstText finds. */
  lemma {:induction false} FirstTextAt(items: seq<AIContent>, i: nat)
    requires i < |items| && items[i].TextContent?
    requires forall j :: 0 <= j < i ==> !items[j].TextContent?
    ensures FindFirstText(items) == Some(i)
  {
    if i > 0 {
      FirstTextAt(items[1..], i - 1);
    }
  }

  /** The string constructor's list: empty for null, one text item otherwise. */
  function ContentsOfString(content: Option<string>): (r: seq<AIContent>)
    ensures TextOf(r) == content
    ensures content.None? ==> r == []
    ensures content.Some? ==> |r| == 1
  {
    if content.None? then [] else [TextContent(content)]
  }
}
