/**
 * The text posted for one feed item: the title in bold, a blank line,
 * then the item's content converted from HTML to Markdown. The converter
 * is an opaque function that may fail (None); on failure the raw HTML is
 * sent instead.
 */
module Message {
  import opened Wrappers
  import opened Feed

  /** The body of the message: the converted content, or the raw content when conversion fails. */
  function RenderContent(content: string, convert: string -> Option<string>): (c: string)
    ensures convert(content).Some? ==> c == convert(content).value
    ensures convert(content).None? ==> c == content
  {
    match convert(content)
    case Some(converted) => converted
    case None => content
  }

  /** `"*" + title + "*\n\n" + body`, the format string of the delivery request. */
  function MessageText(item: Item, convert: string -> Option<string>): string
  {
    "*" + item.title + "*\n\n" + RenderContent(item.content, convert)
  }

  /** The message is the title between asterisks, a blank line, then the rendered body. */
  lemma MessageLayout(item: Item, convert: string -> Option<string>)
    ensures var text, k := MessageText(item, convert), |item.title|;
      |text| == k + 4 + |RenderContent(item.content, convert)|
      && text[0] == '*' && text[1..k + 1] == item.title
      && text[k + 1..k + 4] == "*\n\n"
      && text[k + 4..] == RenderContent(item.content, convert)
  {
  }

  /** When conversion fails, the message is the bold title followed by the raw HTML, not an error. */
  lemma ConversionFailureFallsBack(item: Item, convert: string -> Option<string>)
    requires convert(item.content).None?
    ensures MessageText(item, convert) == "*" + item.title + "*\n\n" + item.content
  {
  }

  /** Messages for two items that share a title differ exactly where their rendered bodies differ. */
  lemma {:induction false} SameTitleSameHeader(a: Item, b: Item, convert: string -> Option<string>)
    requires a.title == b.title
    ensures MessageText(a, convert) == MessageText(b, convert)
        <==> RenderContent(a.content, convert) == RenderContent(b.content, convert)
  {
    var k := |a.title| + 4;
    MessageLayout(a, convert);
    MessageLayout(b, convert);
    if MessageText(a, convert) == MessageText(b, convert) {
      assert MessageText(a, convert)[k..] == MessageText(b, convert)[k..];
    }
  }
}
