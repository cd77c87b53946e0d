/**
 * The paragraph layout `createDocxBlob` hands to the document library: one
 * centred level-1 heading carrying the chapter title, followed by one body
 * paragraph per line of the pasted text. Font sizes, spacing and alignment
 * are library styling and are not part of this model.
 */
module DocxLayout {
  import opened Lines

  datatype Paragraph = Heading(text: string) | Body(text: string)

  /** The document layout for `text` under the heading `title`. */
  function Layout(text: string, title: string): seq<Paragraph>
  {
    var lines := Split(text);
    [Heading(title)] + seq(|lines|, k requires 0 <= k < |lines| => Body(lines[k]))
  }

  /**
   * The layout has one paragraph more than the text has lines: the heading
   * comes first, then line k of the text as paragraph k + 1, verbatim,
   * empty lines included.
   */
  lemma LayoutShape(text: string, title: string)
    ensures |Layout(text, title)| == NewlineCount(text) + 2
    ensures Layout(text, title)[0] == Heading(title)
    ensures forall k :: 0 <= k < |Split(text)| ==> Layout(text, title)[k + 1] == Body(Split(text)[k])
  {
    SplitLength(text);
  }

  /** A layout as the builder produces it: a heading followed by at least one newline-free body paragraph. */
  predicate WellFormed(doc: seq<Paragraph>)
  {
    && |doc| >= 2
    && doc[0].Heading?
    && forall k :: 1 <= k < |doc| ==> doc[k].Body? && IsLine(doc[k].text)
  }

  /** The title a layout carries. */
  function TitleOf(doc: seq<Paragraph>): string
    requires |doc| >= 1
  {
    doc[0].text
  }

  /** The texts of the paragraphs after the heading. */
  function BodyLines(doc: seq<Paragraph>): seq<string>
    requires |doc| >= 1
  {
    seq(|doc| - 1, k requires 0 <= k < |doc| - 1 => doc[k + 1].text)
  }

  /** The text a layout holds: its body paragraphs joined by newlines. */
  function BodyText(doc: seq<Paragraph>): string
    requires |doc| >= 1
  {
    Join(BodyLines(doc))
  }

  /**
   * Nothing is lost or altered: the layout is well formed, and reading back
   * its title and its body gives exactly the title and the text it was built from.
   */
  lemma LayoutRoundTrip(text: string, title: string)
    ensures WellFormed(Layout(text, title))
    ensures TitleOf(Layout(text, title)) == title
    ensures BodyText(Layout(text, title)) == text
  {
    var doc := Layout(text, title);
    SplitYieldsLines(text);
    assert BodyLines(doc) == Split(text);
    JoinSplit(text);
  }

  /** Every well-formed layout is the layout of its own text and title. */
  lemma WellFormedIsLayout(doc: seq<Paragraph>)
    requires WellFormed(doc)
    ensures Layout(BodyText(doc), TitleOf(doc)) == doc
  {
    var lines := BodyLines(doc);
    SplitJoin(lines);
    assert Split(BodyText(doc)) == lines;
    var laid := Layout(BodyText(doc), TitleOf(doc));
    assert |laid| == |doc|;
    forall k | 0 <= k < |doc|
      ensures laid[k] == doc[k]
    {
      if k > 0 {
        assert laid[k] == Body(lines[k - 1]);
      }
    }
  }
}
