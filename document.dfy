/**
 * The Slides API documents the service reads, reduced to the fields it
 * consults. Payloads it only forwards (sizes, transforms, shape properties,
 * background fills, character formatting) are kept as uninterpreted `Json`
 * values so that a copy carries them through unchanged.
 */
module Document {
  import opened Wrappers
  import opened Text

  /** An API payload that is forwarded verbatim, never inspected. */
  datatype Json = Json(text: string)

  /** A hyperlink on a text run; a falsy `link` value is `None` at the run. */
  datatype Link = Link(target: string)

  /**
   * A text run's `style` object. An absent style and `{}` are the same value,
   * `TextStyle(None, None)`, because the service only tests it for truth.
   */
  datatype TextStyle = TextStyle(link: Option<Link>, formatting: Option<Json>)
  {
    /** Python's `not style`. */
    predicate IsEmpty()
    {
      link.None? && formatting.None?
    }
  }

  /** A `textRun`; a missing `content` is the empty string. */
  datatype TextRun = TextRun(content: string, style: TextStyle)

  /** One entry of `text.textElements`: a run, or a paragraph marker / auto text (`None`). */
  datatype TextElement = TextElement(textRun: Option<TextRun>)

  /**
   * A `shape`. `placeholder` holds the placeholder's `type` when the shape is
   * bound to one; `text` is `None` when the shape has no `text` key.
   */
  datatype Shape = Shape(shapeType: Option<string>, placeholder: Option<string>,
                         shapeProperties: Option<Json>, text: Option<seq<TextElement>>)

  /** An `image`, of which only the content URL is read. */
  datatype Image = Image(contentUrl: string)

  /** What a page element is; tables, lines, videos and groups are `OtherKind`. */
  datatype ElementKind = ShapeKind(shape: Shape) | ImageKind(image: Image) | OtherKind

  /** A `pageElement` of a slide. */
  datatype PageElement = PageElement(objectId: string, size: Option<Json>, transform: Option<Json>,
                                     kind: ElementKind)

  /** A slide page; `slideBackgroundFill` is `None` when absent or falsy. */
  datatype Page = Page(objectId: string, pageElements: seq<PageElement>, slideBackgroundFill: Option<Json>)

  /** A presentation document as returned by `presentations().get`. */
  datatype Presentation = Presentation(presentationId: string, slides: seq<Page>)

  /** The text elements of an element's shape text, `[]` for anything else. */
  function TextElements(e: PageElement): seq<TextElement>
  {
    if e.kind.ShapeKind? && e.kind.shape.text.Some? then e.kind.shape.text.value else []
  }

  /** The content a text element contributes: its run's content, or nothing. */
  function RunContent(te: TextElement): string
  {
    if te.textRun.Some? then te.textRun.value.content else ""
  }

  /** The run contents of `tes` concatenated in order (the loop's accumulated `text`). */
  function RunsText(tes: seq<TextElement>): string
  {
    if tes == [] then "" else RunsText(tes[..|tes| - 1]) + RunContent(tes[|tes| - 1])
  }

  /** Accumulating run by run is concatenation: splitting the elements splits the text. */
  lemma {:induction false} RunsTextAppend(a: seq<TextElement>, b: seq<TextElement>)
    ensures RunsText(a + b) == RunsText(a) + RunsText(b)
    decreases |b|
  {
    if b == [] {
      assert a + b == a;
    } else {
      assert (a + b)[..|a + b| - 1] == a + b[..|b| - 1];
      RunsTextAppend(a, b[..|b| - 1]);
    }
  }

  /**
   * `_get_text_from_element`: the stripped concatenation of the element's
   * run contents; the empty string for an element without shape text.
   */
  function TextOf(e: PageElement): string
  {
    Strip(RunsText(TextElements(e)))
  }

  /**
   * The element text has no whitespace at either end, is empty for an
   * element without shape text, and is empty exactly when every run
   * content together is whitespace.
   */
  lemma TextOfIsStripped(e: PageElement)
    ensures var t := TextOf(e);
            && (t == "" || (!IsSpace(t[0]) && !IsSpace(t[|t| - 1])))
            && (!(e.kind.ShapeKind? && e.kind.shape.text.Some?) ==> t == "")
            && (t == "" <==> AllSpace(RunsText(TextElements(e))))
  {
    var _, _ := StripSpec(RunsText(TextElements(e)));
  }
}
