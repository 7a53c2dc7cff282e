/**
 * The slide transplanter: for every selected record whose source page can be
 * fetched, the requests that rebuild that page as a new slide of the target
 * deck. The new slide gets a header text box naming and linking the source
 * slide, the source background, and a copy of every non-placeholder shape
 * and every image. A record whose fetch fails contributes nothing.
 */
module Transplant {
  import opened Wrappers
  import opened Text
  import opened Document
  import opened Summarizer
  import opened Requests
  import opened Payload

  /** The id given to a copy of the slide or element with id `id`. */
  function CopiedId(id: string): (r: string)
    ensures CopiedIdPrefix <= r && r[|CopiedIdPrefix|..] == id
  {
    CopiedIdPrefix + id
  }

  const CopiedIdPrefix := "copied_"

  /** The id of the header text box of the copy of slide `slideId`. */
  function HeaderId(slideId: string): (r: string)
    ensures "title_for_" <= r && r[|"title_for_"|..] == CopiedId(slideId)
  {
    "title_for_" + CopiedId(slideId)
  }

  /**
   * Copies keep distinct ids apart: two originals get the same copied id
   * only when they are the same id.
   */
  lemma CopiedIdInjective(a: string, b: string)
    ensures CopiedId(a) == CopiedId(b) ==> a == b
  {
    assert a == CopiedId(a)[|CopiedIdPrefix|..];
    assert b == CopiedId(b)[|CopiedIdPrefix|..];
  }

  /**
   * Header ids never collide with each other or with the copied ids: a
   * header id starts with `t`, a copied id with `c`, and the header id
   * determines its slide.
   */
  lemma HeaderIdDistinct(s: string, t: string, e: string)
    ensures HeaderId(s) != CopiedId(e)
    ensures HeaderId(s) == HeaderId(t) ==> s == t
  {
    assert HeaderId(s)[0] == 't' && CopiedId(e)[0] == 'c';
    if HeaderId(s) == HeaderId(t) {
      assert CopiedId(s) == HeaderId(s)[|"title_for_"|..];
      assert CopiedId(t) == HeaderId(t)[|"title_for_"|..];
      CopiedIdInjective(s, t);
    }
  }

  /** The header text box's fixed size and position, in EMU. */
  const HeaderSize := Json("{'height': {'magnitude': 500000, 'unit': 'EMU'}, 'width': {'magnitude': 8500000, 'unit': 'EMU'}}")
  const HeaderTransform := Json("{'scaleX': 1, 'scaleY': 1, 'translateX': 300000, 'translateY': 200000, 'unit': 'EMU'}")

  /** The field masks the copies use. */
  const ShapeFields := "shapeBackgroundFill,outline,shadow"
  const StyleFields := "bold,italic,underline,strikethrough,fontFamily,fontSize,foregroundColor,backgroundColor"

  /** The header text: `Source: <deck name> (Slide <number>)`. */
  function ProvenanceText(rec: SlideRecord): string
  {
    SourcePrefix + rec.presentationName + " (Slide " + DecimalString(rec.slideNumber) + ")"
  }

  /** The address of the source slide in the Slides editor. */
  function SourceSlideUrl(rec: SlideRecord): string
  {
    EditUrlPrefix + rec.presentationId + "/edit#slide=id." + rec.slideId
  }

  /**
   * The header text carries the provenance prefix the update classifier
   * looks for, and the slide number in it reads back as the record's number.
   */
  lemma ProvenanceNamesSource(rec: SlideRecord)
    ensures StartsWith(ProvenanceText(rec), SourcePrefix)
    ensures var digits := DecimalString(rec.slideNumber);
            var t := ProvenanceText(rec);
            && t == SourcePrefix + rec.presentationName + " (Slide " + digits + ")"
            && DecimalValue(digits) == rec.slideNumber
  {
    StartsWithIsPrefix(ProvenanceText(rec), SourcePrefix);
    DecimalRoundTrip(rec.slideNumber);
  }

  /** The header link leads back to the source deck: its `/d/` id is the record's presentation id. */
  lemma SourceLinkNamesDeck(rec: SlideRecord)
    requires IsId(rec.presentationId)
    ensures PresentationIdOf(SourceSlideUrl(rec)) == Some(rec.presentationId)
  {
    var tail := "/edit#slide=id." + rec.slideId;
    assert SourceSlideUrl(rec) == EditUrlPrefix + rec.presentationId + tail;
    EditUrlRoundTrip(rec.presentationId, tail);
  }

  /**
   * The first four requests for a copied slide: a slide with a default
   * layout, a text box on it, the provenance text in the box, and a link to
   * the source slide over the whole text.
   */
  function HeaderRequests(rec: SlideRecord): seq<Request>
  {
    var newId := CopiedId(rec.slideId);
    var headerId := HeaderId(rec.slideId);
    [ CreateSlide(newId, None, None),
      CreateShape(headerId, "TEXT_BOX", ElementProperties(newId, Some(HeaderSize), Some(HeaderTransform))),
      InsertText(headerId, ProvenanceText(rec), None),
      UpdateTextStyle(headerId, TextStyle(Some(Link(SourceSlideUrl(rec))), None), "link") ]
  }

  /** The background copy: present exactly when the source page has a background fill. */
  function BackgroundRequests(newId: string, page: Page): seq<Request>
  {
    if page.slideBackgroundFill.Some? then
      [UpdatePageProperties(newId, page.slideBackgroundFill.value, "pageBackgroundFill")]
    else []
  }

  /** A text element whose run carries a non-empty style. */
  predicate IsStyledRun(te: TextElement)
  {
    te.textRun.Some? && !te.textRun.value.style.IsEmpty()
  }

  /** The style of the first styled run of `tes`, if there is one. */
  function FirstStyle(tes: seq<TextElement>): Option<TextStyle>
  {
    if tes == [] then None
    else if IsStyledRun(tes[0]) then Some(tes[0].textRun.value.style)
    else FirstStyle(tes[1..])
  }

  /**
   * `FirstStyle` finds a style exactly when some run is styled, and then it
   * is the style of the earliest styled run, which is never empty.
   */
  lemma {:induction false} FirstStyleIsEarliest(tes: seq<TextElement>)
    ensures FirstStyle(tes).None? <==> forall j :: 0 <= j < |tes| ==> !IsStyledRun(tes[j])
    ensures FirstStyle(tes).Some? ==>
              exists j :: 0 <= j < |tes| && IsStyledRun(tes[j]) && FirstStyle(tes).value == tes[j].textRun.value.style
                && forall i :: 0 <= i < j ==> !IsStyledRun(tes[i])
    ensures FirstStyle(tes).Some? ==> !FirstStyle(tes).value.IsEmpty()
  {
    if tes != [] && !IsStyledRun(tes[0]) {
      FirstStyleIsEarliest(tes[1..]);
      if FirstStyle(tes[1..]).Some? {
        var j :| 0 <= j < |tes[1..]| && IsStyledRun(tes[1..][j]) && FirstStyle(tes[1..]).value == tes[1..][j].textRun.value.style
                 && forall i :: 0 <= i < j ==> !IsStyledRun(tes[1..][i]);
        assert IsStyledRun(tes[j + 1]);
        forall i | 0 <= i < j + 1 ensures !IsStyledRun(tes[i]) {
          if i > 0 { assert tes[i] == tes[1..][i - 1]; }
        }
      } else {
        forall j | 0 <= j < |tes| ensures !IsStyledRun(tes[j]) {
          if j > 0 { assert tes[j] == tes[1..][j - 1]; }
        }
      }
    }
  }

  /** The text copy of a shape: its stripped text at index 0, then the first run style over all of it. */
  function TextRequests(id: string, e: PageElement): seq<Request>
  {
    if e.kind.ShapeKind? && e.kind.shape.text.Some? && TextOf(e) != "" then
      [InsertText(id, TextOf(e), Some(0))]
      + (match FirstStyle(TextElements(e))
         case Some(style) => [UpdateTextStyle(id, style, StyleFields)]
         case None => [])
    else []
  }

  /** A placeholder shape, which belongs to the layout and is never copied. */
  predicate IsPlaceholderShape(e: PageElement)
  {
    e.kind.ShapeKind? && e.kind.shape.placeholder.Some?
  }

  /**
   * The copy of one element onto the slide `newId`: nothing for a
   * placeholder or an element that is neither a shape nor an image; for a
   * shape, the shape with its geometry, its properties, and its text; for
   * an image, the image with its geometry.
   */
  function ElementRequests(newId: string, e: PageElement): seq<Request>
  {
    var id := CopiedId(e.objectId);
    var props := ElementProperties(newId, e.size, e.transform);
    match e.kind
    case ShapeKind(shape) =>
      if shape.placeholder.Some? then []
      else
        [CreateShape(id, if shape.shapeType.Some? then shape.shapeType.value else "RECTANGLE", props)]
        + (if shape.shapeProperties.Some? then [UpdateShapeProperties(id, shape.shapeProperties.value, ShapeFields)] else [])
        + TextRequests(id, e)
    case ImageKind(image) => [CreateImage(id, image.contentUrl, props)]
    case OtherKind => []
  }

  /** The copies of the elements `es`, in page order. */
  function ElementsRequests(newId: string, es: seq<PageElement>): seq<Request>
  {
    if es == [] then [] else ElementsRequests(newId, es[..|es| - 1]) + ElementRequests(newId, es[|es| - 1])
  }

  /** All requests for one selected record, given the result of fetching its page. */
  function SlideRequests(rec: SlideRecord, page: Option<Page>): seq<Request>
  {
    match page
    case None => []
    case Some(p) =>
      var newId := CopiedId(rec.slideId);
      HeaderRequests(rec) + (BackgroundRequests(newId, p) + ElementsRequests(newId, p.pageElements))
  }

  /** All transplant requests for `records`, in selection order. */
  function TransplantRequests(records: seq<SlideRecord>, fetch: (string, string) -> Option<Page>): seq<Request>
  {
    if records == [] then []
    else
      var rec := records[|records| - 1];
      TransplantRequests(records[..|records| - 1], fetch) + SlideRequests(rec, fetch(rec.presentationId, rec.slideId))
  }

  /** A request that creates or edits a page element, as opposed to a slide or a page. */
  predicate EditsElement(r: Request)
  {
    r.CreateShape? || r.UpdateShapeProperties? || r.InsertText? || r.UpdateTextStyle? || r.CreateImage?
  }

  /**
   * The copy of an element is empty exactly for placeholders and for
   * elements that are neither shapes nor images; every request of a copy
   * addresses the copied id, and whatever it creates goes on the new slide
   * with the source element's size and transform. An image becomes exactly
   * one `createImage` of its content URL.
   */
  lemma ElementCopy(newId: string, e: PageElement)
    ensures var rs := ElementRequests(newId, e);
            var id := CopiedId(e.objectId);
            var props := ElementProperties(newId, e.size, e.transform);
            && (rs == [] <==> IsPlaceholderShape(e) || e.kind.OtherKind?)
            && (forall r :: r in rs ==> r.objectId == id && EditsElement(r))
            && (forall r :: r in rs && (r.CreateShape? || r.CreateImage?) ==> r.properties == props)
            && (e.kind.ImageKind? ==> rs == [CreateImage(id, e.kind.image.contentUrl, props)])
  {
  }

  /**
   * The text copy of an element: the stripped text inserted at index 0
   * exactly when it is non-empty, then the earliest styled run's style
   * exactly when, in addition, some run is styled.
   */
  lemma TextCopy(id: string, e: PageElement)
    ensures var tx := TextRequests(id, e);
            var tes := TextElements(e);
            && |tx| <= 2
            && (tx != [] <==> TextOf(e) != "")
            && (tx != [] ==> tx[0] == InsertText(id, TextOf(e), Some(0)))
            && (|tx| == 2 <==> TextOf(e) != "" && exists j :: 0 <= j < |tes| && IsStyledRun(tes[j]))
            && (|tx| == 2 ==>
                  && tx[1].UpdateTextStyle? && tx[1].objectId == id && tx[1].fields == StyleFields
                  && !tx[1].style.IsEmpty()
                  && exists j :: 0 <= j < |tes| && IsStyledRun(tes[j]) && tx[1].style == tes[j].textRun.value.style
                       && forall i :: 0 <= i < j ==> !IsStyledRun(tes[i]))
  {
    TextOfIsStripped(e);
    FirstStyleIsEarliest(TextElements(e));
  }

  /**
   * The copy of a non-placeholder shape: first the shape itself, of its own
   * type or a rectangle; then its properties exactly when it has some; then
   * its text copy, and nothing else. Only that text copy inserts text or
   * styles it.
   */
  lemma ShapeCopy(newId: string, e: PageElement)
    requires e.kind.ShapeKind? && !IsPlaceholderShape(e)
    ensures var rs := ElementRequests(newId, e);
            var shape := e.kind.shape;
            var id := CopiedId(e.objectId);
            var tx := TextRequests(id, e);
            && rs[0] == CreateShape(id, if shape.shapeType.Some? then shape.shapeType.value else "RECTANGLE",
                                    ElementProperties(newId, e.size, e.transform))
            && (shape.shapeProperties.Some? <==> |rs| > 1 && rs[1].UpdateShapeProperties?)
            && (shape.shapeProperties.Some? ==> rs[1] == UpdateShapeProperties(id, shape.shapeProperties.value, ShapeFields))
            && |rs| == 1 + (if shape.shapeProperties.Some? then 1 else 0) + |tx|
            && rs[|rs| - |tx|..] == tx
            && forall j :: 0 <= j < |rs| - |tx| ==> !rs[j].InsertText? && !rs[j].UpdateTextStyle?
  {
    TextCopy(CopiedId(e.objectId), e);
  }

  /** The copy of one element resolves once the new slide exists. */
  lemma ElementCopyResolves(newId: string, e: PageElement)
    ensures Resolves(ElementRequests(newId, e), {newId})
  {
    var rs := ElementRequests(newId, e);
    forall i | 0 < i < |rs| ensures Needs(rs[i]) <= {newId} + CreatedBy(rs[..i]) {
      CreatedByIncludes(rs, 0, i);
    }
  }

  /** The copies of a page's elements resolve once the new slide exists, and each creates or edits an element. */
  lemma {:induction false} ElementsCopyResolves(newId: string, es: seq<PageElement>)
    ensures Resolves(ElementsRequests(newId, es), {newId})
    ensures forall r :: r in ElementsRequests(newId, es) ==> EditsElement(r)
    decreases |es|
  {
    if es != [] {
      var init := ElementsRequests(newId, es[..|es| - 1]);
      var last := ElementRequests(newId, es[|es| - 1]);
      ElementsCopyResolves(newId, es[..|es| - 1]);
      ElementCopyResolves(newId, es[|es| - 1]);
      ElementCopy(newId, es[|es| - 1]);
      ResolvesMonotone(last, {newId}, {newId} + CreatedBy(init));
      ResolvesAppend(init, last, {newId});
      forall r | r in init + last ensures EditsElement(r) {
        if r in init {
        } else {
          assert r in last;
        }
      }
    }
  }

  /**
   * A fetched slide's requests begin with the new slide, the header text
   * box on it, the provenance text and the link to the source slide; a
   * background update follows exactly when the source page has a
   * background fill, and it is the only page update. A failed fetch yields
   * no request.
   */
  lemma SlideCopyLayout(rec: SlideRecord, page: Option<Page>)
    ensures page.None? ==> SlideRequests(rec, page) == []
    ensures page.Some? ==>
              var rs := SlideRequests(rec, page);
              var newId := CopiedId(rec.slideId);
              var headerId := HeaderId(rec.slideId);
              var fill := page.value.slideBackgroundFill;
              && |rs| >= 4
              && rs[0] == CreateSlide(newId, None, None)
              && rs[1].CreateShape? && rs[1].objectId == headerId && rs[1].shapeType == "TEXT_BOX"
              && rs[1].properties.pageObjectId == newId
              && rs[2] == InsertText(headerId, ProvenanceText(rec), None)
              && rs[3] == UpdateTextStyle(headerId, TextStyle(Some(Link(SourceSlideUrl(rec))), None), "link")
              && (fill.Some? <==> exists j :: 4 <= j < |rs| && rs[j].UpdatePageProperties?)
              && (fill.Some? ==> rs[4] == UpdatePageProperties(newId, fill.value, "pageBackgroundFill"))
  {
    if page.Some? {
      var rs := SlideRequests(rec, page);
      var newId := CopiedId(rec.slideId);
      var bg := BackgroundRequests(newId, page.value);
      var els := ElementsRequests(newId, page.value.pageElements);
      ElementsCopyResolves(newId, page.value.pageElements);
      assert rs == HeaderRequests(rec) + (bg + els);
      forall j | 4 + |bg| <= j < |rs| ensures !rs[j].UpdatePageProperties? {
        assert rs[j] == els[j - 4 - |bg|];
        assert rs[j] in els;
      }
    }
  }

  /** The header resolves on its own and creates the new slide. */
  lemma HeaderResolves(rec: SlideRecord)
    ensures Resolves(HeaderRequests(rec), {})
    ensures CopiedId(rec.slideId) in CreatedBy(HeaderRequests(rec))
    ensures forall r :: r in HeaderRequests(rec) ==> !r.DeleteObject?
  {
    var header := HeaderRequests(rec);
    var newId := CopiedId(rec.slideId);
    var headerId := HeaderId(rec.slideId);
    forall i | 0 < i < |header| ensures Needs(header[i]) <= CreatedBy(header[..i]) {
      if i == 1 {
        CreatedByIncludes(header, 0, 1);
        assert Needs(header[1]) == {newId} == Creates(header[0]);
      } else {
        CreatedByIncludes(header, 1, i);
        assert Needs(header[i]) == {headerId} == Creates(header[1]);
      }
    }
    CreatedByIncludes(header, 0, 4);
    assert header[..4] == header;
  }

  /** The background and element copies resolve once the new slide exists. */
  lemma BodyResolves(newId: string, page: Page)
    ensures Resolves(BackgroundRequests(newId, page) + ElementsRequests(newId, page.pageElements), {newId})
  {
    var bg := BackgroundRequests(newId, page);
    var els := ElementsRequests(newId, page.pageElements);
    ElementsCopyResolves(newId, page.pageElements);
    ResolvesAppend(bg, els, {newId});
  }

  /** The background and element copies delete nothing. */
  lemma BodyDeletesNothing(newId: string, page: Page)
    ensures forall r :: r in BackgroundRequests(newId, page) + ElementsRequests(newId, page.pageElements) ==>
              !r.DeleteObject?
  {
    var bg := BackgroundRequests(newId, page);
    var els := ElementsRequests(newId, page.pageElements);
    ElementsCopyResolves(newId, page.pageElements);
    assert forall r :: r in bg ==> r.UpdatePageProperties?;
    assert forall r :: r in els ==> EditsElement(r);
  }

  /**
   * A fetched slide's requests are self-contained: everything they edit or
   * place things on is created earlier among them.
   */
  lemma SlideCopyResolves(rec: SlideRecord, page: Option<Page>)
    ensures Resolves(SlideRequests(rec, page), {})
    ensures forall r :: r in SlideRequests(rec, page) ==> !r.DeleteObject?
  {
    if page.Some? {
      var newId := CopiedId(rec.slideId);
      var header := HeaderRequests(rec);
      var body := BackgroundRequests(newId, page.value) + ElementsRequests(newId, page.value.pageElements);
      assert SlideRequests(rec, page) == header + body;
      BodyResolves(newId, page.value);
      BodyDeletesNothing(newId, page.value);
      HeaderResolves(rec);
      ResolvesMonotone(body, {newId}, {} + CreatedBy(header));
      ResolvesAppend(header, body, {});
    }
  }

  /**
   * All transplant requests together are self-contained and delete
   * nothing, so they can follow any batch of deletions.
   */
  lemma {:induction false} TransplantResolves(records: seq<SlideRecord>, fetch: (string, string) -> Option<Page>)
    ensures Resolves(TransplantRequests(records, fetch), {})
    ensures forall r :: r in TransplantRequests(records, fetch) ==> !r.DeleteObject?
    decreases |records|
  {
    if records != [] {
      var rec := records[|records| - 1];
      var init := TransplantRequests(records[..|records| - 1], fetch);
      var last := SlideRequests(rec, fetch(rec.presentationId, rec.slideId));
      TransplantResolves(records[..|records| - 1], fetch);
      SlideCopyResolves(rec, fetch(rec.presentationId, rec.slideId));
      ResolvesMonotone(last, {}, {} + CreatedBy(init));
      ResolvesAppend(init, last, {});
    }
  }

  /**
   * A fetched slide's copy creates its slide without a layout, so the new
   * slide gets the service's default layout and no placeholder of it is
   * mapped to an id the copy could write to.
   */
  lemma SlideCopyMapsNoPlaceholder(rec: SlideRecord, page: Option<Page>)
    ensures forall r :: r in SlideRequests(rec, page) && r.CreateSlide? ==> r.layout.None?
  {
    if page.Some? {
      var newId := CopiedId(rec.slideId);
      var bg := BackgroundRequests(newId, page.value);
      var els := ElementsRequests(newId, page.value.pageElements);
      ElementsCopyResolves(newId, page.value.pageElements);
      assert SlideRequests(rec, page) == HeaderRequests(rec) + (bg + els);
      assert forall r :: r in bg ==> r.UpdatePageProperties?;
      assert forall r :: r in els ==> EditsElement(r);
    }
  }

  /**
   * No transplant request maps a layout placeholder: the provenance text
   * and the link go only into the header text box created in the same
   * batch, never into a `TITLE` placeholder.
   */
  lemma {:induction false} TransplantMapsNoPlaceholder(records: seq<SlideRecord>, fetch: (string, string) -> Option<Page>)
    ensures forall r :: r in TransplantRequests(records, fetch) && r.CreateSlide? ==> r.layout.None?
    decreases |records|
  {
    if records != [] {
      var rec := records[|records| - 1];
      TransplantMapsNoPlaceholder(records[..|records| - 1], fetch);
      SlideCopyMapsNoPlaceholder(rec, fetch(rec.presentationId, rec.slideId));
    }
  }

  /**
   * The loop over one page's elements, appending each copy's requests as the
   * element is visited.
   */
  method CopyElements(newId: string, es: seq<PageElement>) returns (reqs: seq<Request>)
    ensures reqs == ElementsRequests(newId, es)
  {
    reqs := [];
    for j := 0 to |es|
      invariant reqs == ElementsRequests(newId, es[..j])
    {
      assert es[..j + 1][..j] == es[..j];
      var e := es[j];
      var more := CopyElement(newId, e);
      reqs := reqs + more;
    }
    assert es[..|es|] == es;
  }

  /** The requests for one element, built in the order the copy is assembled. */
  method CopyElement(newId: string, e: PageElement) returns (reqs: seq<Request>)
    ensures reqs == ElementRequests(newId, e)
  {
    reqs := [];
    if IsPlaceholderShape(e) {
      return;
    }
    var id := CopiedId(e.objectId);
    var props := ElementProperties(newId, e.size, e.transform);
    if e.kind.ShapeKind? {
      var shape := e.kind.shape;
      var shapeType := if shape.shapeType.Some? then shape.shapeType.value else "RECTANGLE";
      reqs := reqs + [CreateShape(id, shapeType, props)];
      if shape.shapeProperties.Some? {
        reqs := reqs + [UpdateShapeProperties(id, shape.shapeProperties.value, ShapeFields)];
      }
      if shape.text.Some? {
        var fullText := TextOf(e);
        if fullText != "" {
          reqs := reqs + [InsertText(id, fullText, Some(0))];
          var firstStyle := FindFirstStyle(shape.text.value);
          if firstStyle.Some? {
            reqs := reqs + [UpdateTextStyle(id, firstStyle.value, StyleFields)];
          }
        }
      }
    } else if e.kind.ImageKind? {
      reqs := reqs + [CreateImage(id, e.kind.image.contentUrl, props)];
    }
  }

  /** The scan for the first styled run. */
  method FindFirstStyle(tes: seq<TextElement>) returns (style: Option<TextStyle>)
    ensures style == FirstStyle(tes)
  {
    var j := 0;
    while j < |tes|
      invariant j <= |tes|
      invariant FirstStyle(tes[j..]) == FirstStyle(tes)
    {
      if IsStyledRun(tes[j]) {
        return Some(tes[j].textRun.value.style);
      }
      assert tes[j..][1..] == tes[j + 1..];
      j := j + 1;
    }
    return None;
  }

  /**
   * The transplant loop: for each selected record, fetch its page and, when
   * the fetch succeeds, append the header, background and element copies.
   */
  method QueueTransplants(records: seq<SlideRecord>, fetch: (string, string) -> Option<Page>)
    returns (reqs: seq<Request>)
    ensures reqs == TransplantRequests(records, fetch)
  {
    reqs := [];
    for n := 0 to |records|
      invariant reqs == TransplantRequests(records[..n], fetch)
    {
      var rec := records[n];
      var page := fetch(rec.presentationId, rec.slideId);
      assert records[..n + 1][..n] == records[..n];
      assert TransplantRequests(records[..n + 1], fetch) == reqs + SlideRequests(rec, page);
      if page.None? {
        continue;
      }
      var newId := CopiedId(rec.slideId);
      var copies := CopyElements(newId, page.value.pageElements);
      reqs := reqs + (HeaderRequests(rec) + (BackgroundRequests(newId, page.value) + copies));
    }
    assert records[..|records|] == records;
  }
}
