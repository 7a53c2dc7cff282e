/**
 * The slide summariser (`extract_slides_from_presentation`): one title
 * record per slide that has a non-empty title, numbered by the slide's
 * 1-based position in its deck, and the candidate pool built from the
 * records of every deck in folder-listing order.
 */
module Summarizer {
  import opened Wrappers
  import opened Text
  import opened Document

  /** The record kept for one titled slide. */
  datatype SlideRecord = SlideRecord(title: string, slideId: string, presentationId: string,
                                     presentationName: string, slideNumber: nat)

  /** A deck to summarise: the fetched document and its name in the folder listing. */
  datatype Deck = Deck(presentation: Presentation, name: string)

  /** The element is bound to a `TITLE`, `CENTERED_TITLE` or `SUBTITLE` placeholder. */
  predicate IsTitleSource(e: PageElement)
  {
    e.kind.ShapeKind? && e.kind.shape.placeholder.Some?
    && e.kind.shape.placeholder.value in {"TITLE", "CENTERED_TITLE", "SUBTITLE"}
  }

  /**
   * The inner loop over a slide's elements: `title` is overwritten by the
   * text of every title source met, so the last one wins.
   */
  function ScanTitle(es: seq<PageElement>, title: string): string
  {
    if es == [] then title
    else ScanTitle(es[1..], if IsTitleSource(es[0]) then TextOf(es[0]) else title)
  }

  /** The title the summariser reads off a slide (`''` when it has no title source). */
  function SlideTitle(slide: Page): string
  {
    ScanTitle(slide.pageElements, "")
  }

  /**
   * The scan ends with the text of the LAST title source, even when that
   * text is empty and an earlier one was not; with no title source it ends
   * with the value it started from.
   */
  lemma {:induction false} ScanTitleIsLast(es: seq<PageElement>, title: string)
    ensures (forall k :: 0 <= k < |es| ==> !IsTitleSource(es[k])) ==> ScanTitle(es, title) == title
    ensures forall k :: 0 <= k < |es| && IsTitleSource(es[k]) && (forall j :: k < j < |es| ==> !IsTitleSource(es[j]))
                        ==> ScanTitle(es, title) == TextOf(es[k])
  {
    if es != [] {
      var next := if IsTitleSource(es[0]) then TextOf(es[0]) else title;
      ScanTitleIsLast(es[1..], next);
      forall k | 0 < k < |es| && IsTitleSource(es[k]) && (forall j :: k < j < |es| ==> !IsTitleSource(es[j]))
        ensures ScanTitle(es, title) == TextOf(es[k])
      {
        assert es[1..][k - 1] == es[k];
      }
    }
  }

  /** A slide's title is the text of its last title source, or `''` when it has none. */
  lemma SlideTitleIsLastTitleSource(slide: Page)
    ensures (forall k :: 0 <= k < |slide.pageElements| ==> !IsTitleSource(slide.pageElements[k]))
            ==> SlideTitle(slide) == ""
    ensures forall k :: 0 <= k < |slide.pageElements| && IsTitleSource(slide.pageElements[k])
                        && (forall j :: k < j < |slide.pageElements| ==> !IsTitleSource(slide.pageElements[j]))
                        ==> SlideTitle(slide) == TextOf(slide.pageElements[k])
  {
    ScanTitleIsLast(slide.pageElements, "");
  }

  /** The record of `slides[k]` in deck `p` named `name`. */
  predicate DescribesSlide(r: SlideRecord, p: Presentation, name: string)
  {
    && 1 <= r.slideNumber <= |p.slides|
    && r.title == SlideTitle(p.slides[r.slideNumber - 1])
    && r.title != ""
    && r.slideId == p.slides[r.slideNumber - 1].objectId
    && r.presentationId == p.presentationId
    && r.presentationName == name
  }

  /** The outer loop from slide index `i` on. */
  function ExtractFrom(p: Presentation, name: string, i: nat): (rs: seq<SlideRecord>)
    requires i <= |p.slides|
    ensures |rs| <= |p.slides| - i
    ensures forall m :: 0 <= m < |rs| ==> DescribesSlide(rs[m], p, name) && i < rs[m].slideNumber
    ensures forall m :: 0 < m < |rs| ==> rs[m - 1].slideNumber < rs[m].slideNumber
    decreases |p.slides| - i
  {
    if i == |p.slides| then []
    else
      var title := SlideTitle(p.slides[i]);
      var rest := ExtractFrom(p, name, i + 1);
      if title != "" then [SlideRecord(title, p.slides[i].objectId, p.presentationId, name, i + 1)] + rest
      else rest
  }

  /** Every titled slide from index `i` on has a record. */
  lemma {:induction false} ExtractFromComplete(p: Presentation, name: string, i: nat, k: nat)
    requires i <= k < |p.slides| && SlideTitle(p.slides[k]) != ""
    ensures exists m :: 0 <= m < |ExtractFrom(p, name, i)| && ExtractFrom(p, name, i)[m].slideNumber == k + 1
    decreases k - i
  {
    var rs := ExtractFrom(p, name, i);
    var rest := ExtractFrom(p, name, i + 1);
    if k == i {
      assert rs[0].slideNumber == k + 1;
    } else {
      ExtractFromComplete(p, name, i + 1, k);
      var m :| 0 <= m < |rest| && rest[m].slideNumber == k + 1;
      if SlideTitle(p.slides[i]) != "" {
        assert rs[m + 1] == rest[m];
      } else {
        assert rs[m] == rest[m];
      }
    }
  }

  /** Slide numbers strictly increase along the records. */
  lemma {:induction false} ExtractFromIncreasing(p: Presentation, name: string, i: nat)
    requires i <= |p.slides|
    ensures var rs := ExtractFrom(p, name, i);
            forall m, n :: 0 <= m < n < |rs| ==> rs[m].slideNumber < rs[n].slideNumber
    decreases |p.slides| - i
  {
    var rs := ExtractFrom(p, name, i);
    forall m, n | 0 <= m < n < |rs| ensures rs[m].slideNumber < rs[n].slideNumber {
      var j := m;
      while j < n
        invariant m <= j <= n
        invariant rs[m].slideNumber <= rs[j].slideNumber
        invariant j > m ==> rs[m].slideNumber < rs[j].slideNumber
      {
        j := j + 1;
      }
    }
  }

  /**
   * `extract_slides_from_presentation`: one record per slide whose title is
   * non-empty, in slide order, each carrying the slide's 1-based number, its
   * id, the deck's id and the deck's name.
   */
  function ExtractSlides(p: Presentation, name: string): (rs: seq<SlideRecord>)
    ensures |rs| <= |p.slides|
    ensures forall m :: 0 <= m < |rs| ==> DescribesSlide(rs[m], p, name)
    ensures forall m, n :: 0 <= m < n < |rs| ==> rs[m].slideNumber < rs[n].slideNumber
    ensures forall k :: 0 <= k < |p.slides| && SlideTitle(p.slides[k]) != ""
                        ==> exists m :: 0 <= m < |rs| && rs[m].slideNumber == k + 1
  {
    var rs := ExtractFrom(p, name, 0);
    ExtractFromIncreasing(p, name, 0);
    forall k | 0 <= k < |p.slides| && SlideTitle(p.slides[k]) != ""
      ensures exists m :: 0 <= m < |rs| && rs[m].slideNumber == k + 1
    {
      ExtractFromComplete(p, name, 0, k);
    }
    rs
  }

  /** The candidate pool: every deck's records appended in listing order. */
  function Pool(decks: seq<Deck>): (pool: seq<SlideRecord>)
    ensures forall m :: 0 <= m < |pool| ==> pool[m].title != ""
  {
    if decks == [] then []
    else
      var last := decks[|decks| - 1];
      Pool(decks[..|decks| - 1]) + ExtractSlides(last.presentation, last.name)
  }

  /** None of the deck's slides has a title. */
  predicate Untitled(p: Presentation)
  {
    forall k :: 0 <= k < |p.slides| ==> SlideTitle(p.slides[k]) == ""
  }

  /** A deck contributes no record exactly when none of its slides has a title. */
  lemma ExtractSlidesEmpty(p: Presentation, name: string)
    ensures ExtractSlides(p, name) == [] <==> Untitled(p)
  {
    var rs := ExtractSlides(p, name);
    if rs != [] {
      assert DescribesSlide(rs[0], p, name);
    }
  }

  /** All slides of all decks are untitled. */
  predicate NoTitledSlide(decks: seq<Deck>)
  {
    forall d :: 0 <= d < |decks| ==> Untitled(decks[d].presentation)
  }

  /** The pool is empty exactly when no deck has a titled slide. */
  lemma {:induction false} PoolEmpty(decks: seq<Deck>)
    ensures Pool(decks) == [] <==> NoTitledSlide(decks)
  {
    if decks != [] {
      var init, last := decks[..|decks| - 1], decks[|decks| - 1];
      PoolEmpty(init);
      ExtractSlidesEmpty(last.presentation, last.name);
      NoTitledSlideSplit(decks);
    }
  }

  /** No deck has a titled slide exactly when that holds of all but the last, and of the last. */
  lemma NoTitledSlideSplit(decks: seq<Deck>)
    requires decks != []
    ensures NoTitledSlide(decks) <==> NoTitledSlide(decks[..|decks| - 1]) && Untitled(decks[|decks| - 1].presentation)
  {
    var init := decks[..|decks| - 1];
    assert forall d :: 0 <= d < |init| ==> init[d] == decks[d];
  }
}
