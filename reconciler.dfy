/**
 * Preparing the target deck before slides are transplanted into it.
 * Update mode keeps the first two slides and queues the deletion of every
 * later slide that the service itself generated earlier; create mode
 * queues the removal of the new deck's default slide and a title slide and
 * an agenda slide in its place.
 */
module Reconciler {
  import opened Wrappers
  import opened Text
  import opened Document
  import opened Requests

  /** The element is bound to a placeholder of type `TITLE` (not `CENTERED_TITLE`). */
  predicate IsTitlePlaceholder(e: PageElement)
  {
    e.kind.ShapeKind? && e.kind.shape.placeholder == Some("TITLE")
  }

  /** The position of the first `TITLE` placeholder in `es`, or `|es|` when there is none. */
  function FirstTitleIndex(es: seq<PageElement>): (k: nat)
    ensures k <= |es|
    ensures k < |es| ==> IsTitlePlaceholder(es[k])
    ensures forall j :: 0 <= j < k ==> !IsTitlePlaceholder(es[j])
  {
    if es == [] then 0
    else if IsTitlePlaceholder(es[0]) then 0
    else 1 + FirstTitleIndex(es[1..])
  }

  /** `next(... type == 'TITLE' ...)`: the slide's first `TITLE` placeholder, if any. */
  function TitleShape(slide: Page): Option<PageElement>
  {
    var k := FirstTitleIndex(slide.pageElements);
    if k < |slide.pageElements| then Some(slide.pageElements[k]) else None
  }

  /** A text element whose run's style carries a (truthy) link. */
  predicate IsLinkedRun(te: TextElement)
  {
    te.textRun.Some? && te.textRun.value.style.link.Some?
  }

  /** Some text element of `tes` is a linked run (Python's `any(...)`). */
  predicate AnyLinkedRun(tes: seq<TextElement>)
  {
    tes != [] && (IsLinkedRun(tes[0]) || AnyLinkedRun(tes[1..]))
  }

  /** Some text run of the element carries a link. */
  predicate HasLinkedRun(e: PageElement)
  {
    AnyLinkedRun(TextElements(e))
  }

  /**
   * A slide the service generated earlier: the text of its first `TITLE`
   * placeholder starts with `Source: ` and one of that placeholder's runs
   * carries a link. No other element of the slide is looked at.
   */
  predicate IsGenerated(slide: Page)
  {
    match TitleShape(slide)
    case None => false
    case Some(e) => StartsWith(TextOf(e), SourcePrefix) && HasLinkedRun(e)
  }

  /** `AnyLinkedRun` is "some run carries a link". */
  lemma {:induction false} AnyLinkedRunSpec(tes: seq<TextElement>)
    ensures AnyLinkedRun(tes) <==> exists j :: 0 <= j < |tes| && IsLinkedRun(tes[j])
  {
    if tes != [] {
      AnyLinkedRunSpec(tes[1..]);
      if exists j :: 0 <= j < |tes| && IsLinkedRun(tes[j]) {
        var j :| 0 <= j < |tes| && IsLinkedRun(tes[j]);
        if j > 0 {
          assert IsLinkedRun(tes[1..][j - 1]);
        }
      }
      if exists j :: 0 <= j < |tes[1..]| && IsLinkedRun(tes[1..][j]) {
        var j :| 0 <= j < |tes[1..]| && IsLinkedRun(tes[1..][j]);
        assert IsLinkedRun(tes[j + 1]);
      }
    }
  }

  /**
   * The classifier, stated outright: a slide counts as generated exactly
   * when it has a `TITLE` placeholder and the first one's text starts with
   * `Source: ` and one of that placeholder's runs carries a link.
   */
  lemma IsGeneratedSpec(slide: Page)
    ensures var es := slide.pageElements;
            IsGenerated(slide) <==>
              exists k :: 0 <= k < |es| && IsTitlePlaceholder(es[k])
                          && (forall j :: 0 <= j < k ==> !IsTitlePlaceholder(es[j]))
                          && StartsWith(TextOf(es[k]), SourcePrefix)
                          && exists j :: 0 <= j < |TextElements(es[k])| && IsLinkedRun(TextElements(es[k])[j])
  {
    var es := slide.pageElements;
    var f := FirstTitleIndex(es);
    if f < |es| {
      AnyLinkedRunSpec(TextElements(es[f]));
    }
    forall k | 0 <= k < |es| && IsTitlePlaceholder(es[k]) && (forall j :: 0 <= j < k ==> !IsTitlePlaceholder(es[j]))
      ensures k == f
    {
      assert !(f < k) && !(k < f);
    }
  }

  /**
   * The indices `k` with `2 <= k < n` of the slides that `keep` accepts, in
   * increasing order: the slides the update loop collects once it has seen
   * the first `n` slides, with `keep` the classifier.
   */
  function Flagged(slides: seq<Page>, n: nat, keep: Page -> bool): (ks: seq<nat>)
    requires n <= |slides|
    ensures forall j :: 0 <= j < |ks| ==> 2 <= ks[j] < n && keep(slides[ks[j]])
    ensures forall j :: 0 < j < |ks| ==> ks[j - 1] < ks[j]
    ensures forall k :: 2 <= k < n && keep(slides[k]) ==> k in ks
  {
    if n == 0 then []
    else
      var before := Flagged(slides, n - 1, keep);
      FlaggedStep(slides, n, keep, before);
      if n - 1 >= 2 && keep(slides[n - 1]) then before + [n - 1] else before
  }

  /** Visiting slide `n - 1` extends the selection of the slides before it. */
  lemma FlaggedStep(slides: seq<Page>, n: nat, keep: Page -> bool, before: seq<nat>)
    requires 1 <= n <= |slides|
    requires forall j :: 0 <= j < |before| ==> 2 <= before[j] < n - 1 && keep(slides[before[j]])
    requires forall j :: 0 < j < |before| ==> before[j - 1] < before[j]
    requires forall k :: 2 <= k < n - 1 && keep(slides[k]) ==> k in before
    ensures var ks := if n - 1 >= 2 && keep(slides[n - 1]) then before + [n - 1] else before;
            && (forall j :: 0 <= j < |ks| ==> 2 <= ks[j] < n && keep(slides[ks[j]]))
            && (forall j :: 0 < j < |ks| ==> ks[j - 1] < ks[j])
            && (forall k :: 2 <= k < n && keep(slides[k]) ==> k in ks)
  {
    if n - 1 >= 2 && keep(slides[n - 1]) {
      var ks := before + [n - 1];
      forall j | 0 <= j < |ks| ensures 2 <= ks[j] < n && keep(slides[ks[j]]) {
        if j < |before| {
          assert ks[j] == before[j];
        }
      }
      forall j | 0 < j < |ks| ensures ks[j - 1] < ks[j] {
        assert ks[j - 1] == before[j - 1];
      }
      forall k | 2 <= k < n && keep(slides[k]) ensures k in ks {
        if k < n - 1 {
          assert k in before;
        }
      }
    }
  }

  /** The slide indices of update mode's deletions among the first `n` slides. */
  function StaleIndices(slides: seq<Page>, n: nat): seq<nat>
    requires n <= |slides|
  {
    Flagged(slides, n, IsGenerated)
  }

  /** The deletion requests of update mode for a deck whose slides are `slides`. */
  predicate DeletesStale(reqs: seq<Request>, slides: seq<Page>)
  {
    var ks := StaleIndices(slides, |slides|);
    |reqs| == |ks| && forall j :: 0 <= j < |ks| ==> reqs[j] == DeleteObject(slides[ks[j]].objectId)
  }

  /** The deletions update mode queues, as one value. */
  function StaleDeletions(slides: seq<Page>): (reqs: seq<Request>)
    ensures DeletesStale(reqs, slides)
  {
    var ks := StaleIndices(slides, |slides|);
    seq(|ks|, j requires 0 <= j < |ks| => DeleteObject(slides[ks[j]].objectId))
  }

  /** The deletions of a deck's stale slides are determined by the deck. */
  lemma DeletesStaleUnique(a: seq<Request>, b: seq<Request>, slides: seq<Page>)
    requires DeletesStale(a, slides) && DeletesStale(b, slides)
    ensures a == b
  {
  }

  /** The ids of the slides at the indices `ks`. */
  function IdsAt(slides: seq<Page>, ks: seq<nat>): seq<string>
    requires forall j :: 0 <= j < |ks| ==> ks[j] < |slides|
  {
    if ks == [] then [] else IdsAt(slides, ks[..|ks| - 1]) + [slides[ks[|ks| - 1]].objectId]
  }

  /** `IdsAt` picks the id of each index in turn. */
  lemma {:induction false} IdsAtIndex(slides: seq<Page>, ks: seq<nat>)
    requires forall j :: 0 <= j < |ks| ==> ks[j] < |slides|
    ensures |IdsAt(slides, ks)| == |ks|
    ensures forall j :: 0 <= j < |ks| ==> IdsAt(slides, ks)[j] == slides[ks[j]].objectId
  {
    if ks != [] {
      IdsAtIndex(slides, ks[..|ks| - 1]);
    }
  }

  /**
   * The update-mode loop: the ids of the generated slides after the first
   * two are collected in slide order, then one `deleteObject` is queued for
   * each.
   */
  method QueueStaleSlideDeletions(slides: seq<Page>) returns (reqs: seq<Request>)
    ensures DeletesStale(reqs, slides)
  {
    var slidesToDelete: seq<string> := [];
    for i := 0 to |slides|
      invariant slidesToDelete == IdsAt(slides, StaleIndices(slides, i))
    {
      StaleIdsStep(slides, i);
      if i < 2 {
        continue;
      }
      if IsGenerated(slides[i]) {
        slidesToDelete := slidesToDelete + [slides[i].objectId];
      }
    }
    IdsAtIndex(slides, StaleIndices(slides, |slides|));
    reqs := QueueDeletions(slidesToDelete);
  }

  /** Visiting slide `i` appends its id to the collected ids exactly when it is stale. */
  lemma StaleIdsStep(slides: seq<Page>, i: nat)
    requires i < |slides|
    ensures IdsAt(slides, StaleIndices(slides, i + 1)) ==
            if i >= 2 && IsGenerated(slides[i]) then IdsAt(slides, StaleIndices(slides, i)) + [slides[i].objectId]
            else IdsAt(slides, StaleIndices(slides, i))
  {
    var ks := StaleIndices(slides, i);
    if i >= 2 && IsGenerated(slides[i]) {
      assert (ks + [i])[..|ks|] == ks;
    }
  }

  /** One `deleteObject` request per id, in order. */
  method QueueDeletions(ids: seq<string>) returns (reqs: seq<Request>)
    ensures |reqs| == |ids|
    ensures forall m :: 0 <= m < |ids| ==> reqs[m] == DeleteObject(ids[m])
  {
    reqs := [];
    for j := 0 to |ids|
      invariant |reqs| == j
      invariant forall m :: 0 <= m < j ==> reqs[m] == DeleteObject(ids[m])
    {
      reqs := reqs + [DeleteObject(ids[j])];
    }
  }

  /**
   * The update policy: slides 0 and 1 are never selected, and a later slide
   * is selected exactly when the classifier accepts it; the selection is in
   * slide order. With `keep == IsGenerated` these are update mode's
   * deletions.
   */
  lemma FlaggedPolicy(slides: seq<Page>, keep: Page -> bool, k: nat)
    requires k < |slides|
    ensures k in Flagged(slides, |slides|, keep) <==> (k >= 2 && keep(slides[k]))
  {
    var ks := Flagged(slides, |slides|, keep);
    if k >= 2 && keep(slides[k]) {
    } else {
      forall j | 0 <= j < |ks| ensures ks[j] != k {
        assert 2 <= ks[j] && keep(slides[ks[j]]);
      }
    }
  }

  /** Every queued deletion targets a slide of the deck being updated. */
  lemma StaleDeletionsResolve(slides: seq<Page>, reqs: seq<Request>)
    requires DeletesStale(reqs, slides)
    ensures DeletionsFirst(reqs)
    ensures Resolves(reqs, set s | s in slides :: s.objectId)
  {
    var ks := StaleIndices(slides, |slides|);
    var ids := set s | s in slides :: s.objectId;
    forall i | 0 <= i < |reqs| ensures Needs(reqs[i]) <= ids + CreatedBy(reqs[..i]) {
      assert slides[ks[i]] in slides;
    }
  }

  const TitleSlideId := "title_slide_01"
  const TitleShapeId := "title_shape_01"
  const SubtitleShapeId := "subtitle_shape_01"
  const AgendaSlideId := "agenda_slide_01"
  const AgendaTitleShapeId := "agenda_title_shape_01"
  const AgendaBodyShapeId := "agenda_body_shape_01"
  const SubtitleText := "Generated by Gemini Code Assist"

  /**
   * The create-mode requests: delete the new deck's default slide, then a
   * title slide at index 0 holding the presentation title and the fixed
   * subtitle, then an agenda slide at index 1 holding "Agenda" and the
   * generated agenda text.
   */
  function SeedRequests(defaultSlideId: string, presentationTitle: string, agenda: string): seq<Request>
  {
    [ DeleteObject(defaultSlideId),
      CreateSlide(TitleSlideId, Some(0), Some(LayoutReference("TITLE",
        [PlaceholderIdMapping("CENTERED_TITLE", TitleShapeId), PlaceholderIdMapping("SUBTITLE", SubtitleShapeId)]))),
      InsertText(TitleShapeId, presentationTitle, None),
      InsertText(SubtitleShapeId, SubtitleText, None),
      CreateSlide(AgendaSlideId, Some(1), Some(LayoutReference("TITLE_AND_BODY",
        [PlaceholderIdMapping("TITLE", AgendaTitleShapeId), PlaceholderIdMapping("BODY", AgendaBodyShapeId)]))),
      InsertText(AgendaTitleShapeId, "Agenda", None),
      InsertText(AgendaBodyShapeId, agenda, None) ]
  }

  /**
   * The seed is seven requests, its only deletion comes first, and its two
   * slides go to indices 0 and 1.
   */
  lemma SeedIsWellOrdered(defaultSlideId: string, presentationTitle: string, agenda: string)
    ensures var rs := SeedRequests(defaultSlideId, presentationTitle, agenda);
            && |rs| == 7 && rs[0] == DeleteObject(defaultSlideId) && DeletionsFirst(rs)
            && rs[1].CreateSlide? && rs[1].insertionIndex == Some(0)
            && rs[4].CreateSlide? && rs[4].insertionIndex == Some(1)
  {
  }

  /**
   * Every text of the seed is inserted into a placeholder that an earlier
   * `createSlide` of the seed mapped: the seed resolves against the
   * default slide alone.
   */
  lemma SeedResolves(defaultSlideId: string, presentationTitle: string, agenda: string)
    ensures Resolves(SeedRequests(defaultSlideId, presentationTitle, agenda), {defaultSlideId})
  {
    var rs := SeedRequests(defaultSlideId, presentationTitle, agenda);
    var title := PlaceholderIdMapping("CENTERED_TITLE", TitleShapeId);
    var subtitle := PlaceholderIdMapping("SUBTITLE", SubtitleShapeId);
    assert MappedIds([title, subtitle]) == {TitleShapeId, SubtitleShapeId} by {
      assert [title, subtitle][0] == title && [title, subtitle][1] == subtitle;
    }
    var agendaTitle := PlaceholderIdMapping("TITLE", AgendaTitleShapeId);
    var body := PlaceholderIdMapping("BODY", AgendaBodyShapeId);
    assert MappedIds([agendaTitle, body]) == {AgendaTitleShapeId, AgendaBodyShapeId} by {
      assert [agendaTitle, body][0] == agendaTitle && [agendaTitle, body][1] == body;
    }
    forall i | 0 <= i < |rs| ensures Needs(rs[i]) <= {defaultSlideId} + CreatedBy(rs[..i]) {
      if i == 2 || i == 3 {
        CreatedByIncludes(rs, 1, i);
      } else if i == 5 || i == 6 {
        CreatedByIncludes(rs, 4, i);
      }
    }
  }
}
