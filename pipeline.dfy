/**
 * `generate_presentation` with its outside world passed in: the payload,
 * the decks of the source folder as fetched, the oracle's answers, the
 * opening of the deck to update, the creation of a titled new deck, and the
 * page fetch. The handler either rejects the request with a status and a
 * message, or ends with the batch of requests it submits and the response
 * it returns.
 */
module Pipeline {
  import opened Wrappers
  import opened Text
  import opened Document
  import opened Summarizer
  import opened Payload
  import opened Matching
  import opened Requests
  import opened Reconciler
  import opened Transplant

  /** The oracle's slide selection: the parsed title list, or the raw text that did not parse. */
  datatype Answer = Parsed(titles: seq<string>) | Unparseable(raw: string)

  /** A handled request: the response fields and the batch submitted to the target deck. */
  datatype Outcome = Outcome(message: string, presentationId: string, presentationUrl: string,
                             requests: seq<Request>)

  const FolderUrlMessage := "Error: Invalid Google Drive Folder URL format."
  const NoTitlesMessage := "Error: Could not find any slides with titles in the provided presentations."
  const UpdateUrlMessage := "Error: Invalid 'slides_to_update' URL format."
  const OpenFailedMessage := "Error: Could not access presentation to update. "
  /** Indexing the slides of a new deck that has none raises an `IndexError`, reported by the catch-all handler. */
  const NoDefaultSlideMessage := "An unexpected error occurred: list index out of range"

  function EmptyFolderMessage(folderId: string): string
  {
    "Error: No presentations or valid shortcuts to presentations found in folder '" + folderId + "'."
  }

  function NonJsonMessage(raw: string): string
  {
    "Error: Gemini API returned a non-JSON response: '" + raw + "'."
  }

  /** The address returned for a newly created deck. */
  function NewDeckUrl(presentationId: string): string
  {
    EditUrlPrefix + presentationId + "/edit"
  }

  /** The ids of a deck's slides. */
  function SlideIds(p: Presentation): set<string>
  {
    set s | s in p.slides :: s.objectId
  }

  /**
   * What the handler does, as one value. `decks` are the presentations the
   * folder listing resolved, each fetched; `answer` and `agenda` are the
   * oracle's replies; `open` opens the deck named by an id, failing with an
   * error text; `create` makes a new deck with the given title; `fetch`
   * reads a page of a source deck.
   */
  function Generate(payload: Option<Fields>, decks: seq<Deck>, answer: Answer, agenda: string,
                    open: string -> Result<Presentation, string>, create: string -> Presentation,
                    fetch: (string, string) -> Option<Page>): Result<Outcome, Rejection>
  {
    match ReadJob(payload)
    case Failure(rejection) => Failure(rejection)
    case Success(job) =>
      match FolderId(job.sourceFolderUrl)
      case None => Failure(Rejection(400, FolderUrlMessage))
      case Some(folderId) =>
        if decks == [] then Failure(Rejection(400, EmptyFolderMessage(folderId)))
        else if Pool(decks) == [] then Failure(Rejection(400, NoTitlesMessage))
        else match answer
          case Unparseable(raw) => Failure(Rejection(500, NonJsonMessage(raw)))
          case Parsed(titles) => Assemble(job, Match(titles, Pool(decks)), agenda, open, create, fetch)
  }

  /**
   * The part of the handler after the selection: the update flow's or the
   * create flow's requests, then the transplants of the selected records.
   */
  function Assemble(job: Job, selected: seq<SlideRecord>, agenda: string,
                    open: string -> Result<Presentation, string>, create: string -> Presentation,
                    fetch: (string, string) -> Option<Page>): Result<Outcome, Rejection>
  {
    var transplants := TransplantRequests(selected, fetch);
    match job.slidesToUpdate
    case Some(url) =>
      (match PresentationIdOf(url)
       case None => Failure(Rejection(400, UpdateUrlMessage))
       case Some(id) =>
         match open(id)
         case Failure(err) => Failure(Rejection(403, OpenFailedMessage + err))
         case Success(deck) =>
           Success(Outcome("Presentation updated successfully", id, url, StaleDeletions(deck.slides) + transplants)))
    case None =>
      var created := create(job.presentationTitle);
      if created.slides == [] then Failure(Rejection(500, NoDefaultSlideMessage))
      else
        Success(Outcome("Presentation created successfully", created.presentationId,
                        NewDeckUrl(created.presentationId),
                        SeedRequests(created.slides[0].objectId, job.presentationTitle, agenda) + transplants))
  }

  /**
   * Appending the transplants to a batch keeps its deletions first and
   * keeps it resolved against the same existing ids.
   */
  lemma TransplantsAppend(head: seq<Request>, existing: set<string>, selected: seq<SlideRecord>,
                          fetch: (string, string) -> Option<Page>)
    requires DeletionsFirst(head) && Resolves(head, existing)
    ensures var rs := head + TransplantRequests(selected, fetch);
            && DeletionsFirst(rs) && Resolves(rs, existing)
            && forall j :: |head| <= j < |rs| ==> !rs[j].DeleteObject?
  {
    var tail := TransplantRequests(selected, fetch);
    var rs := head + tail;
    TransplantResolves(selected, fetch);
    ResolvesMonotone(tail, {}, existing + CreatedBy(head));
    ResolvesAppend(head, tail, existing);
    forall j | |head| <= j < |rs| ensures !rs[j].DeleteObject? {
      assert rs[j] == tail[j - |head|];
    }
  }

  /** The HTTP status of the handler's response: 200 for a handled request. */
  function Status(r: Result<Outcome, Rejection>): int
  {
    match r
    case Success(_) => 200
    case Failure(rejection) => rejection.status
  }

  /**
   * The checks before the selection pass: the payload carries the required
   * fields, the folder URL has a folder id, the folder holds decks, and
   * some slide of some deck has a title.
   */
  predicate Admitted(payload: Option<Fields>, decks: seq<Deck>)
  {
    match ReadJob(payload)
    case Failure(_) => false
    case Success(job) => FolderId(job.sourceFolderUrl).Some? && decks != [] && !NoTitledSlide(decks)
  }

  /** The update URL carries no presentation id. */
  predicate BadUpdateUrl(job: Job)
  {
    match job.slidesToUpdate
    case None => false
    case Some(url) => PresentationIdOf(url).None?
  }

  /** The deck named by the update URL cannot be opened. */
  predicate CannotOpen(job: Job, open: string -> Result<Presentation, string>)
  {
    match job.slidesToUpdate
    case None => false
    case Some(url) =>
      match PresentationIdOf(url)
      case None => false
      case Some(id) => open(id).Failure?
  }

  /** In create mode, the new deck has no slide to replace. */
  predicate NoDefaultSlide(job: Job, create: string -> Presentation)
  {
    job.slidesToUpdate.None? && create(job.presentationTitle).slides == []
  }

  /**
   * The handler's stages: a request that fails a check before the selection
   * is rejected with 400, an unparseable selection with 500, and any other
   * request is what its job and the selection of its titles from the pool
   * assemble to.
   */
  lemma RejectionCases(payload: Option<Fields>, decks: seq<Deck>, answer: Answer, agenda: string,
                       open: string -> Result<Presentation, string>, create: string -> Presentation,
                       fetch: (string, string) -> Option<Page>)
    ensures !Admitted(payload, decks) ==> Status(Generate(payload, decks, answer, agenda, open, create, fetch)) == 400
    ensures Admitted(payload, decks) && answer.Unparseable? ==>
              Status(Generate(payload, decks, answer, agenda, open, create, fetch)) == 500
    ensures Admitted(payload, decks) && answer.Parsed? ==>
              && ReadJob(payload).Success? && Pool(decks) != []
              && Generate(payload, decks, answer, agenda, open, create, fetch)
                 == Assemble(ReadJob(payload).value, Match(answer.titles, Pool(decks)), agenda, open, create, fetch)
  {
    PoolEmpty(decks);
  }

  /**
   * After the selection, the handler fails exactly when the update URL has
   * no presentation id (400), the deck to update cannot be opened (403), or
   * the new deck has no slide (500).
   */
  lemma AssembleCases(job: Job, selected: seq<SlideRecord>, agenda: string,
                      open: string -> Result<Presentation, string>, create: string -> Presentation,
                      fetch: (string, string) -> Option<Page>)
    ensures var s := Status(Assemble(job, selected, agenda, open, create, fetch));
            && (s == 400 <==> BadUpdateUrl(job))
            && (s == 403 <==> CannotOpen(job, open))
            && (s == 500 <==> NoDefaultSlide(job, create))
            && (s == 200 <==> !BadUpdateUrl(job) && !CannotOpen(job, open) && !NoDefaultSlide(job, create))
  {
  }

  /**
   * An update replaces the stale generated slides of the deck named by the
   * update URL: the batch is that deck's stale-slide deletions followed by
   * the transplants of the selection, its deletions come first, and it
   * resolves against the deck's own slides. The response names that deck
   * and echoes the URL.
   */
  lemma UpdateBatch(job: Job, selected: seq<SlideRecord>, agenda: string,
                    open: string -> Result<Presentation, string>, create: string -> Presentation,
                    fetch: (string, string) -> Option<Page>)
    requires Assemble(job, selected, agenda, open, create, fetch).Success? && job.slidesToUpdate.Some?
    ensures var out := Assemble(job, selected, agenda, open, create, fetch).value;
            && PresentationIdOf(job.slidesToUpdate.value) == Some(out.presentationId)
            && out.presentationUrl == job.slidesToUpdate.value
            && open(out.presentationId).Success?
            && var deck := open(out.presentationId).value;
               var k := |StaleIndices(deck.slides, |deck.slides|)|;
               && k <= |out.requests|
               && DeletesStale(out.requests[..k], deck.slides)
               && out.requests[k..] == TransplantRequests(selected, fetch)
               && DeletionsFirst(out.requests)
               && Resolves(out.requests, SlideIds(deck))
  {
    var out := Assemble(job, selected, agenda, open, create, fetch).value;
    var deck := open(out.presentationId).value;
    var dels := StaleDeletions(deck.slides);
    StaleDeletionsResolve(deck.slides, dels);
    TransplantsAppend(dels, SlideIds(deck), selected, fetch);
    assert out.requests == dels + TransplantRequests(selected, fetch);
    assert out.requests[..|dels|] == dels;
  }

  /**
   * A creation makes a deck titled with the job's presentation title and
   * seeds it: the batch starts with the seven seed
   * requests over the new deck's default slide, the transplants of the
   * selection follow, its only deletion is the first request, and it
   * resolves against the new deck's slides. The returned address names the
   * new deck, so it can be passed back as the update URL.
   */
  lemma CreateBatch(job: Job, selected: seq<SlideRecord>, agenda: string,
                    open: string -> Result<Presentation, string>, create: string -> Presentation,
                    fetch: (string, string) -> Option<Page>)
    requires Assemble(job, selected, agenda, open, create, fetch).Success? && job.slidesToUpdate.None?
    ensures var out := Assemble(job, selected, agenda, open, create, fetch).value;
            var created := create(job.presentationTitle);
            && created.slides != []
            && out.presentationId == created.presentationId
            && |out.requests| >= 7
            && out.requests[..7] == SeedRequests(created.slides[0].objectId, job.presentationTitle, agenda)
            && out.requests[7..] == TransplantRequests(selected, fetch)
            && out.requests[0] == DeleteObject(created.slides[0].objectId)
            && (forall j :: 0 < j < |out.requests| ==> !out.requests[j].DeleteObject?)
            && Resolves(out.requests, SlideIds(created))
            && out.presentationUrl == NewDeckUrl(created.presentationId)
  {
    var out := Assemble(job, selected, agenda, open, create, fetch).value;
    var created := create(job.presentationTitle);
    var defaultId := created.slides[0].objectId;
    assert out.requests == SeedRequests(defaultId, job.presentationTitle, agenda) + TransplantRequests(selected, fetch);
    assert created.slides[0] in created.slides;
    SeededBatch(defaultId, job.presentationTitle, agenda, SlideIds(created), selected, fetch);
  }

  /** The seed followed by the transplants, over a deck that holds the default slide. */
  lemma SeededBatch(defaultId: string, title: string, agenda: string, existing: set<string>,
                    selected: seq<SlideRecord>, fetch: (string, string) -> Option<Page>)
    requires defaultId in existing
    ensures var seed := SeedRequests(defaultId, title, agenda);
            var rs := seed + TransplantRequests(selected, fetch);
            && |rs| >= 7 && rs[..7] == seed && rs[7..] == TransplantRequests(selected, fetch)
            && rs[0] == DeleteObject(defaultId)
            && (forall j :: 0 < j < |rs| ==> !rs[j].DeleteObject?)
            && Resolves(rs, existing)
  {
    var seed := SeedRequests(defaultId, title, agenda);
    SeedIsWellOrdered(defaultId, title, agenda);
    SeedResolves(defaultId, title, agenda);
    ResolvesMonotone(seed, {defaultId}, existing);
    TransplantsAppend(seed, existing, selected, fetch);
  }

  /** The address returned for a new deck names it: passed back as the update URL, it gives its id. */
  lemma NewDeckUrlNamesDeck(presentationId: string)
    requires IsId(presentationId)
    ensures PresentationIdOf(NewDeckUrl(presentationId)) == Some(presentationId)
  {
    EditUrlRoundTrip(presentationId, "/edit");
  }

  /**
   * The handler: each check in turn, then the selection, then the request
   * list built up by the update or create flow followed by the transplants.
   */
  method GeneratePresentation(payload: Option<Fields>, decks: seq<Deck>, answer: Answer, agenda: string,
                              open: string -> Result<Presentation, string>, create: string -> Presentation,
                              fetch: (string, string) -> Option<Page>)
    returns (r: Result<Outcome, Rejection>)
    ensures r == Generate(payload, decks, answer, agenda, open, create, fetch)
  {
    var read := ReadJob(payload);
    if read.Failure? {
      return Failure(read.error);
    }
    var job := read.value;
    var folderId := FolderId(job.sourceFolderUrl);
    if folderId.None? {
      return Failure(Rejection(400, FolderUrlMessage));
    }
    if decks == [] {
      return Failure(Rejection(400, EmptyFolderMessage(folderId.value)));
    }
    var sourceSlides := Pool(decks);
    if sourceSlides == [] {
      return Failure(Rejection(400, NoTitlesMessage));
    }
    if answer.Unparseable? {
      return Failure(Rejection(500, NonJsonMessage(answer.raw)));
    }
    var selected := MatchTitles(answer.titles, sourceSlides);
    r := AssembleRequests(job, selected, agenda, open, create, fetch);
  }

  /** The update or create flow followed by the transplant loop, appending to one request list. */
  method AssembleRequests(job: Job, selected: seq<SlideRecord>, agenda: string,
                          open: string -> Result<Presentation, string>, create: string -> Presentation,
                          fetch: (string, string) -> Option<Page>)
    returns (r: Result<Outcome, Rejection>)
    ensures r == Assemble(job, selected, agenda, open, create, fetch)
  {
    var requests: seq<Request> := [];
    var presentationId: string;
    if job.slidesToUpdate.Some? {
      var id := PresentationIdOf(job.slidesToUpdate.value);
      if id.None? {
        return Failure(Rejection(400, UpdateUrlMessage));
      }
      presentationId := id.value;
      var existing := open(presentationId);
      if existing.Failure? {
        return Failure(Rejection(403, OpenFailedMessage + existing.error));
      }
      var deletions := QueueStaleSlideDeletions(existing.value.slides);
      DeletesStaleUnique(deletions, StaleDeletions(existing.value.slides), existing.value.slides);
      requests := requests + deletions;
      assert requests == StaleDeletions(existing.value.slides);
    } else {
      var created := create(job.presentationTitle);
      presentationId := created.presentationId;
      if created.slides == [] {
        return Failure(Rejection(500, NoDefaultSlideMessage));
      }
      requests := requests + SeedRequests(created.slides[0].objectId, job.presentationTitle, agenda);
      assert requests == SeedRequests(created.slides[0].objectId, job.presentationTitle, agenda);
    }
    ghost var flowRequests := requests;
    var transplants := QueueTransplants(selected, fetch);
    requests := requests + transplants;
    var url := if job.slidesToUpdate.Some? then job.slidesToUpdate.value else NewDeckUrl(presentationId);
    var message := if job.slidesToUpdate.Some? then "Presentation updated successfully" else "Presentation created successfully";
    r := Success(Outcome(message, presentationId, url, requests));
    assert r == Success(Outcome(message, presentationId, url, flowRequests + TransplantRequests(selected, fetch)));
  }
}
