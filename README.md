# slide-generator: the plan-building core of `generate_presentation`

`main.py` is an HTTP cloud function that assembles a Google Slides deck. It
reads a JSON payload, collects the titled slides of every deck in a Drive
folder, and asks Gemini to pick and order some of the titles. It then either
creates a new deck or refreshes an existing one, and rebuilds each chosen slide
in it through one `presentations.batchUpdate` call.

This project models the part of that handler that decides what to do. The
Google and Gemini calls are replaced by their results, passed in as
parameters:

- `Text`: the string helpers. These are Python's `str.strip()`, `str.startswith`
  and `str(n)`, plus the `re.search(marker + '([a-zA-Z0-9-_]+)', url)` id
  extraction.
- `Document`: the Slides documents as values (presentations, pages, page
  elements, shapes, text runs, styles, images) and `_get_text_from_element`.
- `Summarizer`: `extract_slides_from_presentation` and the candidate pool built
  from all decks in listing order.
- `Payload`: reading the payload. This covers the effective presentation title,
  the required-field check, and the folder and presentation ids taken from the
  two URLs.
- `Matching`: resolving the model's ordered title list against the pool, first
  match wins, each record consumed once. `MatchTitles` is the nested loop that
  pops from a working copy.
- `Requests`: the batch-edit requests, and the ordering discipline of a batch
  (`Resolves`). Every request that edits or places something on an object comes
  after the request creating it, unless the object already exists in the target
  deck.
- `Reconciler`: update mode's classifier and stale-slide deletions, and create
  mode's seven seed requests.
- `Transplant`: the requests that rebuild each selected slide. These are a
  header text box with provenance text and a link, the background, and copies
  of the non-placeholder shapes and of the images.
- `Pipeline`: the handler as one value (`Generate`), its early rejections and
  their statuses, and the update and create batches. `GeneratePresentation` is
  the step-by-step version that appends to one request list.

The step-by-step parts of the source are methods, each proved equal to the
function that specifies it. Most of them are loops:

- the matching loops: `MatchTitles`;
- the deletion scan: `QueueStaleSlideDeletions`, `QueueDeletions`;
- the transplant loops: `QueueTransplants`, `CopyElements`, `FindFirstStyle`;
- the per-element branch that appends one element's copy: `CopyElement`;
- the handler: `GeneratePresentation`, `AssembleRequests`.

The properties are proved about those functions.

Some behaviours of `main.py` that a reader might expect otherwise, and that
the model follows as written:

- The update classifier looks only at the first `TITLE` placeholder of a slide
  (main.py:161), not at every text-bearing element.
- Slide records carry a title and no body text (main.py:32-39).
- No speaker notes are read or written.
- The response carries the message, the presentation id and its URL, and no
  list of the selected slides (main.py:347-352).
- Create mode on a new deck without slides fails with the catch-all handler's
  500 (`list index out of range`, main.py:181, 360-362).

## Model

The functions that define the handler's results (`Match`, `SeedRequests`,
`HeaderRequests`, `ElementRequests`, `SlideRequests`, `TransplantRequests`,
`Generate`, `Assemble`, `TextOf`, `ScanTitle` and the like) have no rows of
their own. The lemma and method rows that state their properties cover them.

| member | source | states |
|---|---|---|
| Text.StripSpec | main.py:19 | `strip()` keeps an infix with only whitespace cut off either side. The result is empty iff the text is all whitespace, and otherwise starts and ends with a non-space |
| Text.StripIdempotent | main.py:19 | stripping a stripped text changes nothing |
| Text.StartsWithIsPrefix | main.py:168 | `startswith` is exactly the sequence-prefix relation |
| Text.DecimalString | main.py:255 | `str(n)` is a non-empty digit string without a leading zero |
| Text.DecimalRoundTrip | main.py:255 | reading back the digits of the slide number gives the number |
| Text.IdRun | main.py:77 | the greedy `[a-zA-Z0-9-_]+` run: a prefix of identifier characters, followed by a non-identifier character or the end |
| Text.FindFrom | main.py:77 | the leftmost position at or after `from` where the marker is followed by an identifier character, or none |
| Text.SearchId | main.py:77-80 | a captured group is a non-empty identifier |
| Text.SearchIdSpec | main.py:144-147 | the search fails iff the marker is nowhere followed by an identifier character. Otherwise it yields the whole identifier after the leftmost such marker |
| Text.SearchIdAt | main.py:144-147 | a marker at `k`, followed by `id` and then a non-identifier character or the end, and matching nowhere earlier, makes the search yield exactly `id` |
| Document.RunsTextAppend | main.py:16-18 | the text accumulated over the runs of two element lists is the concatenation of their texts |
| Document.TextOfIsStripped | main.py:12-19 | an element's text has no whitespace at either end. It is `''` without shape text, and empty iff the run contents together are whitespace |
| Summarizer.ScanTitleIsLast | main.py:27-31 | the element scan ends with the text of the last title source, even when that text is empty; with none, it ends with its start value |
| Summarizer.SlideTitleIsLastTitleSource | main.py:26-31 | a slide's title is the text of its last `TITLE`/`CENTERED_TITLE`/`SUBTITLE` placeholder, or `''` |
| Summarizer.ExtractFrom | main.py:25-39 | the records from slide `i` on describe titled slides after `i`, in increasing slide-number order |
| Summarizer.ExtractFromComplete | main.py:32-39 | every titled slide from `i` on has a record |
| Summarizer.ExtractFromIncreasing | main.py:25-39 | slide numbers strictly increase along the records |
| Summarizer.ExtractSlides | main.py:21-40 | at most one record per slide. Each has a non-empty title equal to its slide's title, its 1-based slide number, slide id, deck id and name. Numbers increase, and every titled slide is present |
| Summarizer.ExtractSlidesEmpty | main.py:32-39 | a deck yields no record iff none of its slides has a title |
| Summarizer.Pool | main.py:105-109 | every pooled record has a non-empty title |
| Summarizer.PoolEmpty | main.py:105-112 | the pool is empty iff no slide of any deck has a title |
| Payload.PresentationTitle | main.py:59-65 | the title is `slide_title` if given, else `customer_request`, followed by ` ({meeting_date})` exactly when a meeting date is given |
| Payload.ReadJob | main.py:49-68 | the payload is rejected with 400 iff it is absent or empty, or any of the three required fields is missing or empty. Otherwise the job carries those fields, the payload's own `slides_to_update` URL exactly when it is non-empty, and the effective title of `PresentationTitle` |
| Payload.FolderId | main.py:77-80 | a folder id, when found, is a non-empty identifier |
| Payload.PresentationIdOf | main.py:144-147 | a presentation id, when found, is a non-empty identifier |
| Payload.EditUrlRoundTrip | main.py:144-147 | an editor address built from an id, followed by anything that does not extend the id, yields that id back |
| Matching.IndexOfTitle | main.py:133-134 | the position of the first remaining record with the title, or none |
| Matching.MatchTitles | main.py:130-137 | the nested loop popping from a working copy computes `Match`; the pool itself is a value and is not changed |
| Matching.MatchUsesEachRecordOnce | main.py:130-137 | the result is a sub-multiset of the pool, no longer than the title list or the pool |
| Matching.MatchFollowsSelection | main.py:132-135 | the result's titles are exactly the selected titles, in selection order, without those the pool has run out of: `selected[i]` is kept iff fewer copies of it were asked for before `i` than the pool holds |
| Matching.MatchTakesEarliest | main.py:132-137 | for each title `t`, the records chosen with `t` are the first min(#t selected, #t in pool) records titled `t`, in pool order |
| Reconciler.FirstTitleIndex | main.py:161 | the position of the first `TITLE` placeholder of a slide, or none |
| Reconciler.AnyLinkedRunSpec | main.py:164-167 | `any(...)` over the runs holds iff some run's style carries a link |
| Reconciler.IsGeneratedSpec | main.py:161-168 | a slide is generated iff it has a `TITLE` placeholder, and the first one's text starts with `Source: ` and one of its runs carries a link |
| Reconciler.Flagged | main.py:157-169 | the selected indices are at least 2, accepted by the classifier, strictly increasing, and include every accepted index from 2 on |
| Reconciler.FlaggedPolicy | main.py:157-169 | slide `k` is selected iff `k >= 2` and the classifier accepts it |
| Reconciler.StaleDeletions | main.py:156-172 | the deletions are one `deleteObject` per stale slide, in slide order |
| Reconciler.DeletesStaleUnique | main.py:156-172 | the deletions are determined by the deck |
| Reconciler.QueueStaleSlideDeletions | main.py:156-172 | the update loop queues exactly the stale-slide deletions |
| Reconciler.QueueDeletions | main.py:171-172 | one `deleteObject` per collected id, in order |
| Reconciler.StaleDeletionsResolve | main.py:171-172 | the deletions come first and target slides of the deck being updated |
| Reconciler.SeedIsWellOrdered | main.py:181-219 | the seed is seven requests, its only deletion is the default slide first, and its slides go to indices 0 and 1 |
| Reconciler.SeedResolves | main.py:187-219 | every seed text goes into a placeholder mapped by an earlier seed `createSlide`: the seed needs only the default slide |
| Transplant.CopiedIdInjective | main.py:233 | distinct id strings get distinct `copied_` ids |
| Transplant.HeaderIdDistinct | main.py:233-236 | a `title_for_` header id is never a `copied_` id, and distinct slide id strings get distinct header ids |
| Transplant.ProvenanceNamesSource | main.py:255 | the header text starts with `Source: `, names the deck, and its number reads back as the slide number |
| Transplant.SourceLinkNamesDeck | main.py:261 | the header link's `/d/` id is the source deck's id |
| Transplant.FirstStyleIsEarliest | main.py:320 | a style is found iff some run is styled. It is then the earliest styled run's style, which is never empty |
| Transplant.TextCopy | main.py:315-327 | text is inserted at 0 iff the stripped text is non-empty. A style update follows iff some run is styled, and it carries the earliest styled run's style over the style field mask |
| Transplant.ShapeCopy | main.py:293-327 | a shape copy starts with the shape, typed or `RECTANGLE`. Its properties follow iff it has some. Its text copy comes last, and only that copy inserts or styles text |
| Transplant.ElementCopy | main.py:285-329 | the copy is empty iff the element is a placeholder or neither shape nor image. Every request addresses `copied_<id>` and creates or edits that element on the new slide with the source geometry. An image gives exactly one `createImage` of its content URL |
| Transplant.ElementsCopyResolves | main.py:285-329 | the element copies resolve once the new slide exists, and each creates or edits an element |
| Transplant.SlideCopyLayout | main.py:228-282 | a failed fetch gives nothing. Otherwise the first four requests are the new slide, the `TEXT_BOX` header on it, the provenance text and the source link. A background update follows iff the page has a fill, and it is the only page update |
| Transplant.HeaderResolves | main.py:239-271 | the header requests resolve on their own, create the new slide, and delete nothing |
| Transplant.SlideCopyResolves | main.py:233-329 | one slide's requests are self-contained and delete nothing |
| Transplant.TransplantResolves | main.py:225-332 | all transplant requests together are self-contained and delete nothing |
| Transplant.SlideCopyMapsNoPlaceholder | main.py:237-239 | a slide copy creates its slide without a layout, so it maps no placeholder |
| Transplant.TransplantMapsNoPlaceholder | main.py:225-282 | no transplant request maps a layout placeholder: the provenance text only goes into the header text box |
| Transplant.CopyElements | main.py:285-329 | the element loop computes the element copies in page order |
| Transplant.CopyElement | main.py:286-329 | the per-element branch computes the element copy |
| Transplant.FindFirstStyle | main.py:320 | the `next(...)` scan finds the first styled run's style |
| Transplant.QueueTransplants | main.py:225-332 | the transplant loop computes the transplant requests, in selection order |
| Pipeline.TransplantsAppend | main.py:221-225 | appending the transplants keeps deletions first and the batch resolved, and adds no deletion |
| Pipeline.RejectionCases | main.py:49-128 | a request failing a check before the selection gets 400, and an unparseable selection gets 500. Any other request is what its job and the matched selection assemble to |
| Pipeline.AssembleCases | main.py:142-181 | after the selection, the handler gives 400 iff the update URL has no id and 403 iff that deck cannot be opened. It gives 500 iff the new deck has no slide, and succeeds otherwise |
| Pipeline.UpdateBatch | main.py:142-173 | an update answers for the deck named by the URL and echoes the URL. Its batch is that deck's stale deletions, then the transplants. The deletions come first, and the batch resolves against the deck's slides |
| Pipeline.CreateBatch | main.py:175-219 | a creation answers for the deck created with the job's presentation title. Its batch is the seven seed requests over the default slide, then the transplants. Its only deletion is the first request, and it resolves against the new deck's slides |
| Pipeline.SeededBatch | main.py:181-225 | the seed followed by the transplants resolves against any deck holding the default slide, and deletes only first |
| Pipeline.NewDeckUrlNamesDeck | main.py:347 | the address returned for a new deck yields its id when passed back as `slides_to_update` |
| Pipeline.GeneratePresentation | main.py:46-354 | the handler's checks, selection loop and request building compute `Generate` |
| Pipeline.AssembleRequests | main.py:139-352 | the update or create flow, then the transplant loop, appending to one request list, compute `Assemble` |

## Left out

- Credentials and API clients (main.py:71-74): external authentication.
- Drive folder listing and shortcut resolution (main.py:83-100): network I/O. The resolved decks are a parameter, already fetched.
- Fetches of source decks, of the deck to update and of source pages (main.py:107, 150, 228-231): each is a parameter.
  - A failed page fetch is `None`.
  - A failed open of the deck to update is `Failure(error text)`.
  - A failed fetch of a source deck (main.py:107) raises an `HttpError`. The `except HttpError` branch (main.py:356-359) answers it with the error's own status, 500 by default. This is not modelled.
- The creation of a new deck (main.py:177): a parameter `create` that maps the presentation title to the new deck. `Assemble` applies it to the job's effective title. A failed creation raises an `HttpError`, answered as above, and is not modelled.
- Gemini prompts and calls (main.py:115-121, 202-203): the selection and the agenda text are parameters.
- `json.loads` and the fenced-block regex (main.py:124-128): the selection is either a parsed title list or the raw text that did not parse. A non-list `selected_slides` value is not modelled.
- The payload's non-string JSON values: the payload is a map from field names to strings, or `None` for a body that is not JSON.
- A body that is valid JSON but not an object, such as `[1]` or `"x"`: it passes the emptiness check (main.py:50), and `request_json.get` then raises an `AttributeError`, which the catch-all handler answers with 500 (main.py:360-362). The payload type has no value for such a body.
- Uniqueness of the new object ids across records: ids are derived from the source slide and element ids alone (main.py:233-236), and those are unique only within one deck. Two selected records from different decks (a deck copied from another, or a deck listed both directly and through a shortcut, main.py:88-98) can share a slide id, and the batch then creates `copied_<id>` twice. The new ids are pairwise distinct only when the selected records' slide and element ids are. `Resolves` checks that every used id is created earlier, not that a created id is new.
- `batchUpdate`, its `if requests:` guard, and the permission grants (main.py:335-345): foreign calls. The model ends at the request list and the response fields.
- The mapping of `HttpError`s raised by other calls to their status, and all logging (main.py:356-362): transport and diagnostics.
- `copy.deepcopy` (main.py:290): documents are immutable values. Sizes, transforms, shape properties and background fills are carried unchanged as uninterpreted `Json` values.
- Payload.PresentationTitle: defined only when `customer_request` is present. The source computes a title earlier, but discards it when the required-field check rejects the request.
- A placeholder without a `type` key (main.py:29 raises `KeyError`): placeholders carry their type.
- A new deck whose `slides` key is missing: modelled like an empty slide list. The catch-all message then names a `TypeError` instead of an `IndexError`.
- How the Slides service turns a batch into pages is not modelled, so the model has no page for a transplanted slide to run the classifier on. What it does state: each copied slide is created without a layout (main.py:237-239), no transplant request maps a placeholder (`TransplantMapsNoPlaceholder`), and the provenance text and link go only into the `TEXT_BOX` header. The classifier reads only the first `TITLE` placeholder (main.py:161-168). So on any layout the service picks, a transplanted slide's `TITLE` placeholder gets no `Source: ` text from this service. A later update run then keeps those slides and queues the same `copied_` ids again.
