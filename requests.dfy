/**
 * The batch-edit requests the service queues for `presentations.batchUpdate`,
 * and the ordering discipline of one batch: a request that edits or places
 * something on an object comes after the request that creates that object,
 * unless the object already exists in the target document.
 */
module Requests {
  import opened Wrappers
  import opened Document

  /** The provenance prefix the transplanter writes and the classifier looks for. */
  const SourcePrefix := "Source: "

  /** `placeholderIdMappings` entry: the layout placeholder type and the id given to it. */
  datatype PlaceholderIdMapping = PlaceholderIdMapping(layoutPlaceholderType: string, objectId: string)

  /** `slideLayoutReference` with a predefined layout, and the ids of its placeholders. */
  datatype LayoutReference = LayoutReference(predefinedLayout: string, placeholderIdMappings: seq<PlaceholderIdMapping>)

  /** `elementProperties`: the page an element goes on and its (copied) geometry. */
  datatype ElementProperties = ElementProperties(pageObjectId: string, size: Option<Json>, transform: Option<Json>)

  /**
   * One request. Text styles always apply over the `ALL` text range; the
   * `fields` masks are kept as the service writes them.
   */
  datatype Request =
    | DeleteObject(objectId: string)
    | CreateSlide(objectId: string, insertionIndex: Option<nat>, layout: Option<LayoutReference>)
    | CreateShape(objectId: string, shapeType: string, properties: ElementProperties)
    | InsertText(objectId: string, text: string, insertionIndex: Option<nat>)
    | UpdateTextStyle(objectId: string, style: TextStyle, fields: string)
    | UpdateShapeProperties(objectId: string, shapeProperties: Json, fields: string)
    | UpdatePageProperties(objectId: string, pageBackgroundFill: Json, fields: string)
    | CreateImage(objectId: string, url: string, properties: ElementProperties)

  /** The ids of a slide layout's mapped placeholders. */
  function MappedIds(ms: seq<PlaceholderIdMapping>): set<string>
  {
    set j | 0 <= j < |ms| :: ms[j].objectId
  }

  /** The object ids a request brings into existence. */
  function Creates(r: Request): set<string>
  {
    match r
    case CreateSlide(id, _, layout) =>
      {id} + (if layout.Some? then MappedIds(layout.value.placeholderIdMappings) else {})
    case CreateShape(id, _, _) => {id}
    case CreateImage(id, _, _) => {id}
    case _ => {}
  }

  /** The object ids a request refers to, which must exist when it is applied. */
  function Needs(r: Request): set<string>
  {
    match r
    case DeleteObject(id) => {id}
    case CreateSlide(_, _, _) => {}
    case CreateShape(_, _, props) => {props.pageObjectId}
    case CreateImage(_, _, props) => {props.pageObjectId}
    case InsertText(id, _, _) => {id}
    case UpdateTextStyle(id, _, _) => {id}
    case UpdateShapeProperties(id, _, _) => {id}
    case UpdatePageProperties(id, _, _) => {id}
  }

  /** The ids created by a list of requests. */
  function CreatedBy(rs: seq<Request>): set<string>
  {
    if rs == [] then {} else CreatedBy(rs[..|rs| - 1]) + Creates(rs[|rs| - 1])
  }

  /**
   * Every request refers only to ids of the target document (`existing`) or
   * ids created by an earlier request of the same batch.
   */
  predicate Resolves(rs: seq<Request>, existing: set<string>)
  {
    forall i :: 0 <= i < |rs| ==> Needs(rs[i]) <= existing + CreatedBy(rs[..i])
  }

  /** All deletions of a batch come before any other request. */
  predicate DeletionsFirst(rs: seq<Request>)
  {
    forall i, j :: 0 <= i < j < |rs| && rs[j].DeleteObject? ==> rs[i].DeleteObject?
  }

  /** A request's ids are among those created by any prefix that includes it. */
  lemma {:induction false} CreatedByIncludes(rs: seq<Request>, k: nat, i: nat)
    requires k < i <= |rs|
    ensures Creates(rs[k]) <= CreatedBy(rs[..i])
    decreases i
  {
    assert rs[..i][..i - 1] == rs[..i - 1];
    if k < i - 1 {
      CreatedByIncludes(rs, k, i - 1);
    }
  }

  /** What a batch creates is what its two halves create. */
  lemma {:induction false} CreatedByAppend(a: seq<Request>, b: seq<Request>)
    ensures CreatedBy(a + b) == CreatedBy(a) + CreatedBy(b)
    decreases |b|
  {
    if b == [] {
      assert a + b == a;
    } else {
      assert (a + b)[..|a + b| - 1] == a + b[..|b| - 1];
      CreatedByAppend(a, b[..|b| - 1]);
    }
  }

  /**
   * Appending a batch that resolves once the first one's objects exist
   * keeps the whole batch resolved.
   */
  lemma ResolvesAppend(a: seq<Request>, b: seq<Request>, existing: set<string>)
    requires Resolves(a, existing) && Resolves(b, existing + CreatedBy(a))
    ensures Resolves(a + b, existing)
  {
    forall i | 0 <= i < |a + b| ensures Needs((a + b)[i]) <= existing + CreatedBy((a + b)[..i]) {
      if i < |a| {
        assert (a + b)[..i] == a[..i];
      } else {
        assert (a + b)[..i] == a + b[..i - |a|];
        CreatedByAppend(a, b[..i - |a|]);
      }
    }
  }

  /** A batch that resolves against fewer existing ids resolves against more. */
  lemma ResolvesMonotone(rs: seq<Request>, small: set<string>, large: set<string>)
    requires Resolves(rs, small) && small <= large
    ensures Resolves(rs, large)
  {
  }
}
