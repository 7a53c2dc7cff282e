/**
 * Reading the request payload of `generate_presentation`: the effective
 * presentation title, the required-field check, and the folder and
 * presentation identifiers taken out of the two URLs.
 */
module Payload {
  import opened Wrappers
  import opened Text

  /** A rejected request: the HTTP status and the plain-text message. */
  datatype Rejection = Rejection(status: nat, message: string)

  /** A JSON payload's string-valued fields; `None` is a body that is not JSON. */
  type Fields = map<string, string>

  /** `request_json.get(key)`. */
  function Field(m: Fields, key: string): Option<string>
  {
    if key in m then Some(m[key]) else None
  }

  /** Python truthiness of an optional string: present and non-empty. */
  predicate Present(v: Option<string>)
  {
    v.Some? && v.value != ""
  }

  /** The fields a valid payload provides. */
  datatype Job = Job(customerRequest: string, duration: string, sourceFolderUrl: string,
                     slidesToUpdate: Option<string>, presentationTitle: string)

  const MissingFieldsMessage := "Error: Missing 'customer_request', 'duration', or 'source_folder_url' in JSON payload."

  /** The payload carries all three required fields, each non-empty. */
  predicate HasRequiredFields(m: Fields)
  {
    Present(Field(m, "customer_request")) && Present(Field(m, "duration")) && Present(Field(m, "source_folder_url"))
  }

  /**
   * The effective title: `slide_title` when given, else `customer_request`,
   * followed by ` ({meeting_date})` when a meeting date is given.
   */
  function PresentationTitle(m: Fields): (title: string)
    requires Present(Field(m, "customer_request"))
    ensures var base := if Present(Field(m, "slide_title")) then m["slide_title"] else m["customer_request"];
            && base <= title
            && (Present(Field(m, "meeting_date")) ==> title[|base|..] == " (" + m["meeting_date"] + ")")
            && (!Present(Field(m, "meeting_date")) ==> title == base)
  {
    var slideTitle, meetingDate := Field(m, "slide_title"), Field(m, "meeting_date");
    var base := if Present(slideTitle) then slideTitle.value else m["customer_request"];
    if Present(meetingDate) then base + " (" + meetingDate.value + ")" else base
  }

  /**
   * The payload checks at the top of `generate_presentation`: a body that is
   * not a non-empty JSON object, or one missing any required field, is
   * rejected with 400; otherwise the job is read off the payload.
   */
  function ReadJob(payload: Option<Fields>): (r: Result<Job, Rejection>)
    ensures r.Failure? <==> payload.None? || payload.value == map[] || !HasRequiredFields(payload.value)
    ensures r.Failure? ==> r.error.status == 400
    ensures r.Success? ==> && r.value.customerRequest == payload.value["customer_request"]
                           && r.value.duration == payload.value["duration"]
                           && r.value.sourceFolderUrl == payload.value["source_folder_url"]
                           && r.value.customerRequest != "" && r.value.duration != ""
                           && r.value.sourceFolderUrl != ""
                           && (r.value.slidesToUpdate.Some? <==> Present(Field(payload.value, "slides_to_update")))
                           && (r.value.slidesToUpdate.Some? ==>
                                 r.value.slidesToUpdate.value == payload.value["slides_to_update"])
                           && r.value.presentationTitle == PresentationTitle(payload.value)
  {
    if payload.None? || payload.value == map[] then
      Failure(Rejection(400, "Error: Invalid JSON payload."))
    else
      var m := payload.value;
      if !HasRequiredFields(m) then Failure(Rejection(400, MissingFieldsMessage))
      else
        var update := Field(m, "slides_to_update");
        Success(Job(m["customer_request"], m["duration"], m["source_folder_url"],
                    if Present(update) then update else None, PresentationTitle(m)))
  }

  /** The Drive folder id in a folder URL: the `[a-zA-Z0-9-_]+` after the first `/folders/`. */
  function FolderId(url: string): (r: Option<string>)
    ensures r.Some? ==> IsId(r.value)
  {
    SearchId(url, "/folders/")
  }

  /** The presentation id in a Slides URL: the `[a-zA-Z0-9-_]+` after the first `/d/`. */
  function PresentationIdOf(url: string): (r: Option<string>)
    ensures r.Some? ==> IsId(r.value)
  {
    SearchId(url, "/d/")
  }

  /** The Slides editor address of a presentation, up to and including its id's `/d/` marker. */
  const EditUrlPrefix := "https://docs.google.com/presentation/d/"

  /** No `/d/` occurs inside the host and path before the id. */
  lemma EditUrlPrefixHasOneMarker()
    ensures forall j :: 0 <= j < |EditUrlPrefix| - 3 ==>
              EditUrlPrefix[j] != '/' || EditUrlPrefix[j + 1] != 'd' || EditUrlPrefix[j + 2] != '/'
  {
  }

  /** In any string that starts with the editor prefix, the first `/d/` is the prefix's own. */
  lemma EditUrlFirstMarker(s: string)
    requires |EditUrlPrefix| <= |s| && forall j :: 0 <= j < |EditUrlPrefix| ==> s[j] == EditUrlPrefix[j]
    ensures LeftmostMatch(s, "/d/", |EditUrlPrefix| - 3)
  {
    EditUrlPrefixHasOneMarker();
    forall i | 0 <= i < |EditUrlPrefix| - 3 ensures !MatchesAt(s, "/d/", i) {
      var m := if EditUrlPrefix[i] != '/' then 0 else if EditUrlPrefix[i + 1] != 'd' then 1 else 2;
      assert s[i + m] != "/d/"[m];
    }
  }

  /**
   * A Slides editor address built from a presentation id gives that id
   * back, whatever follows it once the id has ended: a deck address the
   * service hands out names the same deck when passed as `slides_to_update`.
   */
  lemma EditUrlRoundTrip(id: string, tail: string)
    requires IsId(id) && (tail == "" || !IsIdChar(tail[0]))
    ensures PresentationIdOf(EditUrlPrefix + id + tail) == Some(id)
  {
    var s := EditUrlPrefix + id + tail;
    EditUrlLayout(s, id, tail);
    EditUrlSearch(s, id);
  }

  /** The id search stops at the id that follows the editor prefix. */
  lemma EditUrlSearch(s: string, id: string)
    requires IsId(id)
    requires var n := |EditUrlPrefix|;
             && n + |id| <= |s|
             && (forall j :: 0 <= j < n ==> s[j] == EditUrlPrefix[j])
             && (forall j :: 0 <= j < 3 ==> s[n - 3 + j] == "/d/"[j])
             && (forall j :: 0 <= j < |id| ==> s[n + j] == id[j])
             && (n + |id| < |s| ==> !IsIdChar(s[n + |id|]))
    ensures SearchId(s, "/d/") == Some(id)
  {
    EditUrlFirstMarker(s);
    SearchIdAt(s, "/d/", |EditUrlPrefix| - 3, id);
  }

  /** Where the prefix, the marker, the id and the tail sit in an editor address. */
  lemma EditUrlLayout(s: string, id: string, tail: string)
    requires s == EditUrlPrefix + id + tail && (tail == "" || !IsIdChar(tail[0]))
    ensures var n := |EditUrlPrefix|;
            && n + |id| <= |s|
            && (forall j :: 0 <= j < n ==> s[j] == EditUrlPrefix[j])
            && (forall j :: 0 <= j < 3 ==> s[n - 3 + j] == "/d/"[j])
            && (forall j :: 0 <= j < |id| ==> s[n + j] == id[j])
            && (n + |id| < |s| ==> !IsIdChar(s[n + |id|]))
  {
    var n := |EditUrlPrefix|;
    assert n + |id| < |s| ==> s[n + |id|] == tail[0];
  }
}
