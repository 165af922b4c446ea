/**
 * The status tracker page: the feedback form's submit gate and its star
 * choices, the tracking request with its empty-id guard, which feedback
 * elements are shown for a fetched complaint, and the status badge colour.
 */
module StatusTracker {
  import opened Common
  import opened Text
  import opened ComplaintSchema
  import Controller
  import Routes

  const MissingInput: string := "Please provide a rating and feedback."
  const MissingId: string := "Please enter a Complaint ID."
  const NotFoundText: string := "Complaint not found."

  const ResolvedColor: string := "bg-green-100 text-green-800"
  const DefaultColor: string := "bg-gray-100 text-gray-800"

  /** The ratings the five stars set: star `i` (from 0) sets `i + 1`. */
  const RatingChoices: seq<int> := seq(5, i requires 0 <= i < 5 => i + 1)

  /** The stars offer exactly the ratings 1..5, in increasing order. */
  lemma RatingChoicesAreOneToFive(x: int)
    ensures x in RatingChoices <==> 1 <= x <= 5
    ensures forall i :: 0 <= i < |RatingChoices| ==> RatingChoices[i] == i + 1
  {
    if 1 <= x <= 5 {
      assert RatingChoices[x - 1] == x;
    }
  }

  /** What the feedback form's submit does. */
  datatype FeedbackAction =
    | Alert(text: string)                    // nothing is sent
    | Send(rating: int, feedback: string)     // POST /:id/feedback with these values

  /** `FeedbackForm.handleSubmit`: a rating of 0 (no star chosen) or empty feedback blocks the request. */
  function CheckFeedback(rating: int, feedback: string): (a: FeedbackAction)
    ensures a.Alert? <==> rating == 0 || feedback == ""
    ensures a.Send? ==> a == Send(rating, feedback)
  {
    if rating == 0 || feedback == "" then Alert(MissingInput) else Send(rating, feedback)
  }

  /**
   * The form's rating starts at 0 and only the stars change it, so whatever the
   * form sends passes the server's rating validation.
   */
  lemma SentRatingIsValid(rating: int, feedback: string)
    requires rating == 0 || rating in RatingChoices
    ensures var a := CheckFeedback(rating, feedback);
      a.Send? ==> 1 <= a.rating <= 5
  {
    RatingChoicesAreOneToFive(rating);
  }

  /** What `handleTrack` does before any request. */
  datatype TrackStart = NeedId(error: string) | Fetch(rawId: string)

  function StartTrack(rawId: string): (t: TrackStart)
    ensures t.NeedId? <==> rawId == ""
    ensures t.NeedId? ==> t.error == MissingId
  {
    if rawId == "" then NeedId(MissingId) else Fetch(rawId)
  }

  /** What the page shows once the request settles. */
  datatype TrackView = Shown(complaint: Complaint) | Failed(error: string)

  /** Any failure of the GET, 404 and 500 alike, shows the same text. */
  function FinishTrack(r: Controller.Response): TrackView {
    if 200 <= r.code < 300 && r.body.One? then Shown(r.body.complaint) else Failed(NotFoundText)
  }

  /** The characters that end the path of a URL: the query and the fragment marks. */
  predicate EndsPath(ch: char) {
    ch == '?' || ch == '#'
  }

  /** The first position at or after `i` holding `?` or `#`, or `|s|`. */
  function PathEndFrom(s: string, i: nat): (k: nat)
    requires i <= |s|
    ensures i <= k <= |s|
    ensures forall j :: i <= j < k ==> !EndsPath(s[j])
    ensures k < |s| ==> EndsPath(s[k])
    decreases |s| - i
  {
    if i == |s| || EndsPath(s[i]) then i else PathEndFrom(s, i + 1)
  }

  /**
   * The `:id` that `GET /:id` reads from the path below `/api/complaints/`:
   * non-strict routing lets one trailing `/` through. None when the rest is
   * empty or still holds a `/`, so that another route (or none) answers.
   */
  function PathId(p: string): (r: Option<string>)
    ensures r.Some? ==> r.value != [] && '/' !in r.value && |r.value| <= |p| && p[..|r.value|] == r.value
  {
    var q := if p != [] && p[|p| - 1] == '/' then p[..|p| - 1] else p;
    if q == [] || '/' in q then None else Some(q)
  }

  /**
   * The `:id` Express reads when the page requests `/api/complaints/<typed>`:
   * the URL's path stops at the first `?` or `#`.
   */
  function RouteId(typed: string): (r: Option<string>)
    ensures r.Some? ==> r.value != [] && '/' !in r.value && '?' !in r.value && '#' !in r.value
    ensures r.Some? ==> |r.value| <= |typed| && typed[..|r.value|] == r.value
  {
    var k := PathEndFrom(typed, 0);
    var r := PathId(typed[..k]);
    assert r.Some? ==> forall i :: 0 <= i < |r.value| ==> r.value[i] == typed[i];
    r
  }

  /**
   * Text without `/`, `?` or `#` is the `:id` as typed; after such an id, one
   * `/` or any query or fragment leaves the `:id` unchanged, while a second
   * path segment means no `:id` at all.
   */
  lemma RouteIdReducesUrl(id: string, rest: string)
    requires id != [] && '/' !in id && '?' !in id && '#' !in id
    ensures RouteId(id) == Some(id)
    ensures RouteId(id + "/") == Some(id)
    ensures rest != [] && EndsPath(rest[0]) ==> RouteId(id + rest) == Some(id)
    ensures rest != [] && EndsPath(rest[0]) ==> RouteId(id + "/" + rest) == Some(id)
    ensures rest != [] && !EndsPath(rest[0]) && rest[0] != '/' ==> RouteId(id + "/" + rest) == None
  {
    RouteIdPlain(id);
    RouteIdSlash(id);
    if rest != [] && EndsPath(rest[0]) {
      RouteIdQuery(id, rest);
      RouteIdSlashQuery(id, rest);
    }
    if rest != [] && !EndsPath(rest[0]) && rest[0] != '/' {
      RouteIdSecondSegment(id, rest);
    }
  }

  /** A plain id is its own `:id`. */
  lemma RouteIdPlain(id: string)
    requires id != [] && '/' !in id && '?' !in id && '#' !in id
    ensures RouteId(id) == Some(id)
  {
    PathEndPastPlainText(id, "");
    assert id + "" == id;
    assert id[..|id|] == id;
  }

  /** One trailing `/` is let through. */
  lemma RouteIdSlash(id: string)
    requires id != [] && '/' !in id && '?' !in id && '#' !in id
    ensures RouteId(id + "/") == Some(id)
  {
    var t := id + "/";
    PathEndPastPlainText(id, "/");
    assert t[..|t|] == t;
    assert t[..|t| - 1] == id;
  }

  /** A query or fragment after the id is not part of the path. */
  lemma RouteIdQuery(id: string, rest: string)
    requires id != [] && '/' !in id && '?' !in id && '#' !in id
    requires rest != [] && EndsPath(rest[0])
    ensures RouteId(id + rest) == Some(id)
  {
    PathEndPastPlainText(id, rest);
    assert (id + rest)[..|id|] == id;
  }

  /** A query or fragment after the id and one `/` is not part of the path either. */
  lemma RouteIdSlashQuery(id: string, rest: string)
    requires id != [] && '/' !in id && '?' !in id && '#' !in id
    requires rest != [] && EndsPath(rest[0])
    ensures RouteId(id + "/" + rest) == Some(id)
  {
    var t := id + "/" + rest;
    assert t == (id + "/") + rest;
    PathEndPastPlainText(id + "/", rest);
    var p := t[..|id| + 1];
    assert p == id + "/";
    assert p[..|p| - 1] == id;
  }

  /** A second path segment matches no `:id`. */
  lemma RouteIdSecondSegment(id: string, rest: string)
    requires id != [] && '/' !in id && '?' !in id && '#' !in id
    requires rest != [] && !EndsPath(rest[0]) && rest[0] != '/'
    ensures RouteId(id + "/" + rest) == None
  {
    var t := id + "/" + rest;
    assert t == (id + "/") + rest;
    PathEndPastPlainText(id + "/", rest);
    var k := PathEndFrom(t, 0);
    var p := t[..k];
    assert p[|id|] == '/';
    assert p[|p| - 1] != '/' ==> '/' in p;
    if p[|p| - 1] == '/' {
      assert p[..|p| - 1][|id|] == '/';
    }
  }

  /** The path of `id + rest` runs at least past `id` when `id` holds no `?` or `#`. */
  lemma PathEndPastPlainText(id: string, rest: string)
    requires '?' !in id && '#' !in id
    ensures |id| <= PathEndFrom(id + rest, 0)
    ensures rest != [] && EndsPath(rest[0]) ==> PathEndFrom(id + rest, 0) == |id|
    ensures rest != [] && !EndsPath(rest[0]) ==> |id| < PathEndFrom(id + rest, 0)
  {
    var t := id + rest;
    var k := PathEndFrom(t, 0);
    if rest != [] && |id| < k {
      assert t[|id|] == rest[0];
    }
  }

  /** `handleTrack` end to end against the server. */
  function Track(st: Controller.Store, rawId: string): TrackView {
    match StartTrack(rawId)
    case NeedId(e) => Failed(e)
    case Fetch(raw) =>
      match RouteId(raw)
      case None => Failed(NotFoundText)
      case Some(id) => FinishTrack(Controller.GetComplaintById(st, Routes.ParseId(id)))
  }

  /**
   * Tracking text whose `:id` is the id of a stored complaint shows that
   * complaint; tracking an empty id asks for one; anything else shows
   * "Complaint not found.".
   */
  lemma TrackShowsStoredComplaint(st: Controller.Store, rawId: string)
    ensures var v := Track(st, rawId);
      && (rawId == "" ==> v == Failed(MissingId))
      && (rawId != "" ==>
            (v.Shown? <==> && RouteId(rawId).Some?
                           && Routes.ParseId(RouteId(rawId).value).ObjectId?
                           && Routes.ParseId(RouteId(rawId).value).id in st.complaints))
      && (v.Shown? ==> v.complaint == st.complaints[Routes.ParseId(RouteId(rawId).value).id])
      && (rawId != "" && !v.Shown? ==> v == Failed(NotFoundText))
  {
  }

  /**
   * A recent-history entry, whose id is the decimal id the server returned,
   * tracks that complaint, and so does the id followed by one `/` or by a
   * query or fragment.
   */
  lemma TrackingByReturnedId(st: Controller.Store, id: Id, rest: string)
    requires id in st.complaints
    ensures Track(st, DecimalString(id)) == Shown(st.complaints[id])
    ensures Track(st, DecimalString(id) + "/") == Shown(st.complaints[id])
    ensures rest != [] && EndsPath(rest[0]) ==> Track(st, DecimalString(id) + rest) == Shown(st.complaints[id])
  {
    var d := DecimalString(id);
    assert '/' !in d && '?' !in d && '#' !in d by {
      forall i | 0 <= i < |d| ensures d[i] != '/' && d[i] != '?' && d[i] != '#' {
        assert IsDigit(d[i]);
      }
    }
    RouteIdReducesUrl(d, rest);
    Routes.ParseIdRoundTrip(id);
  }

  /** JavaScript truthiness of an optional string field. */
  predicate Truthy(s: Option<string>) {
    s.Some? && s.value != ""
  }

  /** The feedback form appears for a resolved complaint without (truthy) feedback. */
  predicate ShowsFeedbackForm(c: Complaint) {
    c.status == "Resolved" && !Truthy(c.feedback)
  }

  /** Existing feedback is displayed whenever it is truthy. */
  predicate ShowsFeedback(c: Complaint) {
    Truthy(c.feedback)
  }

  /** The form and the displayed feedback never appear together. */
  lemma FeedbackViewsExclusive(c: Complaint)
    ensures !(ShowsFeedbackForm(c) && ShowsFeedback(c))
    ensures c.status == "Resolved" ==> ShowsFeedbackForm(c) != ShowsFeedback(c)
  {
  }

  /**
   * Once the server stores non-blank feedback the form is gone and the
   * feedback is shown; blank feedback trims to "" on the server, so a resolved
   * complaint offers the form again.
   */
  lemma StoredFeedbackDecidesTheView(st: Controller.Store, k: Id, feedback: string, rating: Option<int>,
                                     now: nat, delivery: Controller.Delivery)
    requires k in st.complaints
    requires Conforms(WithFeedback(st.complaints[k], Some(feedback), rating, now))
    ensures var o := Controller.SubmitFeedback(st, Controller.ObjectId(k), Some(feedback), rating, now, delivery);
      var c := o.store.complaints[k];
      && (ShowsFeedback(c) <==> !AllSpace(feedback))
      && (ShowsFeedbackForm(c) <==> c.status == "Resolved" && AllSpace(feedback))
  {
    TrimEmptyIffBlank(feedback);
  }

  /** `getStatusColor`: green for "Resolved", grey for every other status text. */
  function StatusColor(status: string): (cls: string)
    ensures cls == ResolvedColor <==> status == "Resolved"
    ensures cls == DefaultColor <==> status != "Resolved"
  {
    if status == "Resolved" then ResolvedColor else DefaultColor
  }
}
