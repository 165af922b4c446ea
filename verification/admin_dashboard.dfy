/**
 * The admin dashboard's logic: the local list patch after a status change,
 * the status selector's options, the evidence links and the rating caption.
 */
module AdminDashboard {
  import opened Common
  import opened Text
  import opened ComplaintSchema
  import Controller

  const ServerBase: string := "http://localhost:5000/"

  /** The `<option>`s of the status selector, in order. */
  const StatusOptions: seq<string> := ["Submitted", "In Progress", "Resolved", "Rejected"]

  /** The selector offers exactly the schema's four statuses, each once. */
  lemma StatusOptionsMatchSchema(t: Status, s: string)
    ensures StatusName(t) in StatusOptions
    ensures s in StatusOptions <==> ParseStatus(s).Some?
    ensures forall i, j :: 0 <= i < j < |StatusOptions| ==> StatusOptions[i] != StatusOptions[j]
  {
  }

  /**
   * `handleStatusChange`: after the PUT succeeds, the entries with that `_id`
   * take the new status; after it fails, the list is left alone.
   */
  function PatchStatus(list: seq<Complaint>, id: Id, status: string, succeeded: bool): (r: seq<Complaint>)
    ensures |r| == |list|
    ensures forall i :: 0 <= i < |r| ==> r[i].id == list[i].id
    decreases |list|
  {
    if !succeeded || list == [] then list
    else [if list[0].id == id then list[0].(status := status) else list[0]] + PatchStatus(list[1..], id, status, succeeded)
  }

  /**
   * The patch keeps the length and every other entry; the matching entries
   * change in their status only.
   */
  lemma {:induction false} PatchStatusTouchesOnlyMatch(list: seq<Complaint>, id: Id, status: string, succeeded: bool)
    ensures var r := PatchStatus(list, id, status, succeeded);
      && |r| == |list|
      && (forall i :: 0 <= i < |list| && (list[i].id != id || !succeeded) ==> r[i] == list[i])
      && (forall i :: 0 <= i < |list| && list[i].id == id && succeeded ==> r[i] == list[i].(status := status))
    decreases |list|
  {
    if succeeded && list != [] {
      PatchStatusTouchesOnlyMatch(list[1..], id, status, succeeded);
    }
  }

  /**
   * After a successful update of a listed complaint, the patched local list
   * agrees with what the server stored in every field but `updatedAt`, which
   * the dashboard does not refresh.
   */
  lemma PatchAgreesWithServer(st: Controller.Store, id: Id, status: string, now: nat)
    requires Controller.WellKeyed(st) && id in st.complaints
    ensures var listed := Controller.GetAllComplaints(st);
            var after := Controller.UpdateComplaintStatus(st, Controller.ObjectId(id), Some(status), now).store;
            var patched := PatchStatus(listed, id, status, true);
      && |patched| == |listed|
      && forall i :: 0 <= i < |listed| ==>
           && patched[i].id in after.complaints
           && patched[i] == after.complaints[patched[i].id].(updatedAt := listed[i].updatedAt)
  {
    var listed := Controller.GetAllComplaints(st);
    var o := Controller.UpdateComplaintStatus(st, Controller.ObjectId(id), Some(status), now);
    PatchMatchesStore(listed, st.complaints, id, status, o.store.complaints[id]);
  }

  /** The list-level step: a list of stored records, patched, matches the store after the same change. */
  lemma PatchMatchesStore(listed: seq<Complaint>, m: map<Id, Complaint>, id: Id, status: string, after: Complaint)
    requires forall c :: c in listed ==> c.id in m && m[c.id] == c
    requires id in m && after.status == status
    requires after.(status := m[id].status, updatedAt := m[id].updatedAt) == m[id]
    ensures var patched := PatchStatus(listed, id, status, true);
      && |patched| == |listed|
      && forall i :: 0 <= i < |listed| ==>
           && patched[i].id in m[id := after]
           && patched[i] == m[id := after][patched[i].id].(updatedAt := listed[i].updatedAt)
  {
    var patched := PatchStatus(listed, id, status, true);
    PatchStatusTouchesOnlyMatch(listed, id, status, true);
    forall i | 0 <= i < |listed|
      ensures patched[i].id in m[id := after]
      ensures patched[i] == m[id := after][patched[i].id].(updatedAt := listed[i].updatedAt)
    {
      var c := listed[i];
      assert c in listed;
      if c.id == id {
        assert patched[i] == c.(status := status);
      } else {
        assert patched[i] == c;
      }
    }
  }

  /** One evidence link: its target and its text. */
  datatype Link = Link(href: string, caption: string)

  datatype Evidence = NotAvailable | Links(links: seq<Link>)

  /** `EvidenceLinks`: "N/A" for a missing or empty list, else one link per path labelled "File 1", "File 2", ... */
  function EvidenceLinks(filePaths: Option<seq<string>>): Evidence {
    match filePaths
    case None => NotAvailable
    case Some(paths) =>
      if |paths| == 0 then NotAvailable
      else Links(seq(|paths|, i requires 0 <= i < |paths| => Link(ServerBase + paths[i], "File " + DecimalString(i + 1))))
  }

  /**
   * Every stored path gets exactly one link, in order, pointing at it on the
   * server; the labels read "File " and a number that reads back as the link's
   * position from 1, so no two labels are alike.
   */
  lemma EvidenceLinksNumberEachPath(paths: seq<string>)
    ensures EvidenceLinks(Some(paths)).NotAvailable? <==> |paths| == 0
    ensures EvidenceLinks(None).NotAvailable?
    ensures var e := EvidenceLinks(Some(paths));
      e.Links? ==>
        && |e.links| == |paths|
        && (forall i :: 0 <= i < |paths| ==>
              && StartsWith(e.links[i].href, ServerBase)
              && e.links[i].href[|ServerBase|..] == paths[i])
        && (forall i :: 0 <= i < |paths| ==>
              && |e.links[i].caption| > 5 && e.links[i].caption[..5] == "File "
              && AllDigits(e.links[i].caption[5..])
              && DecimalValue(e.links[i].caption[5..]) == i + 1)
        && (forall i, j :: 0 <= i < j < |paths| ==> e.links[i].caption != e.links[j].caption)
  {
    var e := EvidenceLinks(Some(paths));
    if e.Links? {
      forall i | 0 <= i < |paths|
        ensures StartsWith(e.links[i].href, ServerBase)
        ensures |e.links[i].caption| > 5 && e.links[i].caption[..5] == "File "
        ensures AllDigits(e.links[i].caption[5..]) && DecimalValue(e.links[i].caption[5..]) == i + 1
      {
        assert e.links[i].href[..|ServerBase|] == ServerBase;
        assert e.links[i].caption[5..] == DecimalString(i + 1);
        DecimalRoundTrip(i + 1);
      }
    }
  }

  /** The `Rating` component: `count` stars and the caption "(count/5)". */
  datatype RatingView = RatingView(stars: nat, text: string)

  function Rating(count: nat): RatingView {
    RatingView(count, "(" + DecimalString(count) + "/5)")
  }

  /** The caption is the count in decimal between "(" and "/5)", and reads back as the count. */
  lemma RatingCaptionReadsBack(count: nat)
    ensures var v := Rating(count);
      && v.stars == count
      && |v.text| >= 5 && v.text[0] == '(' && v.text[|v.text| - 3..] == "/5)"
      && AllDigits(v.text[1..|v.text| - 3])
      && DecimalValue(v.text[1..|v.text| - 3]) == count
  {
    var v := Rating(count);
    assert v.text[1..|v.text| - 3] == DecimalString(count);
    DecimalRoundTrip(count);
  }
}
