/**
 * The complaint controller as pure transitions over an in-memory store. Each
 * handler takes the store, its request data, the clock and the outcome of the
 * one mail it may send, and yields the new store, the HTTP response and the
 * mail it attempted. Handlers run atomically, one after another.
 */
module Controller {
  import opened Common
  import opened Text
  import opened ComplaintSchema
  import opened Admins

  /**
   * The database: complaints by id, the next id to hand out (ids are never
   * reused) and the administrator collection in its natural order.
   */
  datatype Store = Store(complaints: map<Id, Complaint>, nextId: Id, admins: seq<Admin>)

  /** Every record sits under its own id, and every id in use is below `nextId`. */
  predicate WellKeyed(st: Store) {
    forall k :: k in st.complaints ==> st.complaints[k].id == k && k < st.nextId
  }

  /** How the single `transporter.sendMail` attempt ended. */
  datatype Delivery = Delivered | Refused(reason: string)

  /** A notification as handed to the mail transport. */
  datatype Mail = Mail(to: string, attachments: seq<string>)

  /** A route parameter after Mongoose casts it: a well-formed id or text that is not one. */
  datatype IdParam = ObjectId(id: Id) | Malformed(raw: string)

  datatype Body =
    | Submission(message: string, complaintId: Id)
    | One(complaint: Complaint)
    | All(complaints: seq<Complaint>)
    | Note(message: string)
    | Failure(message: string, error: Option<string>)

  datatype Response = Response(code: nat, body: Body)

  /** What one handler invocation produces. */
  datatype Outcome = Outcome(store: Store, response: Response, mail: Option<Mail>)

  const NotFound: Response := Response(404, Note("Complaint not found"))

  const CastPrefix: string := "Cast to ObjectId failed for value \""

  /**
   * The `message` of the CastError Mongoose raises for an `_id` that is not an
   * ObjectId: the raw text quoted, then the path and the model.
   */
  function CastMessage(raw: string): (m: string)
    ensures StartsWith(m, CastPrefix) && |m| > |CastPrefix| + |raw|
    ensures m[|CastPrefix|..|CastPrefix| + |raw|] == raw
  {
    var m := CastPrefix + raw + "\" (type string) at path \"_id\" for model \"Complaint\"";
    assert m[..|CastPrefix|] == CastPrefix;
    assert m[|CastPrefix|..|CastPrefix| + |raw|] == raw;
    m
  }

  // ------------------------------------------------------------ createComplaint

  /**
   * `createComplaint`: build the document, save it (validation may fail with
   * 500), then read the roster and, if it is not empty, send one mail whose
   * failure is caught; the answer is 201 with the new id whatever the mail did.
   */
  function CreateComplaint(st: Store, title: string, description: string, category: string,
                           filePaths: seq<string>, now: nat, delivery: Delivery): (o: Outcome)
    ensures var doc := NewDocument(st.nextId, title, description, category, filePaths, now);
      && (o.response.code == 201 <==> Conforms(doc))
      && (o.response.code == 201 ==>
            && o.store == st.(complaints := st.complaints[st.nextId := doc], nextId := st.nextId + 1)
            && o.response.body == Submission("Complaint submitted successfully!", st.nextId))
      && (o.response.code != 201 ==> o.store == st && o.mail.None? && o.response.code == 500)
      && (o.response.code != 201 ==>
            o.response.body == Failure("Error submitting complaint", Some(ValidationMessage(doc))))
    ensures o.mail.Some? <==> o.response.code == 201 && |st.admins| > 0
    ensures o.mail.Some? ==> o.mail.value == Mail(Recipients(st.admins).value, filePaths)
  {
    var doc := NewDocument(st.nextId, title, description, category, filePaths, now);
    var problems := Violations(doc);
    ValidationAgreesWithSchema(doc);
    if problems != [] then
      Outcome(st, Response(500, Failure("Error submitting complaint", Some(ValidationMessage(doc)))), None)
    else
      var saved := st.(complaints := st.complaints[st.nextId := doc], nextId := st.nextId + 1);
      var mail := match Recipients(st.admins)
        case None => None
        case Some(to) => Some(Mail(to, filePaths));
      // The send is awaited inside its own try/catch, so `delivery` does not reach the answer.
      Outcome(saved, Response(201, Submission("Complaint submitted successfully!", doc.id)), mail)
  }

  // ------------------------------------------------------------- submitFeedback

  /**
   * `submitFeedback`: 404 for an unknown id; otherwise assign feedback and rating
   * and save (validation may fail with 500, nothing written); then read the roster
   * and send one mail. A refused mail is NOT caught here: the outer catch answers
   * 500 although the feedback is already saved.
   */
  function SubmitFeedback(st: Store, id: IdParam, feedback: Option<string>, rating: Option<int>,
                          now: nat, delivery: Delivery): (o: Outcome)
    ensures id.Malformed? ==>
      o == Outcome(st, Response(500, Failure("Error submitting feedback", Some(CastMessage(id.raw)))), None)
    ensures id.ObjectId? && id.id !in st.complaints ==> o == Outcome(st, NotFound, None)
    ensures id.ObjectId? && id.id in st.complaints ==>
      var updated := WithFeedback(st.complaints[id.id], feedback, rating, now);
      if Conforms(updated) then
        && o.store == st.(complaints := st.complaints[id.id := updated])
        && o.mail == (if |st.admins| == 0 then None else Some(Mail(Recipients(st.admins).value, [])))
        && (o.response.code == 200 <==> o.mail.None? || delivery.Delivered?)
        && (o.response.code != 200 ==>
              o.response == Response(500, Failure("Error submitting feedback", Some(delivery.reason))))
      else
        && o.store == st && o.mail.None?
        && o.response == Response(500, Failure("Error submitting feedback", Some(ValidationMessage(updated))))
  {
    match id
    case Malformed(raw) => Outcome(st, Response(500, Failure("Error submitting feedback", Some(CastMessage(raw)))), None)
    case ObjectId(k) =>
      if k !in st.complaints then Outcome(st, NotFound, None)
      else
        var updated := WithFeedback(st.complaints[k], feedback, rating, now);
        var problems := Violations(updated);
        ValidationAgreesWithSchema(updated);
        if problems != [] then
          Outcome(st, Response(500, Failure("Error submitting feedback", Some(ValidationMessage(updated)))), None)
        else
          var saved := st.(complaints := st.complaints[k := updated]);
          match Recipients(st.admins)
          case None => Outcome(saved, Response(200, Note("Thank you for your feedback!")), None)
          case Some(to) =>
            var mail := Some(Mail(to, []));
            match delivery
            case Delivered => Outcome(saved, Response(200, Note("Thank you for your feedback!")), mail)
            case Refused(reason) => Outcome(saved, Response(500, Failure("Error submitting feedback", Some(reason))), mail)
  }

  // ----------------------------------------------------------- getComplaintById

  /** `getComplaintById`: the stored record, 404 when absent, 500 when the id does not cast. */
  function GetComplaintById(st: Store, id: IdParam): (r: Response)
    ensures r.code == 200 <==> id.ObjectId? && id.id in st.complaints
    ensures r.code == 200 ==> r.body == One(st.complaints[id.id])
    ensures id.ObjectId? && id.id !in st.complaints ==> r == NotFound
    ensures id.Malformed? ==> r.code == 500
  {
    match id
    case Malformed(_) => Response(500, Note("Error fetching complaint"))
    case ObjectId(k) => if k in st.complaints then Response(200, One(st.complaints[k])) else NotFound
  }

  // ------------------------------------------------------ updateComplaintStatus

  /**
   * `updateComplaintStatus`: `findByIdAndUpdate(id, { status }, { new: true })`.
   * No validator runs on this path, so any status text is stored; a body
   * without `status` refreshes only `updatedAt`.
   */
  function UpdateComplaintStatus(st: Store, id: IdParam, status: Option<string>, now: nat): (o: Outcome)
    ensures o.mail.None?
    ensures id.Malformed? ==> o.store == st && o.response.code == 500
    ensures id.ObjectId? && id.id !in st.complaints ==> o.store == st && o.response == NotFound
    ensures id.ObjectId? && id.id in st.complaints ==>
      && id.id in o.store.complaints
      && var before := st.complaints[id.id];
      var after := o.store.complaints[id.id];
      && o.store == st.(complaints := st.complaints[id.id := after])
      && after.status == status.GetOr(before.status) && after.updatedAt == now
      && after.(status := before.status, updatedAt := before.updatedAt) == before
      && o.response == Response(200, One(after))
  {
    match id
    case Malformed(_) => Outcome(st, Response(500, Note("Error updating status")), None)
    case ObjectId(k) =>
      if k !in st.complaints then Outcome(st, NotFound, None)
      else
        var after := WithStatus(st.complaints[k], status, now);
        Outcome(st.(complaints := st.complaints[k := after]), Response(200, One(after)), None)
  }

  // ---------------------------------------------------------- getAllComplaints

  /** Non-increasing `createdAt`: the order of `sort({ createdAt: -1 })`. */
  predicate NewestFirst(cs: seq<Complaint>) {
    forall i, j :: 0 <= i < j < |cs| ==> cs[i].createdAt >= cs[j].createdAt
  }

  /** The stored complaints with ids below `n`, in id order. */
  function StoredBelow(complaints: map<Id, Complaint>, n: nat): (r: seq<Complaint>)
    ensures forall c :: c in r ==> c.id < n && c.id in complaints && complaints[c.id] == c
    ensures forall k :: k < n && k in complaints && complaints[k].id == k ==> complaints[k] in r
    ensures forall k :: k in complaints && complaints[k].id == k ==> multiset(r)[complaints[k]] <= 1
    decreases n
  {
    if n == 0 then []
    else
      var prefix := StoredBelow(complaints, n - 1);
      if n - 1 in complaints && complaints[n - 1].id == n - 1 then prefix + [complaints[n - 1]]
      else prefix
  }

  /** Places `c` in front of the first element that is not newer than it. */
  function InsertNewestFirst(c: Complaint, cs: seq<Complaint>): (r: seq<Complaint>)
    requires NewestFirst(cs)
    ensures |r| == |cs| + 1
    ensures r[0] == c || (cs != [] && r[0] == cs[0])
    ensures NewestFirst(r)
    ensures multiset(r) == multiset(cs) + multiset{c}
    decreases |cs|
  {
    if cs == [] || c.createdAt >= cs[0].createdAt then
      PrependNewest(c, cs);
      [c] + cs
    else
      var rest := InsertNewestFirst(c, cs[1..]);
      assert cs == [cs[0]] + cs[1..];
      PrependNewest(cs[0], rest);
      [cs[0]] + rest
  }

  /** An element at least as new as the head of a newest-first list may go in front. */
  lemma PrependNewest(c: Complaint, cs: seq<Complaint>)
    requires NewestFirst(cs)
    requires cs == [] || c.createdAt >= cs[0].createdAt
    ensures NewestFirst([c] + cs)
  {
    var r := [c] + cs;
    forall i, j | 0 <= i < j < |r|
      ensures r[i].createdAt >= r[j].createdAt
    {
      if i == 0 {
        assert r[j] == cs[j - 1];
        assert cs[0].createdAt >= cs[j - 1].createdAt;
      } else {
        assert r[i] == cs[i - 1] && r[j] == cs[j - 1];
      }
    }
  }

  function SortNewestFirst(cs: seq<Complaint>): (r: seq<Complaint>)
    ensures NewestFirst(r)
    ensures multiset(r) == multiset(cs)
    decreases |cs|
  {
    if cs == [] then []
    else
      assert cs == [cs[0]] + cs[1..];
      InsertNewestFirst(cs[0], SortNewestFirst(cs[1..]))
  }

  /**
   * `Complaint.find().sort({ createdAt: -1 })`: every stored complaint exactly
   * once and nothing else, newest first. MongoDB leaves the order of records
   * created at the same time unspecified; placing them in id order is this
   * model's choice, and the contract says nothing about it.
   */
  function GetAllComplaints(st: Store): (r: seq<Complaint>)
    requires WellKeyed(st)
    ensures NewestFirst(r)
    ensures forall c :: c in r ==> c.id in st.complaints && st.complaints[c.id] == c
    ensures forall k :: k in st.complaints ==> multiset(r)[st.complaints[k]] == 1
  {
    var listed := StoredBelow(st.complaints, st.nextId);
    var r := SortNewestFirst(listed);
    assert forall c :: c in r ==> c in multiset(listed);
    r
  }
}
