/**
 * The complaint router: which handler serves which request, which routes sit
 * behind `protect`, and the upload gate in front of creation. Authentication
 * itself is an opaque `authorized` flag; the `protect` middleware is not part
 * of this model beyond that flag.
 */
module Routes {
  import opened Common
  import opened Text
  import opened ComplaintSchema
  import opened Uploads
  import opened Controller

  /** A request to `/api/complaints`, with the `:id` segment as the raw text of the URL. */
  datatype Request =
    | PostComplaint(title: string, description: string, category: string, parts: seq<Upload>)
    | ListComplaints
    | GetComplaint(rawId: string)
    | PutStatus(rawId: string, status: Option<string>)   // `status` of the JSON body, if present
    | PostFeedback(rawId: string, feedback: Option<string>, rating: Option<int>)

  /** Routes mounted behind `protect`: the full listing and the status update. */
  predicate Protected(r: Request) {
    r.ListComplaints? || r.PutStatus?
  }

  /** How the request was answered. */
  datatype Answer =
    | Handled(response: Response)       // the controller answered
    | UploadAborted(error: UploadError)  // multer passed an error to Express's default handler
    | Guarded                            // `protect` answered instead of the handler

  /** The HTTP status, where this model knows it. */
  function StatusCode(a: Answer): Option<nat> {
    match a
    case Handled(r) => Some(r.code)
    case UploadAborted(_) => Some(500)
    case Guarded => None
  }

  datatype Step = Step(store: Store, answer: Answer, mail: Option<Mail>)

  /**
   * Mongoose's cast of the `:id` segment. Ids are written in decimal here, and
   * only the canonical rendering of an id casts; anything else is a CastError.
   */
  function ParseId(raw: string): (p: IdParam)
    ensures p.ObjectId? ==> DecimalString(p.id) == raw
  {
    if raw != [] && AllDigits(raw) && DecimalString(DecimalValue(raw)) == raw then ObjectId(DecimalValue(raw))
    else Malformed(raw)
  }

  /** The id in a URL built from a complaint's id casts back to that id. */
  lemma ParseIdRoundTrip(id: Id)
    ensures ParseId(DecimalString(id)) == ObjectId(id)
  {
    DecimalRoundTrip(id);
  }

  function ControllerStep(o: Outcome): Step {
    Step(o.store, Handled(o.response), o.mail)
  }

  /** The router and its middleware in front of the controller. */
  function Handle(st: Store, req: Request, authorized: bool, now: nat, delivery: Delivery): (s: Step)
    requires WellKeyed(st)
    ensures Protected(req) && !authorized ==> s == Step(st, Guarded, None)
  {
    if Protected(req) && !authorized then Step(st, Guarded, None)
    else
      match req
      case PostComplaint(title, description, category, parts) =>
        (match AcceptUploads(parts)
         case Err(e) => Step(st, UploadAborted(e), None)
         case Ok(paths) => ControllerStep(CreateComplaint(st, title, description, category, paths, now, delivery)))
      case ListComplaints => Step(st, Handled(Response(200, All(GetAllComplaints(st)))), None)
      case GetComplaint(raw) => Step(st, Handled(GetComplaintById(st, ParseId(raw))), None)
      case PutStatus(raw, status) => ControllerStep(UpdateComplaintStatus(st, ParseId(raw), status, now))
      case PostFeedback(raw, feedback, rating) =>
        ControllerStep(SubmitFeedback(st, ParseId(raw), feedback, rating, now, delivery))
  }

  /** Creation, fetch by id and feedback are public: authorization makes no difference to them. */
  lemma PublicRoutesIgnoreAuthorization(st: Store, req: Request, now: nat, delivery: Delivery)
    requires WellKeyed(st) && !Protected(req)
    ensures Handle(st, req, true, now, delivery) == Handle(st, req, false, now, delivery)
  {
  }

  /** Reading never writes and never mails. */
  lemma ReadsLeaveStoreAlone(st: Store, req: Request, authorized: bool, now: nat, delivery: Delivery)
    requires WellKeyed(st) && (req.ListComplaints? || req.GetComplaint?)
    ensures Handle(st, req, authorized, now, delivery).store == st
    ensures Handle(st, req, authorized, now, delivery).mail.None?
  {
  }

  /**
   * A request whose upload gate fails creates nothing: a sixth evidence file,
   * a file under another field or a file that is neither an image nor a PDF
   * aborts the whole submission.
   */
  lemma RejectedUploadCreatesNothing(st: Store, title: string, description: string, category: string,
                                     parts: seq<Upload>, authorized: bool, now: nat, delivery: Delivery)
    requires WellKeyed(st)
    requires |FileParts(parts)| > MaxEvidenceFiles
          || exists i :: 0 <= i < |FileParts(parts)| && !Admissible(FileParts(parts)[i])
    ensures var s := Handle(st, PostComplaint(title, description, category, parts), authorized, now, delivery);
      s.store == st && s.answer.UploadAborted? && s.mail.None? && StatusCode(s.answer) == Some(500)
  {
    AcceptFromOkIff(parts, MaxEvidenceFiles);
  }

  /** What every stored record satisfies when it got there through the router. */
  predicate RecordInvariant(c: Complaint) {
    && c.title != "" && IsTrimmed(c.title)
    && c.description != ""
    && c.category in CategoryNames
    && |c.filePaths| <= MaxEvidenceFiles
    && (c.rating.Some? ==> 1 <= c.rating.value <= 5)
    && (c.feedback.Some? ==> IsTrimmed(c.feedback.value))
  }

  predicate StoreInvariant(st: Store) {
    && WellKeyed(st)
    && forall k :: k in st.complaints ==> RecordInvariant(st.complaints[k])
  }

  /** A successful creation adds a record that satisfies the invariant when at most five paths came through. */
  lemma CreatePreservesInvariant(st: Store, title: string, description: string, category: string,
                                 paths: seq<string>, now: nat, delivery: Delivery)
    requires StoreInvariant(st) && |paths| <= MaxEvidenceFiles
    ensures StoreInvariant(CreateComplaint(st, title, description, category, paths, now, delivery).store)
  {
    var o := CreateComplaint(st, title, description, category, paths, now, delivery);
    if o.response.code == 201 {
      var doc := NewDocument(st.nextId, title, description, category, paths, now);
      CategoryRoundTrip(Sanitation, category);
      assert RecordInvariant(doc);
      forall k | k in o.store.complaints
        ensures o.store.complaints[k].id == k && k < o.store.nextId
        ensures RecordInvariant(o.store.complaints[k])
      {
        if k != st.nextId {
          assert o.store.complaints[k] == st.complaints[k];
        }
      }
    }
  }

  lemma UpdatePreservesInvariant(st: Store, id: IdParam, status: Option<string>, now: nat)
    requires StoreInvariant(st)
    ensures StoreInvariant(UpdateComplaintStatus(st, id, status, now).store)
  {
    var o := UpdateComplaintStatus(st, id, status, now);
    forall k | k in o.store.complaints
      ensures o.store.complaints[k].id == k && k < o.store.nextId
      ensures RecordInvariant(o.store.complaints[k])
    {
      assert k in st.complaints;
    }
  }

  lemma FeedbackPreservesInvariant(st: Store, id: IdParam, feedback: Option<string>, rating: Option<int>,
                                   now: nat, delivery: Delivery)
    requires StoreInvariant(st)
    ensures StoreInvariant(SubmitFeedback(st, id, feedback, rating, now, delivery).store)
  {
    var o := SubmitFeedback(st, id, feedback, rating, now, delivery);
    if id.ObjectId? && id.id in st.complaints {
      var updated := WithFeedback(st.complaints[id.id], feedback, rating, now);
      if Conforms(updated) {
        if feedback.Some? {
          TrimIsBlankFramedInfix(feedback.value);
        }
        assert RecordInvariant(updated);
        forall k | k in o.store.complaints
          ensures o.store.complaints[k].id == k && k < o.store.nextId
          ensures RecordInvariant(o.store.complaints[k])
        {
          assert k in st.complaints;
        }
      }
    }
  }

  /**
   * Every request keeps the store invariant: records are keyed by id, carry a
   * trimmed non-empty title, a description, a listed category, at most five
   * evidence paths and, once rated, a rating in 1..5. The status is not part
   * of it: the update path stores any text.
   */
  lemma HandlePreservesInvariant(st: Store, req: Request, authorized: bool, now: nat, delivery: Delivery)
    requires StoreInvariant(st)
    ensures StoreInvariant(Handle(st, req, authorized, now, delivery).store)
  {
    if !(Protected(req) && !authorized) {
      match req {
        case PostComplaint(title, description, category, parts) =>
          if AcceptUploads(parts).Ok? {
            AcceptedUploadsAreBounded(parts);
            CreatePreservesInvariant(st, title, description, category, AcceptUploads(parts).value, now, delivery);
          }
        case ListComplaints =>
        case GetComplaint(_) =>
        case PutStatus(raw, status) =>
          UpdatePreservesInvariant(st, ParseId(raw), status, now);
        case PostFeedback(raw, feedback, rating) =>
          FeedbackPreservesInvariant(st, ParseId(raw), feedback, rating, now, delivery);
      }
    }
  }
}
