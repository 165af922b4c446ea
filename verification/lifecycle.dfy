/**
 * Properties that relate several controller calls: what a later read sees of
 * an earlier write, how the mail outcome does or does not reach the caller,
 * and what repeated feedback does.
 */
module Lifecycle {
  import opened Common
  import opened Text
  import opened ComplaintSchema
  import opened Controller

  /** The outcome of the mail sent on creation never changes the store, the answer or the mail itself. */
  lemma CreateSwallowsMailFailure(st: Store, title: string, description: string, category: string,
                                  filePaths: seq<string>, now: nat, reason: string)
    ensures CreateComplaint(st, title, description, category, filePaths, now, Refused(reason))
         == CreateComplaint(st, title, description, category, filePaths, now, Delivered)
  {
  }

  /**
   * The asymmetry between the two notifying handlers: when a mail is attempted
   * and refused, creation still answers 201 with the new id, while feedback
   * answers 500 although the store holds the new feedback exactly as after a
   * delivered mail.
   */
  lemma MailFailureAsymmetry(st: Store, k: Id, feedback: Option<string>, rating: Option<int>,
                             title: string, description: string, category: string,
                             filePaths: seq<string>, now: nat, reason: string)
    requires |st.admins| > 0
    requires k in st.complaints && Conforms(WithFeedback(st.complaints[k], feedback, rating, now))
    requires Conforms(NewDocument(st.nextId, title, description, category, filePaths, now))
    ensures var created := CreateComplaint(st, title, description, category, filePaths, now, Refused(reason));
      && created.mail.Some?
      && created.response == Response(201, Submission("Complaint submitted successfully!", st.nextId))
    ensures var refused := SubmitFeedback(st, ObjectId(k), feedback, rating, now, Refused(reason));
            var delivered := SubmitFeedback(st, ObjectId(k), feedback, rating, now, Delivered);
      && refused.mail.Some?
      && refused.response.code == 500 && delivered.response.code == 200
      && refused.store == delivered.store
      && refused.store.complaints[k].feedback == TrimOpt(feedback)
      && refused.store.complaints[k].rating == rating
  {
  }

  /** A rating outside 1..5 fails validation: nothing is written and no mail goes out. */
  lemma OutOfRangeRatingWritesNothing(st: Store, id: IdParam, feedback: Option<string>, r: int,
                                     now: nat, delivery: Delivery)
    requires r < 1 || r > 5
    ensures var o := SubmitFeedback(st, id, feedback, Some(r), now, delivery);
      o.store == st && o.mail.None? && o.response.code != 200
  {
  }

  /**
   * Feedback is never refused for being a repeat: a second submission replaces
   * the first, whatever the status and whatever was there before.
   */
  lemma SecondFeedbackReplacesFirst(st: Store, k: Id, f1: Option<string>, r1: Option<int>,
                                    f2: Option<string>, r2: Option<int>, t1: nat, t2: nat,
                                    d1: Delivery, d2: Delivery)
    requires k in st.complaints
    requires Conforms(WithFeedback(st.complaints[k], f1, r1, t1))
    requires r2.Some? ==> 1 <= r2.value <= 5
    ensures var first := SubmitFeedback(st, ObjectId(k), f1, r1, t1, d1);
            var second := SubmitFeedback(first.store, ObjectId(k), f2, r2, t2, d2);
      && k in second.store.complaints
      && second.store.complaints[k] == WithFeedback(st.complaints[k], f2, r2, t2)
  {
    var first := SubmitFeedback(st, ObjectId(k), f1, r1, t1, d1);
    var c1 := first.store.complaints[k];
    assert Conforms(WithFeedback(c1, f2, r2, t2));
  }

  /** A created complaint can be fetched by its id at once: status Submitted, the uploaded paths, no feedback. */
  lemma CreatedComplaintIsFetchable(st: Store, title: string, description: string, category: string,
                                    filePaths: seq<string>, now: nat, delivery: Delivery)
    requires !AllSpace(title) && description != "" && category in CategoryNames
    ensures var o := CreateComplaint(st, title, description, category, filePaths, now, delivery);
      && o.response.code == 201
      && var r := GetComplaintById(o.store, ObjectId(o.response.body.complaintId));
      && r.code == 200
      && r.body.complaint.status == "Submitted"
      && r.body.complaint.filePaths == filePaths
      && r.body.complaint.title == Trim(title)
      && r.body.complaint.feedback.None? && r.body.complaint.rating.None?
  {
    NewDocumentConforms(st.nextId, title, description, category, filePaths, now);
  }

  /**
   * A status update is read back by the next fetch; nothing but the status and
   * `updatedAt` moved, and a body without `status` moves only `updatedAt`.
   */
  lemma UpdatedStatusIsFetched(st: Store, k: Id, status: Option<string>, now: nat)
    requires k in st.complaints
    ensures var o := UpdateComplaintStatus(st, ObjectId(k), status, now);
            var r := GetComplaintById(o.store, ObjectId(k));
            var shown := if status.Some? then status.value else st.complaints[k].status;
      && r.code == 200 && r.body.complaint.status == shown
      && r.body.complaint == st.complaints[k].(status := shown, updatedAt := now)
      && forall j :: j in st.complaints && j != k ==> GetComplaintById(o.store, ObjectId(j)) == GetComplaintById(st, ObjectId(j))
  {
  }

  /**
   * The status update skips the schema's enum, so it can store a status the
   * schema does not list; the next feedback `save()` validates the whole record
   * and then fails with 500, writing nothing.
   */
  lemma UnlistedStatusBlocksFeedback(st: Store, k: Id, status: string, now: nat, later: nat,
                                     feedback: Option<string>, rating: Option<int>, delivery: Delivery)
    requires k in st.complaints && status !in StatusNames
    ensures var o := UpdateComplaintStatus(st, ObjectId(k), Some(status), now);
      && o.response.code == 200 && o.store.complaints[k].status == status
      && var f := SubmitFeedback(o.store, ObjectId(k), feedback, rating, later, delivery);
      && f.response.code == 500 && f.store == o.store && f.mail.None?
  {
    var o := UpdateComplaintStatus(st, ObjectId(k), Some(status), now);
    var updated := WithFeedback(o.store.complaints[k], feedback, rating, later);
    StatusRoundTrip(Submitted, status);
    assert !Conforms(updated);
  }

  /** Creation files the record under a fresh id and moves `nextId` past it. */
  lemma CreateKeepsStoreWellKeyed(st: Store, title: string, description: string, category: string,
                                  filePaths: seq<string>, now: nat, delivery: Delivery)
    requires WellKeyed(st)
    ensures WellKeyed(CreateComplaint(st, title, description, category, filePaths, now, delivery).store)
  {
    var o := CreateComplaint(st, title, description, category, filePaths, now, delivery);
    if o.response.code == 201 {
      var doc := NewDocument(st.nextId, title, description, category, filePaths, now);
      assert o.store.complaints == st.complaints[st.nextId := doc];
      forall k | k in o.store.complaints
        ensures o.store.complaints[k].id == k && k < o.store.nextId
      {
        if k != st.nextId {
          assert o.store.complaints[k] == st.complaints[k];
        }
      }
    }
  }

  /** Status updates and feedback rewrite a record in place, under the same id. */
  lemma UpdatesKeepStoreWellKeyed(st: Store, id: IdParam, status: Option<string>, feedback: Option<string>,
                                  rating: Option<int>, now: nat, delivery: Delivery)
    requires WellKeyed(st)
    ensures WellKeyed(UpdateComplaintStatus(st, id, status, now).store)
    ensures WellKeyed(SubmitFeedback(st, id, feedback, rating, now, delivery).store)
  {
    var u := UpdateComplaintStatus(st, id, status, now).store;
    var f := SubmitFeedback(st, id, feedback, rating, now, delivery).store;
    forall k | k in u.complaints
      ensures u.complaints[k].id == k && k < u.nextId
    {
      assert k in st.complaints;
    }
    forall k | k in f.complaints
      ensures f.complaints[k].id == k && k < f.nextId
    {
      assert k in st.complaints;
    }
  }

  /** A new complaint shows up in the full listing exactly once. */
  lemma CreatedComplaintIsListed(st: Store, title: string, description: string, category: string,
                                 filePaths: seq<string>, now: nat, delivery: Delivery)
    requires WellKeyed(st)
    requires !AllSpace(title) && description != "" && category in CategoryNames
    ensures var o := CreateComplaint(st, title, description, category, filePaths, now, delivery);
      && WellKeyed(o.store)
      && multiset(GetAllComplaints(o.store))[NewDocument(st.nextId, title, description, category, filePaths, now)] == 1
  {
    NewDocumentConforms(st.nextId, title, description, category, filePaths, now);
    CreateKeepsStoreWellKeyed(st, title, description, category, filePaths, now, delivery);
  }
}
