/**
 * The complaint form's state logic: the chosen evidence files, removal by
 * name, the submit outcome (form reset, shown message or error) and the
 * recent-complaints history the browser keeps.
 */
module ComplaintForm {
  import opened Common
  import opened Text
  import Controller
  import Routes
  import Uploads
  import ComplaintSchema

  /** The form keeps at most this many files, as does the server. */
  const MaxFiles: nat := 5

  const MaxRecent: nat := 5

  const DefaultCategory: string := "Sanitation"

  const FallbackError: string := "Failed to submit complaint."

  /** A file chosen in the browser; `content` stands for everything but the name. */
  datatype FileChoice = FileChoice(name: string, content: nat)

  /** `handleFileChange`: the earlier files followed by the new ones, cut to the first five. */
  function AddFiles(prev: seq<FileChoice>, incoming: seq<FileChoice>): (r: seq<FileChoice>)
    ensures |r| == Min(MaxFiles, |prev| + |incoming|)
    ensures forall f :: f in r ==> f in prev || f in incoming
  {
    var all := prev + incoming;
    all[..Min(MaxFiles, |all|)]
  }

  /**
   * Choosing files keeps at most five; the files chosen before stay first and
   * in order, then the new ones in the order picked, until the cap is reached.
   */
  lemma AddFilesKeepsEarlierFirst(prev: seq<FileChoice>, incoming: seq<FileChoice>)
    requires |prev| <= MaxFiles
    ensures var r := AddFiles(prev, incoming);
      && |r| == Min(MaxFiles, |prev| + |incoming|)
      && r[..|prev|] == prev
      && r[|prev|..] == incoming[..|r| - |prev|]
  {
    var r := AddFiles(prev, incoming);
    assert r == (prev + incoming)[..|r|];
    assert r[..|prev|] == (prev + incoming)[..|prev|];
    assert r[|prev|..] == (prev + incoming)[|prev|..|r|];
  }

  /** Two selections in a row keep the same files as one selection of both batches. */
  lemma AddFilesTwice(prev: seq<FileChoice>, a: seq<FileChoice>, b: seq<FileChoice>)
    ensures AddFiles(AddFiles(prev, a), b) == AddFiles(prev, a + b)
  {
    var all := prev + a + b;
    var first := AddFiles(prev, a);
    assert prev + (a + b) == all;
    assert first + b == all[..|first|] + b;
    var n := Min(MaxFiles, |first| + |b|);
    var m := Min(MaxFiles, |all|);
    assert n == m;
    forall i | 0 <= i < n
      ensures (first + b)[i] == all[i]
    {
    }
  }

  /** `files.filter(file => file.name !== fileName)` from `removeFile`. */
  function RemoveFile(files: seq<FileChoice>, name: string): (r: seq<FileChoice>)
    ensures |r| <= |files|
    ensures forall f :: f in r ==> f in files && f.name != name
    decreases |files|
  {
    if files == [] then []
    else if files[0].name != name then [files[0]] + RemoveFile(files[1..], name)
    else RemoveFile(files[1..], name)
  }

  /**
   * Removal by name distributes over concatenation: it acts on each file on its
   * own, so the rest keep their relative order.
   */
  lemma {:induction false} RemoveFileDistributes(xs: seq<FileChoice>, ys: seq<FileChoice>, name: string)
    ensures RemoveFile(xs + ys, name) == RemoveFile(xs, name) + RemoveFile(ys, name)
    decreases |xs|
  {
    if xs == [] {
      assert xs + ys == ys;
    } else {
      assert (xs + ys)[0] == xs[0];
      assert (xs + ys)[1..] == xs[1..] + ys;
      RemoveFileDistributes(xs[1..], ys, name);
    }
  }

  /**
   * Every file with that name goes and every other file stays, as often as it
   * was there: the multiset of the rest is exactly the files with other names.
   */
  lemma RemoveFileRemovesExactlyName(files: seq<FileChoice>, name: string)
    ensures forall f :: f in RemoveFile(files, name) ==> f.name != name
    ensures forall f: FileChoice :: f.name != name ==> multiset(RemoveFile(files, name))[f] == multiset(files)[f]
    ensures |RemoveFile(files, name)| <= |files|
  {
    forall f: FileChoice | f.name != name
      ensures multiset(RemoveFile(files, name))[f] == multiset(files)[f]
    {
      RemoveFileKeepsCount(files, name, f);
    }
  }

  lemma {:induction false} RemoveFileKeepsCount(files: seq<FileChoice>, name: string, f: FileChoice)
    requires f.name != name
    ensures multiset(RemoveFile(files, name))[f] == multiset(files)[f]
    decreases |files|
  {
    if files != [] {
      RemoveFileKeepsCount(files[1..], name, f);
      assert files == [files[0]] + files[1..];
    }
  }

  /** Removing the same name twice is removing it once. */
  lemma RemoveFileIdempotent(files: seq<FileChoice>, name: string)
    ensures RemoveFile(RemoveFile(files, name), name) == RemoveFile(files, name)
  {
    RemoveFileRemovesExactlyName(files, name);
    NoSuchNameIsKept(RemoveFile(files, name), name);
  }

  lemma {:induction false} NoSuchNameIsKept(files: seq<FileChoice>, name: string)
    requires forall f :: f in files ==> f.name != name
    ensures RemoveFile(files, name) == files
    decreases |files|
  {
    if files != [] {
      NoSuchNameIsKept(files[1..], name);
    }
  }

  /** One entry of the browser's `recentComplaints` history. */
  datatype RecentEntry = RecentEntry(id: string, category: string, date: string)

  /**
   * `unshift` then `slice(0, 5)` on the stored history, an absent history
   * counting as empty.
   */
  function RecordRecent(stored: Option<seq<RecentEntry>>, entry: RecentEntry): (r: seq<RecentEntry>)
    ensures 1 <= |r| <= MaxRecent && r[0] == entry
  {
    var all := [entry] + stored.GetOr([]);
    all[..Min(MaxRecent, |all|)]
  }

  /** The new entry heads the history, which keeps at most five entries, the older ones in their order. */
  lemma RecordRecentPrepends(stored: Option<seq<RecentEntry>>, entry: RecentEntry)
    ensures var r := RecordRecent(stored, entry);
      && 1 <= |r| <= MaxRecent
      && r[0] == entry
      && r[1..] == stored.GetOr([])[..|r| - 1]
      && |r| == Min(MaxRecent, |stored.GetOr([])| + 1)
  {
    var earlier := stored.GetOr([]);
    var r := RecordRecent(stored, entry);
    assert r[1..] == ([entry] + earlier)[1..|r|];
  }

  /** The form's state. */
  datatype Form = Form(title: string, description: string, category: string, files: seq<FileChoice>,
                       message: string, error: string)

  const InitialForm: Form := Form("", "", DefaultCategory, [], "", "")

  /** How the POST ended, as axios reports it. */
  datatype Reply =
    | Accepted(complaintId: string)        // a 2xx answer with `complaintId`
    | Rejected(serverError: Option<string>) // any other answer; `error` of its JSON body, if any

  /** `err.response?.data?.error || 'Failed to submit complaint.'`: an empty error text is falsy too. */
  function ShownError(serverError: Option<string>): (e: string)
    ensures |e| > 0
    ensures serverError.Some? && serverError.value != "" ==> e == serverError.value
    ensures serverError.None? || serverError.value == "" ==> e == FallbackError
  {
    match serverError
    case Some(e) => if e != "" then e else FallbackError
    case None => FallbackError
  }

  /**
   * `handleSubmit` after the POST: on success the history gains the new id and
   * the form resets with a confirmation; on failure the form keeps its inputs
   * and shows the error, and the history is left as it was.
   */
  function AfterSubmit(form: Form, history: Option<seq<RecentEntry>>, reply: Reply, date: string)
    : (r: (Form, Option<seq<RecentEntry>>))
  {
    match reply
    case Accepted(id) =>
      (InitialForm.(message := "Complaint submitted! ID: " + id),
       Some(RecordRecent(history, RecentEntry(id, form.category, date))))
    case Rejected(e) =>
      (form.(message := "", error := ShownError(e)), history)
  }

  /** After a success the form is back to its defaults (category Sanitation, no files) and the id heads the history. */
  lemma SuccessResetsForm(form: Form, history: Option<seq<RecentEntry>>, id: string, date: string)
    ensures var (f, h) := AfterSubmit(form, history, Accepted(id), date);
      && f.title == "" && f.description == "" && f.category == DefaultCategory && f.files == []
      && f.error == "" && f.message == "Complaint submitted! ID: " + id
      && h.Some? && h.value[0] == RecentEntry(id, form.category, date) && |h.value| <= MaxRecent
  {
    RecordRecentPrepends(history, RecentEntry(id, form.category, date));
  }

  /** After a failure the inputs, files and history are kept and only the error is shown. */
  lemma FailureKeepsInputs(form: Form, history: Option<seq<RecentEntry>>, e: Option<string>, date: string)
    ensures var (f, h) := AfterSubmit(form, history, Rejected(e), date);
      && h == history
      && f.(error := form.error, message := form.message) == form
      && f.error != "" && f.message == ""
  {
  }

  /** What axios hands the form for a given server answer. */
  function ReplyFor(a: Routes.Answer): Reply {
    match a
    case Handled(resp) =>
      if 200 <= resp.code < 300 && resp.body.Submission? then Accepted(DecimalString(resp.body.complaintId))
      else if resp.body.Failure? then Rejected(resp.body.error)
      else Rejected(None)
    case UploadAborted(_) => Rejected(None)
    case Guarded => Rejected(None)
  }

  /** A 2xx answer that carries the new id: the only answer axios resolves here. */
  predicate Created(a: Routes.Answer) {
    a.Handled? && 200 <= a.response.code < 300 && a.response.body.Submission?
  }

  /** A failure answer with a non-empty `error` text in its body. */
  predicate CarriesError(a: Routes.Answer) {
    a.Handled? && a.response.body.Failure? && a.response.body.error.Some? && a.response.body.error.value != ""
  }

  /**
   * How any answer reaches the form: every rejected answer without a non-empty
   * `error` text (an upload abort, a `protect` refusal, a body without `error`)
   * shows the fallback, a failure with one shows it, and a 2xx creation puts
   * the returned id at the head of the history.
   */
  lemma AnswerReachesForm(a: Routes.Answer, form: Form, history: Option<seq<RecentEntry>>, date: string)
    ensures var (f, h) := AfterSubmit(form, history, ReplyFor(a), date);
      && (!Created(a) && !CarriesError(a) ==> f.error == FallbackError && h == history)
      && (!Created(a) && CarriesError(a) ==> f.error == a.response.body.error.value && h == history)
      && (Created(a) ==>
            && h.Some? && h.value[0].id == DecimalString(a.response.body.complaintId)
            && f.message == "Complaint submitted! ID: " + DecimalString(a.response.body.complaintId))
  {
    if Created(a) {
      var id := DecimalString(a.response.body.complaintId);
      RecordRecentPrepends(history, RecentEntry(id, form.category, date));
    }
  }

  /**
   * End to end: a submission the upload gate rejects shows the fallback text,
   * since Express's error page carries no `error` field; a submission the schema
   * rejects shows the server's validation message.
   */
  lemma ServerErrorsReachTheForm(st: Controller.Store, title: string, description: string, category: string,
                                 parts: seq<Uploads.Upload>, now: nat, delivery: Controller.Delivery,
                                 form: Form, history: Option<seq<RecentEntry>>, date: string)
    requires Controller.WellKeyed(st)
    ensures var s := Routes.Handle(st, Routes.PostComplaint(title, description, category, parts), false, now, delivery);
            var (f, h) := AfterSubmit(form, history, ReplyFor(s.answer), date);
      && (s.answer.UploadAborted? ==> f.error == FallbackError && h == history)
      && (s.answer.Handled? && s.answer.response.code == 500 ==>
            && f.error == ComplaintSchema.ValidationMessage(
                 ComplaintSchema.NewDocument(st.nextId, title, description, category,
                                             Uploads.AcceptUploads(parts).value, now))
            && h == history)
      && (s.answer.Handled? && s.answer.response.code == 201 ==>
            h.Some? && h.value[0].id == DecimalString(s.answer.response.body.complaintId))
  {
    var s := Routes.Handle(st, Routes.PostComplaint(title, description, category, parts), false, now, delivery);
    AnswerReachesForm(s.answer, form, history, date);
  }
}
