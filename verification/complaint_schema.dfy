/**
 * The Mongoose schema of a complaint: field enumerations, the default status,
 * the `trim` setters, the `required` and `min`/`max` validators and the
 * timestamps Mongoose maintains. Validation is what `save()` runs; the
 * controller decides when a save happens.
 */
module ComplaintSchema {
  import opened Common
  import opened Text

  /** Identifier of a stored complaint (a Mongo ObjectId, abstracted to a number). */
  type Id = nat

  datatype Category = Sanitation | Infrastructure | RaggingBullying | Security | Faculty | Other

  datatype Status = Submitted | InProgress | Resolved | Rejected

  /** The category names the schema's `enum` lists, in its order. */
  const CategoryNames: seq<string> :=
    ["Sanitation", "Infrastructure", "Ragging / Bullying", "Security", "Faculty", "Other"]

  /** The status names the schema's `enum` lists, in its order. */
  const StatusNames: seq<string> := ["Submitted", "In Progress", "Resolved", "Rejected"]

  function CategoryName(c: Category): string {
    match c
    case Sanitation => "Sanitation"
    case Infrastructure => "Infrastructure"
    case RaggingBullying => "Ragging / Bullying"
    case Security => "Security"
    case Faculty => "Faculty"
    case Other => "Other"
  }

  function ParseCategory(s: string): Option<Category> {
    if s == "Sanitation" then Some(Sanitation)
    else if s == "Infrastructure" then Some(Infrastructure)
    else if s == "Ragging / Bullying" then Some(RaggingBullying)
    else if s == "Security" then Some(Security)
    else if s == "Faculty" then Some(Faculty)
    else if s == "Other" then Some(Other)
    else None
  }

  function StatusName(s: Status): string {
    match s
    case Submitted => "Submitted"
    case InProgress => "In Progress"
    case Resolved => "Resolved"
    case Rejected => "Rejected"
  }

  function ParseStatus(s: string): Option<Status> {
    if s == "Submitted" then Some(Submitted)
    else if s == "In Progress" then Some(InProgress)
    else if s == "Resolved" then Some(Resolved)
    else if s == "Rejected" then Some(Rejected)
    else None
  }

  /** Category names and the enumeration correspond one to one. */
  lemma CategoryRoundTrip(c: Category, s: string)
    ensures ParseCategory(CategoryName(c)) == Some(c)
    ensures ParseCategory(s) == Some(c) ==> CategoryName(c) == s
    ensures s in CategoryNames <==> ParseCategory(s).Some?
  {
  }

  /** Status names and the enumeration correspond one to one. */
  lemma StatusRoundTrip(t: Status, s: string)
    ensures ParseStatus(StatusName(t)) == Some(t)
    ensures ParseStatus(s) == Some(t) ==> StatusName(t) == s
    ensures s in StatusNames <==> ParseStatus(s).Some?
  {
  }

  /** A complaint document as stored: every schema path plus `_id` and the timestamps. */
  datatype Complaint = Complaint(
    id: Id,
    title: string,
    description: string,
    category: string,
    status: string,
    filePaths: seq<string>,
    feedback: Option<string>,
    rating: Option<int>,
    createdAt: nat,
    updatedAt: nat)

  /** Schema paths that carry a validator. */
  datatype Path = TitlePath | DescriptionPath | CategoryPath | StatusPath | RatingPath

  function PathName(p: Path): string {
    match p
    case TitlePath => "title"
    case DescriptionPath => "description"
    case CategoryPath => "category"
    case StatusPath => "status"
    case RatingPath => "rating"
  }

  /**
   * The paths whose validators reject `c`, in schema order: `required` on title
   * and description (an empty string fails it), `required` plus `enum` on category,
   * `enum` on status, `min: 1`/`max: 5` on a present rating.
   */
  function Violations(c: Complaint): seq<Path> {
    (if c.title == "" then [TitlePath] else [])
    + (if c.description == "" then [DescriptionPath] else [])
    + (if c.category !in CategoryNames then [CategoryPath] else [])
    + (if c.status !in StatusNames then [StatusPath] else [])
    + (if c.rating.Some? && !(1 <= c.rating.value <= 5) then [RatingPath] else [])
  }

  /** What the schema demands of a document, stated over the enumerations themselves. */
  predicate Conforms(c: Complaint) {
    && c.title != ""
    && c.description != ""
    && ParseCategory(c.category).Some?
    && ParseStatus(c.status).Some?
    && (c.rating.Some? ==> 1 <= c.rating.value <= 5)
  }

  /** `save()` passes validation exactly when the document conforms to the schema. */
  lemma ValidationAgreesWithSchema(c: Complaint)
    ensures Violations(c) == [] <==> Conforms(c)
    ensures RatingPath in Violations(c) <==> c.rating.Some? && (c.rating.value < 1 || c.rating.value > 5)
  {
    CategoryRoundTrip(Sanitation, c.category);
    StatusRoundTrip(Submitted, c.status);
  }

  const ValidationPrefix: string := "Complaint validation failed: "

  /** Mongoose's default message of a failed `required` validator. */
  function RequiredText(path: string): string {
    "Path `" + path + "` is required."
  }

  /** Mongoose's default message of a failed `enum` validator. */
  function EnumText(value: string, path: string): string {
    "`" + value + "` is not a valid enum value for path `" + path + "`."
  }

  /** A JavaScript integer as it is printed into a message. */
  function IntString(v: int): (s: string)
    ensures |s| > 0 && NoComma(s)
    ensures v >= 0 ==> AllDigits(s) && DecimalValue(s) == v
    ensures v < 0 ==> s[0] == '-' && AllDigits(s[1..]) && DecimalValue(s[1..]) == -v
  {
    if v < 0 then
      DecimalRoundTrip(-v);
      var s := "-" + DecimalString(-v);
      assert s[1..] == DecimalString(-v);
      s
    else
      DecimalRoundTrip(v);
      DecimalString(v)
  }

  /**
   * The message of the validator that rejects path `p` of `c`. `required` runs
   * before `enum`, and a path reports only its first failing validator, so an
   * empty category reads as missing rather than as unlisted.
   */
  function ViolationText(c: Complaint, p: Path): string {
    match p
    case TitlePath => RequiredText("title")
    case DescriptionPath => RequiredText("description")
    case CategoryPath => if c.category == "" then RequiredText("category") else EnumText(c.category, "category")
    case StatusPath => EnumText(c.status, "status")
    case RatingPath => RangeText(c.rating.GetOr(0))
  }

  const RatingOpening: string := "Path `rating` ("
  const BelowMinimum: string := ") is less than minimum allowed value (1)."
  const AboveMaximum: string := ") is more than maximum allowed value (5)."

  /** Mongoose's default message of a failed `min: 1` or `max: 5` validator on the rating. */
  function RangeText(v: int): string {
    RatingOpening + IntString(v) + (if v < 1 then BelowMinimum else AboveMaximum)
  }

  /** One `path: message` entry per failing path, in path order. */
  function ViolationEntries(c: Complaint): seq<string> {
    var v := Violations(c);
    seq(|v|, i requires 0 <= i < |v| => PathName(v[i]) + ": " + ViolationText(c, v[i]))
  }

  /**
   * The `error.message` of a failed validation: "Complaint validation failed: "
   * followed by the `path: message` entries joined with ", ".
   */
  function ValidationMessage(c: Complaint): (m: string)
    ensures StartsWith(m, ValidationPrefix)
  {
    var m := ValidationPrefix + JoinList(ViolationEntries(c));
    assert m[..|ValidationPrefix|] == ValidationPrefix;
    m
  }

  /**
   * The message reads back into one entry per failing path, in order, each
   * naming its path and carrying that path's validator message, provided the
   * offending enum values hold no comma of their own.
   */
  lemma ValidationMessageListsEachViolation(c: Complaint)
    requires Violations(c) != []
    requires NoComma(c.category) && NoComma(c.status)
    ensures var v := Violations(c);
            var entries := SplitList(ValidationMessage(c)[|ValidationPrefix|..]);
      && |entries| == |v|
      && forall i :: 0 <= i < |v| ==>
           && StartsWith(entries[i], PathName(v[i]) + ": ")
           && entries[i][|PathName(v[i])| + 2..] == ViolationText(c, v[i])
  {
    var v := Violations(c);
    var es := ViolationEntries(c);
    forall i | 0 <= i < |es|
      ensures NoComma(es[i])
    {
      ViolationEntryHasNoComma(c, v[i]);
    }
    SplitJoinRoundTrip(es);
    var m := ValidationMessage(c);
    assert m[|ValidationPrefix|..] == JoinList(es);
    forall i | 0 <= i < |v|
      ensures StartsWith(es[i], PathName(v[i]) + ": ")
      ensures es[i][|PathName(v[i])| + 2..] == ViolationText(c, v[i])
    {
      var head := PathName(v[i]) + ": ";
      assert es[i] == head + ViolationText(c, v[i]);
      assert es[i][..|head|] == head;
    }
  }

  lemma ViolationEntryHasNoComma(c: Complaint, p: Path)
    requires NoComma(c.category) && NoComma(c.status)
    ensures NoComma(PathName(p) + ": " + ViolationText(c, p))
  {
    var t := ViolationText(c, p);
    match p {
      case TitlePath => RequiredTextHasNoComma("title");
      case DescriptionPath => RequiredTextHasNoComma("description");
      case CategoryPath =>
        RequiredTextHasNoComma("category");
        EnumTextHasNoComma(c.category, "category");
      case StatusPath => EnumTextHasNoComma(c.status, "status");
      case RatingPath => RangeTextHasNoComma(c.rating.GetOr(0));
    }
    assert ',' !in t;
    assert ',' !in PathName(p) + ": ";
    NoCommaIffNotIn(PathName(p) + ": " + t);
  }

  lemma RequiredTextHasNoComma(path: string)
    requires ',' !in path
    ensures ',' !in RequiredText(path)
  {
  }

  lemma EnumTextHasNoComma(value: string, path: string)
    requires NoComma(value) && ',' !in path
    ensures ',' !in EnumText(value, path)
  {
    NoCommaIffNotIn(value);
  }

  lemma RangeTextHasNoComma(v: int)
    ensures ',' !in RangeText(v)
  {
    NoCommaIffNotIn(IntString(v));
    OpeningHasNoComma();
    if v < 1 {
      BelowMinimumHasNoComma();
    } else {
      AboveMaximumHasNoComma();
    }
  }

  lemma OpeningHasNoComma()
    ensures ',' !in RatingOpening
  {
  }

  lemma BelowMinimumHasNoComma()
    ensures ',' !in BelowMinimum
  {
  }

  lemma AboveMaximumHasNoComma()
    ensures ',' !in AboveMaximum
  {
  }

  function TrimOpt(s: Option<string>): Option<string> {
    match s
    case None => None
    case Some(t) => Some(Trim(t))
  }

  /**
   * `new Complaint({title, description, category, filePaths})` at time `now`:
   * the `trim` setter applies to the title, status takes its default and both
   * timestamps are the creation time.
   */
  function NewDocument(id: Id, title: string, description: string, category: string,
                       filePaths: seq<string>, now: nat): (c: Complaint)
    ensures c.id == id && c.description == description && c.category == category
    ensures c.title == Trim(title) && IsTrimmed(c.title)
    ensures c.status == StatusName(Submitted)
    ensures c.filePaths == filePaths
    ensures c.feedback.None? && c.rating.None?
    ensures c.createdAt == now && c.updatedAt == now
  {
    TrimIsBlankFramedInfix(title);
    Complaint(id, Trim(title), description, category, "Submitted", filePaths, None, None, now, now)
  }

  /** A fresh document conforms iff the title is not blank, the description is not empty and the category is listed. */
  lemma NewDocumentConforms(id: Id, title: string, description: string, category: string,
                            filePaths: seq<string>, now: nat)
    ensures Conforms(NewDocument(id, title, description, category, filePaths, now))
        <==> !AllSpace(title) && description != "" && category in CategoryNames
  {
    TrimEmptyIffBlank(title);
    CategoryRoundTrip(Sanitation, category);
  }

  /** The assignments `complaint.feedback = feedback; complaint.rating = rating` at time `now`. */
  function WithFeedback(c: Complaint, feedback: Option<string>, rating: Option<int>, now: nat): (d: Complaint)
    ensures d.feedback == TrimOpt(feedback) && d.rating == rating && d.updatedAt == now
    ensures d.(feedback := c.feedback, rating := c.rating, updatedAt := c.updatedAt) == c
  {
    c.(feedback := TrimOpt(feedback), rating := rating, updatedAt := now)
  }

  /**
   * The `{ status }` update: no setter or validator runs and `updatedAt` is
   * refreshed. A request body without `status` leaves an update whose only
   * key is undefined; Mongoose drops that key, so only `updatedAt` moves.
   */
  function WithStatus(c: Complaint, status: Option<string>, now: nat): (d: Complaint)
    ensures status.Some? ==> d.status == status.value
    ensures status.None? ==> d.status == c.status
    ensures d.updatedAt == now
    ensures d.(status := c.status, updatedAt := c.updatedAt) == c
  {
    match status
    case Some(s) => c.(status := s, updatedAt := now)
    case None => c.(updatedAt := now)
  }
}
