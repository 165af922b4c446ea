/**
 * The upload gate in front of `createComplaint`: multer's
 * `upload.array('evidenceFiles', 5)` with the route's `fileFilter` and the
 * disk storage that names each file `Date.now() + path.extname(originalname)`
 * under `uploads/`.
 */
module Uploads {
  import opened Common
  import opened Text

  /** The only multipart field that may carry files. */
  const EvidenceField: string := "evidenceFiles"

  /** At most this many files are accepted under the evidence field. */
  const MaxEvidenceFiles: nat := 5

  const UploadDir: string := "uploads/"

  /**
   * One file part of the multipart request, in stream order. `originalName` is
   * the base name the browser sent (the multipart parser drops any directory
   * part), and `receivedAt` is the clock reading, in milliseconds, when the
   * storage engine named the file.
   */
  datatype Upload = Upload(field: string, mimetype: string, originalName: string, receivedAt: nat)

  /** Why multer aborted the request. */
  datatype UploadError =
    | UnexpectedField(field: string)   // MulterError LIMIT_UNEXPECTED_FILE: unknown field or more than the cap
    | InvalidFileType                  // the route's fileFilter called back with an error

  /** The route's `fileFilter`: images of any kind and PDF documents. */
  predicate AcceptsMime(mimetype: string) {
    StartsWith(mimetype, "image/") || mimetype == "application/pdf"
  }

  function LastDot(s: string): (k: int)
    ensures -1 <= k < |s|
    ensures k >= 0 ==> s[k] == '.'
    ensures forall i :: k < i < |s| ==> s[i] != '.'
    decreases |s|
  {
    if s == [] then -1
    else if s[|s| - 1] == '.' then |s| - 1
    else LastDot(s[..|s| - 1])
  }

  /**
   * Node's `path.extname` of a base name: from the last dot to the end, except
   * that a name with no dot, a name whose only dot is its first character and
   * the name ".." have no extension.
   */
  function ExtName(name: string): (e: string)
    ensures e != [] <==> LastDot(name) > 0 && name != ".."
    ensures e != [] ==> e == name[LastDot(name)..]
    ensures |e| <= |name| && e == name[|name| - |e|..]
    ensures e == [] || e[0] == '.'
    ensures forall i :: 0 < i < |e| ==> e[i] != '.'
  {
    var k := LastDot(name);
    if k <= 0 then ""
    else if name == ".." then ""
    else name[k..]
  }

  /** The disk storage's `filename` callback. */
  function StoredFilename(receivedAt: nat, originalName: string): string {
    DecimalString(receivedAt) + ExtName(originalName)
  }

  /** `file.path` as the disk storage reports it. */
  function StoredPath(u: Upload): string {
    UploadDir + StoredFilename(u.receivedAt, u.originalName)
  }

  /** A stored file keeps the extension of the original file: the type a browser infers from it is unchanged. */
  lemma StoredFilenameKeepsExtension(receivedAt: nat, originalName: string)
    ensures ExtName(StoredFilename(receivedAt, originalName)) == ExtName(originalName)
  {
    var d := DecimalString(receivedAt);
    var e := ExtName(originalName);
    var s := d + e;
    assert d[0] != '.';
    if e == [] {
      assert forall i :: 0 <= i < |s| ==> s[i] != '.';
      assert LastDot(s) == -1 by { NoDotMeansNoLastDot(s); }
    } else {
      assert s[|d|] == '.';
      assert forall i :: |d| < i < |s| ==> s[i] != '.';
      assert LastDot(s) == |d| by { LastDotIsLast(s, |d|); }
      assert s[|d|..] == e;
    }
  }

  lemma {:induction false} NoDotMeansNoLastDot(s: string)
    requires forall i :: 0 <= i < |s| ==> s[i] != '.'
    ensures LastDot(s) == -1
    decreases |s|
  {
    if s != [] {
      NoDotMeansNoLastDot(s[..|s| - 1]);
    }
  }

  lemma {:induction false} LastDotIsLast(s: string, k: nat)
    requires k < |s| && s[k] == '.'
    requires forall i :: k < i < |s| ==> s[i] != '.'
    ensures LastDot(s) == k
    decreases |s|
  {
    if k < |s| - 1 {
      LastDotIsLast(s[..|s| - 1], k);
    }
  }

  /** The parts multer turns into files: a part without a file name is skipped. */
  predicate IsFilePart(u: Upload) {
    u.originalName != ""
  }

  /** A part multer would accept on its own: the evidence field and an accepted type. */
  predicate Admissible(u: Upload) {
    u.field == EvidenceField && AcceptsMime(u.mimetype)
  }

  function FileParts(parts: seq<Upload>): (r: seq<Upload>)
    ensures |r| <= |parts|
    ensures forall i :: 0 <= i < |r| ==> IsFilePart(r[i])
    ensures forall u :: u in r <==> u in parts && IsFilePart(u)
    decreases |parts|
  {
    if parts == [] then []
    else if IsFilePart(parts[0]) then [parts[0]] + FileParts(parts[1..])
    else FileParts(parts[1..])
  }

  /** Selecting the file parts acts on each part on its own, so stream order is kept. */
  lemma {:induction false} FilePartsDistributes(a: seq<Upload>, b: seq<Upload>)
    ensures FileParts(a + b) == FileParts(a) + FileParts(b)
    decreases |a|
  {
    if a == [] {
      assert a + b == b;
    } else {
      assert (a + b)[0] == a[0];
      assert (a + b)[1..] == a[1..] + b;
      FilePartsDistributes(a[1..], b);
    }
  }

  /**
   * multer's handling of the parts in stream order with `left` evidence slots
   * remaining: the field check comes first and consumes a slot, then the route's
   * filter; the first failure aborts the whole request.
   */
  function AcceptFrom(parts: seq<Upload>, left: nat): Result<seq<string>, UploadError>
    decreases |parts|
  {
    if parts == [] then Ok([])
    else
      var u := parts[0];
      if !IsFilePart(u) then AcceptFrom(parts[1..], left)
      else if u.field != EvidenceField || left == 0 then Err(UnexpectedField(u.field))
      else if !AcceptsMime(u.mimetype) then Err(InvalidFileType)
      else
        match AcceptFrom(parts[1..], left - 1)
        case Err(e) => Err(e)
        case Ok(rest) => Ok([StoredPath(u)] + rest)
  }

  function StoredPaths(files: seq<Upload>): (r: seq<string>)
    ensures |r| == |files|
    ensures forall i :: 0 <= i < |files| ==> r[i] == StoredPath(files[i])
    decreases |files|
  {
    if files == [] then [] else [StoredPath(files[0])] + StoredPaths(files[1..])
  }

  /** `upload.array('evidenceFiles', 5)` over the request's parts. */
  function AcceptUploads(parts: seq<Upload>): Result<seq<string>, UploadError> {
    AcceptFrom(parts, MaxEvidenceFiles)
  }

  /** Every file part is admissible and there are at most `left` of them. */
  predicate GateOpen(files: seq<Upload>, left: nat) {
    |files| <= left && forall i :: 0 <= i < |files| ==> Admissible(files[i])
  }

  /**
   * The request passes the gate iff every file part is an admissible evidence
   * file and there are at most `left` of them: one bad file fails the request as a whole.
   */
  lemma {:induction false} AcceptFromOkIff(parts: seq<Upload>, left: nat)
    ensures AcceptFrom(parts, left).Ok? <==> GateOpen(FileParts(parts), left)
    decreases |parts|
  {
    if parts != [] {
      var u := parts[0];
      var tail := parts[1..];
      if !IsFilePart(u) {
        AcceptFromOkIff(tail, left);
      } else {
        assert FileParts(parts) == [u] + FileParts(tail);
        GateOpenCons(u, FileParts(tail), left);
        if u.field == EvidenceField && left > 0 && AcceptsMime(u.mimetype) {
          AcceptFromOkIff(tail, left - 1);
        }
      }
    }
  }

  /** The gate is open for a file followed by others iff a slot is left, the file is admissible and the gate is open for the rest. */
  lemma GateOpenCons(u: Upload, rest: seq<Upload>, left: nat)
    ensures GateOpen([u] + rest, left) <==> left > 0 && Admissible(u) && GateOpen(rest, left - 1)
  {
    var files := [u] + rest;
    if left > 0 && Admissible(u) && GateOpen(rest, left - 1) {
      forall i | 0 <= i < |files|
        ensures Admissible(files[i])
      {
        if i > 0 {
          assert files[i] == rest[i - 1];
        }
      }
    }
    if GateOpen(files, left) {
      assert files[0] == u;
      forall i | 0 <= i < |rest|
        ensures Admissible(rest[i])
      {
        assert rest[i] == files[i + 1];
      }
    }
  }

  /** An accepted request yields the stored paths of its files, in upload order. */
  lemma {:induction false} AcceptFromPaths(parts: seq<Upload>, left: nat)
    requires AcceptFrom(parts, left).Ok?
    ensures AcceptFrom(parts, left).value == StoredPaths(FileParts(parts))
    decreases |parts|
  {
    if parts != [] {
      var u := parts[0];
      var tail := parts[1..];
      if !IsFilePart(u) {
        AcceptFromPaths(tail, left);
      } else {
        AcceptFromPaths(tail, left - 1);
        assert FileParts(parts) == [u] + FileParts(tail);
        assert StoredPaths(FileParts(parts)) == [StoredPath(u)] + StoredPaths(FileParts(tail));
      }
    }
  }

  /** Every accepted request carries at most five evidence files, each an image or a PDF. */
  lemma AcceptedUploadsAreBounded(parts: seq<Upload>)
    requires AcceptUploads(parts).Ok?
    ensures |AcceptUploads(parts).value| <= MaxEvidenceFiles
    ensures AcceptUploads(parts).value == StoredPaths(FileParts(parts))
    ensures forall i :: 0 <= i < |FileParts(parts)| ==> AcceptsMime(FileParts(parts)[i].mimetype)
  {
    AcceptFromOkIff(parts, MaxEvidenceFiles);
    AcceptFromPaths(parts, MaxEvidenceFiles);
  }
}
