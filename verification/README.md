# Complaint tracker: a Dafny model

This project models the SRKR complaint portal: an Express/Mongoose back end and
a React front end. It covers the whole life of a complaint:

- a student submits it with up to five evidence files, and every administrator
  is mailed;
- an administrator lists all complaints and changes their status;
- the student tracks the complaint by id and, once it is resolved, leaves a
  rating and feedback, which is mailed to the administrators again.

The model also covers the script that creates or updates administrator
accounts, and the server's CORS origin check.

Everything is modelled as pure functions over immutable data:

- **Store.** The database is a `Store`: complaints by id, the next id to hand
  out, and the administrator roster.
- **Handlers.** Each controller handler maps a store and its request data to an
  `Outcome`: the new store, the HTTP response, and the mail it attempted.
- **Parameters.** The clock (`now`) and the result of the single mail attempt
  (`Delivered` or `Refused(reason)`) are parameters. So is the password hash
  function of the admin script.
- **Router.** The router (`Routes.Handle`) puts `protect` and multer's upload
  gate in front of the controller. `protect` is an `authorized` flag, and an
  unauthorized request is `Guarded`.
- **Front end.** The front-end components are modelled through their state
  logic:
  - the complaint form's file list, submit outcome, and recent-complaints history;
  - the tracker's input guards and which feedback view it shows;
  - the dashboard's local patch after a status change, its evidence links, and
    its rating caption.

Modules, in dependency order:

- `Common`: option/result types.
- `Text`: JavaScript `trim`, decimal rendering, and the `", "` recipient join.
- `ComplaintSchema`: the Mongoose schema, its validators, and its setters.
- `Admins`: the roster, mail recipients, and `setupAdmins`.
- `Uploads`: multer storage and the file filter.
- `Controller`: the handlers.
- `Lifecycle`: lemmas about several handler calls.
- `Routes`: the router and the store invariant.
- `Cors`: the origin check.
- `ComplaintForm`, `StatusTracker`, `AdminDashboard`: the front end.

Behaviour worth knowing:

- **Status update.** `PUT /:id` stores any status text. `findByIdAndUpdate`
  runs no validators, so nothing rejects a status outside the enumeration.
  `Lifecycle.UnlistedStatusBlocksFeedback` shows the consequence: the next
  feedback `save()` validates the whole document and fails.
- **Missing status.** A `PUT /:id` body without `status` refreshes only
  `updatedAt` and answers 200.
- **Repeated feedback.** A repeated feedback submission is accepted and
  replaces the earlier one.
- **Feedback and rating.** The two are independent. A request may set either
  one alone.
- **Mail failure.** A failed mail is swallowed on creation. On feedback it
  turns the answer into 500 after the feedback is already stored.
- **Error status.** Every failure other than an unknown id answers 500. This
  includes validation errors and malformed ids (a CastError), and multer's
  rejections through Express's default error handler. Creation and feedback
  put the error's message into the body; the other handlers do not.
- **Status graph.** Any status may follow any other.

## Model

| member | source | states |
|---|---|---|
| ComplaintSchema.CategoryRoundTrip | backend/models/Complaint.js:13-17 | category names and the six-value enumeration correspond one to one; a text is listed iff it parses |
| ComplaintSchema.StatusRoundTrip | backend/models/Complaint.js:18-22 | status names and the four-value enumeration correspond one to one; a text is listed iff it parses |
| ComplaintSchema.ValidationAgreesWithSchema | backend/models/Complaint.js:3-38 | `save()` reports no failing path iff the document conforms: non-empty title and description, listed category and status, rating (if present) in 1..5 |
| ComplaintSchema.Violations | backend/models/Complaint.js:3-35 | the paths whose validators reject a document, in path order; characterised by `ValidationAgreesWithSchema` |
| ComplaintSchema.Conforms | backend/models/Complaint.js:3-35 | the schema's demands stated over the enumerations; `ValidationAgreesWithSchema` ties it to `Violations` |
| ComplaintSchema.ViolationText | backend/models/Complaint.js:4-35 | the message of a path's first failing validator: `required` (also for an empty category), then `enum` quoting the value, then `min`/`max` quoting the rating |
| ComplaintSchema.ValidationMessage | backend/controllers/complaintController.js:59-60 | the error text of a rejected save opens with Mongoose's "Complaint validation failed: " |
| ComplaintSchema.ValidationMessageListsEachViolation | backend/controllers/complaintController.js:59-60 | after the prefix the message splits at ", " into one `path: message` entry per failing path, in order, each carrying that validator's message, when the quoted enum values hold no comma |
| ComplaintSchema.NewDocument | backend/controllers/complaintController.js:16-19 | a new document has the trimmed title, default status "Submitted", no feedback or rating, and both timestamps at creation time |
| ComplaintSchema.NewDocumentConforms | backend/models/Complaint.js:3-22 | a submission can be saved iff the title is not all white space, the description is non-empty and the category is listed |
| ComplaintSchema.WithFeedback | backend/controllers/complaintController.js:73-74 | assigning feedback stores the trimmed text and the rating, refreshes `updatedAt` and changes nothing else |
| ComplaintSchema.WithStatus | backend/controllers/complaintController.js:129-132 | the status update sets a given status verbatim and keeps the old one when the body has none, refreshes `updatedAt` and changes nothing else |
| Text.Trim | backend/models/Complaint.js:7 | the `trim` setter never lengthens its input; characterised by `TrimIsBlankFramedInfix` |
| Text.TrimIsBlankFramedInfix | backend/models/Complaint.js:4-8 | the `trim` setter yields an infix of the input with only white space outside it and no white space at either end |
| Text.TrimIdempotent | backend/models/Complaint.js:27-30 | trimming twice is trimming once |
| Text.TrimEmptyIffBlank | backend/models/Complaint.js:4-8 | a value trims to "" (and so fails `required`) exactly when it is all white space |
| Admins.Emails | backend/controllers/complaintController.js:24-25 | the recipient addresses are the administrators' emails, one per administrator, in roster order |
| Admins.Recipients | backend/controllers/complaintController.js:27-30 | there is a `to` list, and so a mail, exactly when the roster is not empty |
| Admins.RecipientsNameEveryAdmin | backend/controllers/complaintController.js:30 | splitting the joined `to` list at ", " gives back every administrator's email in order (addresses without commas) |
| Admins.FirstWithEmail | backend/manageAdmins.js:34-35 | the `{ email }` filter finds the first administrator with that email, or none |
| Admins.Upsert | backend/manageAdmins.js:34-38 | the first administrator with the email gets the new password; otherwise one is appended; no other administrator or email changes |
| Admins.UpsertHasEmail | backend/manageAdmins.js:34-38 | after an upsert the roster holds exactly the emails it held plus the upserted one |
| Admins.ProcessEntry | backend/manageAdmins.js:24-27 | an entry without a password (absent or empty) leaves the roster unchanged |
| Admins.SetupAdmins | backend/manageAdmins.js:24-42 | the loop over the entry list; characterised by `SetupInListOrder`, `SetupKeepsEmailsUnique`, `SetupLeavesOthersUntouched` and `SetupRegistersEveryEntry` |
| Admins.SetupInListOrder | backend/manageAdmins.js:23-41 | the entries take effect one after another in list order |
| Admins.UpsertKeepsEmailsUnique | backend/manageAdmins.js:34-38 | an upsert never creates a second administrator with an existing email |
| Admins.SetupKeepsEmailsUnique | backend/manageAdmins.js:23-41 | running the script, however often, keeps emails unique |
| Admins.SetupLeavesOthersUntouched | backend/manageAdmins.js:23-41 | administrators the list does not name keep their record and position; existing emails stay in place |
| Admins.SetupRegistersEveryEntry | backend/manageAdmins.js:23-41 | after the script an email is registered iff it was before or an entry with a password names it |
| Admins.StoredPasswordIsHash | backend/manageAdmins.js:30-38 | the processed administrator holds the hash of the given password, never the plaintext |
| Uploads.AcceptsMime | backend/routes/complaintRoutes.js:19-25 | the `fileFilter`: images of any kind and PDF documents; characterised through `AcceptFromOkIff` |
| Uploads.ExtName | backend/routes/complaintRoutes.js:16 | `path.extname`: a name has an extension iff its last dot is not its first character and the name is not ".."; the extension runs from that last dot to the end |
| Uploads.StoredFilename | backend/routes/complaintRoutes.js:16 | `Date.now() + path.extname(originalname)`; characterised by `StoredFilenameKeepsExtension` |
| Uploads.StoredPath | backend/routes/complaintRoutes.js:14-16 | the file's path under `uploads/`; `AcceptFromPaths` states that accepted uploads yield these paths |
| Uploads.StoredFilenameKeepsExtension | backend/routes/complaintRoutes.js:14-17 | the stored name `Date.now() + extname` keeps the original extension |
| Uploads.FileParts | backend/routes/complaintRoutes.js:30 | a part is kept iff it has a file name |
| Uploads.FilePartsDistributes | backend/routes/complaintRoutes.js:30 | selecting the file parts acts part by part, so stream order is kept |
| Uploads.AcceptFrom | backend/routes/complaintRoutes.js:19-30 | multer's pass over the parts with the remaining slots; characterised by `AcceptFromOkIff` and `AcceptFromPaths` |
| Uploads.AcceptUploads | backend/routes/complaintRoutes.js:27-30 | `upload.array('evidenceFiles', 5)`; characterised by `AcceptedUploadsAreBounded` |
| Uploads.AcceptFromOkIff | backend/routes/complaintRoutes.js:19-30 | the upload passes iff there are at most five files, all under `evidenceFiles` and each an image or a PDF; one bad file fails the request |
| Uploads.AcceptFromPaths | backend/routes/complaintRoutes.js:14-17 | an accepted upload yields each file's `uploads/` path, in upload order |
| Uploads.AcceptedUploadsAreBounded | backend/routes/complaintRoutes.js:30 | an accepted request carries at most five paths, each of an accepted type |
| Controller.CreateComplaint | backend/controllers/complaintController.js:13-62 | 201 with the new id iff the document conforms, which is then stored under a fresh id; otherwise 500 with the validation message and nothing stored; one mail iff stored and the roster is non-empty, with the files attached |
| Controller.CastMessage | backend/controllers/complaintController.js:103-104 | the CastError's message quotes the raw id right after its fixed opening |
| Controller.SubmitFeedback | backend/controllers/complaintController.js:64-106 | 500 with the cast message for a malformed id, 404 for an unknown one; a conforming update is stored and mailed, and the answer is 200 iff no mail was needed or it was delivered, otherwise 500 with the mail error; a non-conforming one stores nothing and answers 500 with the validation message |
| Controller.GetComplaintById | backend/controllers/complaintController.js:108-116 | 200 with the stored record iff the id is well formed and known; 404 for an unknown id; 500 for a malformed one |
| Controller.UpdateComplaintStatus | backend/controllers/complaintController.js:127-138 | for a known id only that record's status (when the body has one) and `updatedAt` change and the updated record is returned; otherwise 404 or 500 with the store unchanged |
| Controller.InsertNewestFirst | backend/controllers/complaintController.js:120 | inserting into a newest-first list keeps it newest first and adds exactly that element |
| Controller.SortNewestFirst | backend/controllers/complaintController.js:120 | `sort({ createdAt: -1 })`: the result is newest first and a permutation of its input |
| Controller.GetAllComplaints | backend/controllers/complaintController.js:118-125 | the listing is newest first, holds only stored records and holds every stored record exactly once |
| Lifecycle.CreateSwallowsMailFailure | backend/controllers/complaintController.js:45-57 | the creation outcome is the same whether the mail is delivered or refused |
| Lifecycle.MailFailureAsymmetry | backend/controllers/complaintController.js:45-105 | a refused mail leaves creation at 201 but turns feedback into 500, though the feedback is stored exactly as after a delivered mail |
| Lifecycle.OutOfRangeRatingWritesNothing | backend/controllers/complaintController.js:73-75 | a rating outside 1..5 fails the save: nothing written, no mail, no 200 |
| Lifecycle.SecondFeedbackReplacesFirst | backend/controllers/complaintController.js:67-75 | a second feedback submission replaces the first instead of being refused |
| Lifecycle.CreatedComplaintIsFetchable | backend/controllers/complaintController.js:108-112 | a created complaint is fetched by its returned id with status "Submitted", its paths, its trimmed title and no feedback |
| Lifecycle.UpdatedStatusIsFetched | backend/controllers/complaintController.js:127-134 | the next fetch sees the new status, or the old one when the body had none; every other complaint reads as before |
| Lifecycle.UnlistedStatusBlocksFeedback | backend/controllers/complaintController.js:129-132 | a status outside the enumeration is stored, and then every feedback save fails with 500 and writes nothing |
| Lifecycle.CreateKeepsStoreWellKeyed | backend/controllers/complaintController.js:16-20 | creation files the record under a fresh id |
| Lifecycle.UpdatesKeepStoreWellKeyed | backend/controllers/complaintController.js:73-75 | status updates and feedback rewrite a record under its own id |
| Lifecycle.CreatedComplaintIsListed | backend/controllers/complaintController.js:118-121 | a created complaint appears in the listing exactly once |
| Routes.ParseId | backend/routes/complaintRoutes.js:32-37 | an `:id` that casts is the rendering of the id it casts to; `ParseIdRoundTrip` gives the converse |
| Routes.ParseIdRoundTrip | backend/routes/complaintRoutes.js:32-37 | the `:id` of a URL built from a complaint's id casts back to that id |
| Routes.Handle | backend/routes/complaintRoutes.js:30-37 | the list and status routes answer `Guarded` without touching the store when the caller is not authorized |
| Routes.PublicRoutesIgnoreAuthorization | backend/routes/complaintRoutes.js:30-37 | creation, fetch by id and feedback behave the same whether or not the caller is authorized |
| Routes.ReadsLeaveStoreAlone | backend/routes/complaintRoutes.js:31-32 | listing and fetching never write and never mail |
| Routes.RejectedUploadCreatesNothing | backend/routes/complaintRoutes.js:19-30 | a sixth file or an inadmissible file aborts the request with 500: nothing stored, no mail |
| Routes.CreatePreservesInvariant | backend/routes/complaintRoutes.js:30 | a creation with at most five paths keeps every record trimmed, described, categorised and within five files |
| Routes.UpdatePreservesInvariant | backend/routes/complaintRoutes.js:33 | a status update keeps the store invariant |
| Routes.FeedbackPreservesInvariant | backend/routes/complaintRoutes.js:37 | a feedback submission keeps the store invariant, with any stored rating in 1..5 and trimmed feedback |
| Routes.HandlePreservesInvariant | backend/routes/complaintRoutes.js:30-37 | every request through the router keeps the store invariant |
| Cors.IndexOf | backend/index.js:26 | `indexOf` is -1 iff the origin is not listed, otherwise the first position holding it |
| Cors.CheckOrigin | backend/index.js:20-31 | an origin is allowed iff it is absent, empty or one of the listed origins exactly; otherwise the fixed denial message |
| Cors.ListedOriginsOnly | backend/index.js:14-30 | worked examples of `CheckOrigin`: the deployed front end passes, while a longer look-alike host and the plain-http origin are refused |
| ComplaintForm.AddFiles | frontend/src/components/ComplaintForm.jsx:14-17 | at most five files, all drawn from the earlier and the new ones; `AddFilesKeepsEarlierFirst` fixes their order |
| ComplaintForm.AddFilesKeepsEarlierFirst | frontend/src/components/ComplaintForm.jsx:14-17 | choosing files keeps at most five: earlier files first, then new ones in order up to the cap |
| ComplaintForm.AddFilesTwice | frontend/src/components/ComplaintForm.jsx:14-17 | two selections in a row equal one selection of both batches |
| ComplaintForm.RemoveFile | frontend/src/components/ComplaintForm.jsx:19-21 | the remaining files were all there before and none has the removed name |
| ComplaintForm.RemoveFileDistributes | frontend/src/components/ComplaintForm.jsx:19-21 | removal by name acts on each file on its own and keeps the order of the rest |
| ComplaintForm.RemoveFileRemovesExactlyName | frontend/src/components/ComplaintForm.jsx:19-21 | every file with that name goes, every other file stays as often as it was there |
| ComplaintForm.RemoveFileIdempotent | frontend/src/components/ComplaintForm.jsx:19-21 | removing a name twice is removing it once |
| ComplaintForm.RecordRecent | frontend/src/components/ComplaintForm.jsx:53-63 | the history holds one to five entries and starts with the new one |
| ComplaintForm.RecordRecentPrepends | frontend/src/components/ComplaintForm.jsx:53-63 | the new entry heads the history, which keeps at most five entries, the older ones in order |
| ComplaintForm.ShownError | frontend/src/components/ComplaintForm.jsx:70 | the server's error text when there is a non-empty one, otherwise "Failed to submit complaint."; never empty |
| ComplaintForm.AfterSubmit | frontend/src/components/ComplaintForm.jsx:49-71 | the form and history after the POST; characterised by `SuccessResetsForm` and `FailureKeepsInputs` |
| ComplaintForm.SuccessResetsForm | frontend/src/components/ComplaintForm.jsx:49-68 | after a success the form returns to its defaults, its message is exactly "Complaint submitted! ID: " followed by the id, and the id heads the history |
| ComplaintForm.FailureKeepsInputs | frontend/src/components/ComplaintForm.jsx:69-71 | after a failure the inputs, files and history are kept and only the error is shown |
| ComplaintForm.AnswerReachesForm | frontend/src/components/ComplaintForm.jsx:49-71 | every answer other than a 2xx creation that carries no non-empty error text (an upload abort, a `protect` refusal, a body without `error`, an empty `error`) shows the fallback and keeps the history; a non-empty error text is shown as is; a created id is announced and heads the history |
| ComplaintForm.ServerErrorsReachTheForm | frontend/src/components/ComplaintForm.jsx:49-71 | an upload rejection shows the fallback text, a validation failure shows exactly the validation message built for the rejected document, a 201 records its id |
| StatusTracker.RatingChoicesAreOneToFive | frontend/src/components/StatusTracker.jsx:33-44 | the five stars set exactly the ratings 1..5 |
| StatusTracker.CheckFeedback | frontend/src/components/StatusTracker.jsx:12-15 | the request is blocked iff no star was chosen or the feedback is empty, and otherwise sends exactly what was entered |
| StatusTracker.SentRatingIsValid | frontend/src/components/StatusTracker.jsx:6-17 | whatever the form sends passes the server's rating range |
| StatusTracker.StartTrack | frontend/src/components/StatusTracker.jsx:73-76 | an empty id asks for an id and sends nothing |
| StatusTracker.RouteId | frontend/src/components/StatusTracker.jsx:81 | the `:id` Express reads from the URL the page builds: the text before the first `?` or `#`, less one trailing `/`, and none when that is empty or still holds a `/`; characterised by `RouteIdReducesUrl` |
| StatusTracker.RouteIdReducesUrl | backend/routes/complaintRoutes.js:32 | plain text is its own `:id`; one trailing `/`, a query or a fragment after it leaves the `:id` unchanged; a second path segment reaches no `GET /:id` |
| StatusTracker.Track | frontend/src/components/StatusTracker.jsx:72-88 | `handleTrack` against the server; characterised by `TrackShowsStoredComplaint` |
| StatusTracker.TrackShowsStoredComplaint | frontend/src/components/StatusTracker.jsx:72-88 | tracking shows the stored complaint iff the URL yields an `:id` that casts and is known; an empty text asks for an id; every other outcome shows "Complaint not found." |
| StatusTracker.TrackingByReturnedId | frontend/src/components/StatusTracker.jsx:164 | a recent-history entry's id tracks its complaint, and so does that id followed by one `/`, a query or a fragment |
| StatusTracker.ShowsFeedbackForm | frontend/src/components/StatusTracker.jsx:132-137 | the feedback form's visibility condition; characterised by `FeedbackViewsExclusive` |
| StatusTracker.ShowsFeedback | frontend/src/components/StatusTracker.jsx:138-146 | the feedback display's visibility condition; characterised by `FeedbackViewsExclusive` |
| StatusTracker.FeedbackViewsExclusive | frontend/src/components/StatusTracker.jsx:132-146 | the feedback form and the displayed feedback never appear together, and a resolved complaint shows exactly one |
| StatusTracker.StoredFeedbackDecidesTheView | frontend/src/components/StatusTracker.jsx:132-138 | after the server stores feedback it is shown iff it was not blank; blank feedback brings the form back for a resolved complaint |
| StatusTracker.StatusColor | frontend/src/components/StatusTracker.jsx:95-100 | green exactly for "Resolved", grey for every other status |
| AdminDashboard.StatusOptionsMatchSchema | frontend/src/components/AdminDashboard.jsx:41-48 | the selector offers exactly the schema's four statuses, each once |
| AdminDashboard.PatchStatus | frontend/src/components/AdminDashboard.jsx:24-31 | the local patch keeps the list's length and every entry's id |
| AdminDashboard.PatchStatusTouchesOnlyMatch | frontend/src/components/AdminDashboard.jsx:24-31 | after a successful update the entries with that id take the new status and nothing else changes; after a failure the list is unchanged |
| AdminDashboard.PatchAgreesWithServer | frontend/src/components/AdminDashboard.jsx:24-27 | the patched list agrees with the server's stored records in every field but `updatedAt` |
| AdminDashboard.EvidenceLinks | frontend/src/components/AdminDashboard.jsx:50-57 | the evidence cell; characterised by `EvidenceLinksNumberEachPath` |
| AdminDashboard.EvidenceLinksNumberEachPath | frontend/src/components/AdminDashboard.jsx:50-57 | "N/A" iff there are no paths; otherwise one link per path, in order, whose target is the server base followed by that path, labelled "File " and a number that reads back as its position from 1 |
| AdminDashboard.Rating | frontend/src/components/AdminDashboard.jsx:34-39 | the rating cell; characterised by `RatingCaptionReadsBack` |
| AdminDashboard.RatingCaptionReadsBack | frontend/src/components/AdminDashboard.jsx:34-39 | `count` stars, and a caption "(n/5)" whose number reads back as the count |

## Left out

- Persistence: MongoDB is an in-memory map. Connection failures and other database errors are not modelled, so no 500 comes from them.
- ObjectIds are natural numbers written in decimal. `Routes.ParseId` accepts only their canonical rendering; every other text stands for a CastError.
- Mail content: the subject and the HTML body are not modelled. A `Mail` records only the recipients and the attachment paths. Transport and credentials are the `Delivery` parameter.
- Mail errors are not caught in `submitFeedback`, so a transport that throws after a delay behaves the same as a refusal.
- Admins.StoredPasswordIsHash: the salt from `bcrypt.genSalt(10)` is not modelled. The hash is a fixed function passed in, so equal passwords hash alike here, which bcrypt does not promise.
- `setupAdmins` connects to and closes the database, logs, and exits on an error; only its loop is modelled. The `Admin` model file is not part of this model. Its schema beyond email and password is unknown.
- `protect` (JWT verification) is not part of this model. Authorization is a flag, and the status code it answers with is unknown.
- Multipart text fields that are absent are treated as empty strings. Both fail `required`, and neither stores anything.
- The disk write of each file and the static `/uploads` route are not modelled. So are the CORS preflight with its allowed methods (`GET`, `POST`, `PUT`, `DELETE`) and its `Content-Type`/`Authorization` allowed headers.
- `updatedAt` is refreshed on every successful write. A `save()` that changes nothing, which Mongoose skips, is not distinguished.
- ComplaintSchema.ViolationText: the messages are Mongoose's default texts. A value with quotes or other characters is not escaped, and the order of entries follows the schema's path order.
- Controller.CastMessage: the wording is that of recent Mongoose versions. The escaping `util.inspect` applies to a raw id with quotes or control characters is not modelled.
- Controller.UpdateComplaintStatus: a body without `status` is modelled as recent Mongoose handles it, dropping the undefined key. Older versions that stored `null` are not modelled.
- Ratings are integers. A JSON body whose rating is a fraction or a non-numeric string (a CastError) is not modelled.
- The front-end rendering, `localStorage` (JSON parsing included), axios, the `alert`s, loading flags and button wiring (upload, camera) are not modelled. The dashboard's fetch error text is not modelled either; neither are `App.jsx`, `LoginPage.jsx` and `api.js`.
- StatusTracker.Track: the URL is reduced only at `?`, `#` and one trailing `/`. Further reductions are not modelled, and in the source each can turn typed text into a known id:
  - Express decoding `%XX` escapes in `req.params.id`, and answering 400 for a malformed escape;
  - the browser resolving `.` and `..` segments;
  - the browser reading `\` as `/`;
  - the browser dropping tabs, newlines and trailing spaces.

  Text with no `:id` (the list route behind `protect`, or no route at all) is taken to fail, as any failed GET does on this page.
- The recent-complaints list is shown only while no complaint is displayed. This view condition is not modelled.
- The dashboard's `Rating` component is modelled for a number. An absent rating next to present feedback, which the server allows, is not modelled.
- The server and the pages run concurrently, but here handlers run one at a time with no interleaving. Two requests that race on the same record are not modelled.
