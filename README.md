# turnitin_admin: a Dafny model of the submission workflow

This project models the core of a Django back end. The back end takes
documents from users, uploads them to Turnitin through a fleet of
assignment "slots", and fetches back the AI-writing report and the
similarity report. The model covers four parts of it:

- **Records** (`Models`): the lifecycle of a submission
  (`WebUserAssignments.status`, a django-fsm field). The model has:
  - the six declared transitions, as a table;
  - the submission table, with a next primary key;
  - the slot table (`web_assignments`), with its `upload_count`;
  - the per-user count of checks left (`WebUser.available_cnt`).
- **Background jobs** (`Tasks`):
  - the Redis locks;
  - the three sweeps `download_reports`, `_upload_to_turnitin_task` and
    `failed_task`.

  Each sweep is a `method` that walks the table in place, in record order.
  Its `ensures` ties the new table, the new key set and the new storage to
  a fold over the records (`DownloadSweep`, `UploadSweep`, `FailedSweep`).
  Lemmas state what that fold does and does not change.
- **The Turnitin client** (`ServiceProtocol`, `Service`):
  - the parts that only interpret Turnitin's answers: the cookie check, the
    session id, the submission TRN, and the four bounded loops (metadata
    wait, AI job creation with token refresh, AI report wait, ticket polls);
  - the parts that read or write the slot table: class filter,
    reconciliation of online slot ids with local ones, the choice of the
    least-used slot, the name check and increment after an upload, and the
    error folding of `download_ai_file`.
- **Request handlers** (`Views`):
  - `upload_file`: admission checks, the per-user lock, file naming, the
    chunked write, the new record and the decrement;
  - `download_file`: the owner check and the report path;
  - `delete_job`.

Every HTTP answer, database exception and collaborator result is an input to
the model. A `Fetch<T>` is either `Raised(text)` or `Got(value)`, and the
k-th answer inside a loop is `answer(k)`. Time is `now`, in whole seconds.
Redis keys are a `set<string>` in `Stores.LockStore`. The file storage is a
`map<string, Bytes>` in `Stores.FileStore`.

Module layout:

- `wrappers.dfy` (`Wrappers`): `Option`, `Result`, `Fetch`.
- `text.dfy` (`Text`): the Python string and path primitives the code
  relies on (`strip`, `split`, `join`, `replace`, `re.sub` on a character
  class, `lower`, `str(int)`, `posixpath.join`, `PurePosixPath`
  name/stem/suffix/with_name).
- `models.dfy` (`Models`): api/models.py.
- `stores.dfy` (`Stores`): Redis keys and Django file storage.
- `tasks.dfy` (`Tasks`): turnitin_admin/tasks.py.
- `service_protocol.dfy` (`ServiceProtocol`): turnitin_service.py, answer
  parsing and bounded loops.
- `service.dfy` (`Service`): turnitin_service.py, slot table operations and
  downloads.
- `views.dfy` (`Views`): turnitin_admin/view.py.

Some behaviours of the code are easy to misread; the model follows the code:

- **Leaving FAILED.** `block_failed_transitions` has the condition `False`,
  so it never fires, while `mark_delete` accepts FAILED. FAILED → DELETED is
  the only way out (`Models.FailedOnlyToDeleted`).
- **A missing owner aborts `failed_task`.** If a failed record's owner has
  no `WebUser`, the whole run raises. Inside the transaction, every row and counter written so far is
  rolled back, and that record's Redis key stays set (`Tasks.FailedTask`).
- **`finally` releases other workers' locks.** `download_reports` and
  `_upload_to_turnitin_task` delete the key in `finally` even after skipping
  a record whose lock another worker holds. That worker's key goes too
  (`Tasks.DownloadSweepLocks`, `Tasks.UploadSweepLocks`).
- **Slot lock key and primary-key lock key share a key space.**
  `download_reports` locks `lock:assignment:<Turnitin slot id>`, and
  `_upload_to_turnitin_task` locks `lock:assignment:<primary key>`. The two
  meet exactly when a slot id is the decimal text of a primary key
  (`Tasks.UploadKeyMeetsDownloadKey`).
- **The exclusion check is a substring test.** `submit` excludes a slot
  whose id occurs as a substring of the record's error log, not one that
  merely equals a listed id (`Service.Eligible`).

## Model

| member | source | states |
|---|---|---|
| Models.FireFollowsEdges | api/models.py:688-729 | every transition the decorators accept moves along a lifecycle edge (SUBMITTED → ANALYSING → DOWNLOADED, SUBMITTED or ANALYSING → FAILED, any state but GRADED or DELETED → DELETED), and `submit` and `block_failed_transitions` are refused in every state |
| Models.EdgeHasTransition | api/models.py:711-729 | conversely, every such lifecycle edge, FAILED → DELETED included, is taken by some declared transition |
| Models.NeverGraded | api/models.py:652-729 | no sequence of transition attempts leads into GRADED |
| Models.DeletedIsTerminal | api/models.py:711-714 | DELETED stays DELETED under every sequence of attempts |
| Models.NeverResubmitted | api/models.py:688-699 | a record that has left SUBMITTED never returns to it |
| Models.FailedOnlyToDeleted | api/models.py:701-714 | from FAILED, every sequence of attempts ends in FAILED or DELETED |
| Models.FindRow | turnitin_admin/view.py:342 | `get(id=...)` finds the record with that primary key, and nothing exactly when no record has it |
| Models.SubmissionTable.Create | turnitin_admin/view.py:177-188 | the new record gets the next primary key, starts in SUBMITTED with no log, is appended, and keys stay unique |
| Models.SubmissionTable.Apply | api/models.py:660-729 | a transition succeeds exactly when the table accepts it from the current state; only then is the status changed, and a refused one changes nothing |
| Models.SubmissionTable.Submit | api/models.py:688-699 | `submit` is refused in every state and changes nothing |
| Models.SubmissionTable.BlockFailedTransitions | api/models.py:701-709 | `block_failed_transitions` is refused in every state and changes nothing |
| Models.SubmissionTable.MarkDelete | api/models.py:711-714 | succeeds exactly from SUBMITTED, ANALYSING, DOWNLOADED or FAILED, and then sets DELETED on that record alone |
| Models.SubmissionTable.MarkAnalysing | api/models.py:716-719 | succeeds exactly from SUBMITTED, and then sets ANALYSING on that record alone |
| Models.SubmissionTable.MarkDownloaded | api/models.py:721-724 | succeeds exactly from ANALYSING, and then sets DOWNLOADED on that record alone |
| Models.SubmissionTable.MarkFailed | api/models.py:726-729 | succeeds exactly from SUBMITTED or ANALYSING, and then sets FAILED on that record alone |
| Models.SubmissionTable.SetAssignmentId | turnitin_admin/tasks.py:214-217 | only the slot id of that record changes |
| Models.SubmissionTable.SetReview | turnitin_admin/tasks.py:226-229 | only the log of that record changes |
| Models.Counted | api/models.py:344-347 | one more upload on the slot: its count rises by exactly one, its status and every other slot are kept |
| Models.SlotTable.Create | turnitin_admin/service/turnitin_service.py:94-98 | a new slot is AVAILABLE with count 0; creating an existing id fails and changes nothing |
| Models.SlotTable.IncrementUploadCount | api/models.py:344-347 | succeeds exactly for an existing slot, adding one to its count and nothing else; otherwise nothing changes |
| Models.Accounts.Add | turnitin_admin/tasks.py:268-270 | only the named user's count changes, by `delta` |
| Models.Adjusted | turnitin_admin/view.py:191-192 | the user's count changes by `delta`, every other user's is kept, and no user appears or disappears |
| Stores.LockStore.SetNx | turnitin_admin/tasks.py:33 | succeeds exactly when the key was absent; the key is set afterwards either way |
| Stores.LockStore.Delete | turnitin_admin/tasks.py:42-45 | the key is unset afterwards and every other key is kept |
| Stores.FileStore.Open | turnitin_admin/view.py:166 | opening for writing leaves that name empty and every other file as it was |
| Stores.FileStore.Append | turnitin_admin/view.py:167-168 | a chunk written goes after what the file holds |
| Stores.FileStore.Write | turnitin_admin/tasks.py:98-101 | afterwards the file holds exactly the content written, and nothing else changes |
| Stores.FileStore.Delete | turnitin_admin/view.py:299-300 | the name is gone and every other file is kept |
| Tasks.LockKeyInjective | turnitin_admin/tasks.py:31 | two names share a lock key exactly when they are equal |
| Tasks.AcquireLock | turnitin_admin/tasks.py:29-40 | the lock is granted exactly when the key was free, or vanished before the second try; the key is set afterwards |
| Tasks.ReleaseLock | turnitin_admin/tasks.py:42-45 | the key is removed whoever set it, and no other key changes |
| Tasks.ApplyWritesElsewhere | turnitin_admin/tasks.py:97-110 | writing reports leaves every other stored name as it was |
| Tasks.ApplyWritesLast | turnitin_admin/tasks.py:97-110 | the last write to a name decides what it holds |
| Tasks.DownloadedMeansReports | turnitin_admin/tasks.py:73-140 | a record becomes DOWNLOADED exactly when a non-empty similarity report came back and, within ten minutes of upload, a non-empty AI report did too; the reports written then are exactly the AI report (within ten minutes) and the similarity report, in that order |
| Tasks.AiReportGrace | turnitin_admin/tasks.py:83-112 | within ten minutes, a missing AI report writes nothing and keeps the record; an AI report without a similarity report is stored but the record stays ANALYSING |
| Tasks.DownloadStepNames | turnitin_admin/tasks.py:91-92 | a record writes only its own `<title>_ai.pdf` and `<title>_plagiarism.pdf` |
| Tasks.DownloadSweepRows | turnitin_admin/tasks.py:50-118 | after the sweep each record is what its own visit made of it, and the only change ever made is ANALYSING → DOWNLOADED |
| Tasks.DownloadSweepLocks | turnitin_admin/tasks.py:155-156 | a key is set after the sweep exactly when it was set before and no ANALYSING record has it as its key |
| Tasks.DownloadSweepFiles | turnitin_admin/tasks.py:91-134 | a name that is no visited ANALYSING record's report is present and unchanged after the sweep exactly when it was before |
| Tasks.DownloadOne | turnitin_admin/tasks.py:72-140 | the storage is the old storage with the record's report writes applied, and the record alone moves to DOWNLOADED exactly when the step says so |
| Tasks.DownloadVisit | turnitin_admin/tasks.py:54-156 | an ANALYSING record with a free key gets its download step; every ANALYSING record's key is deleted afterwards; other records change nothing |
| Tasks.DownloadReports | turnitin_admin/tasks.py:47-156 | the table, the keys and the storage after the run are those of the fold over all records in table order |
| Tasks.AppendLog | turnitin_admin/tasks.py:228 | without a log the new log is exactly the error text; otherwise it is the old log, one ';', then the error text |
| Tasks.LogKeepsExclusions | turnitin_admin/tasks.py:208-228 | every slot id the old log or the new error text contains is still contained in the exclusion string the next `submit` receives |
| Tasks.UploadStepCases | turnitin_admin/tasks.py:182-218 | past ten minutes the record only gains "timeout" in its log; it moves to ANALYSING exactly when it is in time, its file is stored and the client returned a slot, and then it takes that slot and keeps its log; otherwise it stays SUBMITTED; nothing but status, slot and log ever changes |
| Tasks.UploadSweepRows | turnitin_admin/tasks.py:161-231 | after the sweep each record is what its own visit made of it, with the keys as they stood at that point |
| Tasks.UploadSweepLocks | turnitin_admin/tasks.py:230-231 | a key is set after the sweep exactly when it was set before and no SUBMITTED record has it as its key |
| Tasks.UploadVisit | turnitin_admin/tasks.py:165-231 | a SUBMITTED record with a free key gets its upload step; every SUBMITTED record's key is deleted afterwards; other records change nothing |
| Tasks.UploadToTurnitin | turnitin_admin/tasks.py:158-231 | the table and keys after the run are those of the fold over all records in table order |
| Tasks.FirstCrash | turnitin_admin/tasks.py:264-270 | the first record that is failed but has no `WebUser`, if any, and none exactly when there is no such record |
| Tasks.FailedSweepLocks | turnitin_admin/tasks.py:252-271 | the run aborts exactly at the first failed record without an owner, which leaves that record's key set; otherwise the keys end as they began |
| Tasks.FailedSweepCounts | turnitin_admin/tasks.py:264-270 | when every failed record has an owner, each user gains exactly one check per record of theirs that was failed |
| Tasks.FailedSweepRows | turnitin_admin/tasks.py:264-267 | when every failed record has an owner, exactly the SUBMITTED or ANALYSING records older than fifteen minutes whose key was free become FAILED, and every other record is kept |
| Tasks.FailedVisit | turnitin_admin/tasks.py:253-271 | one record: it is failed and refunded when selected, unlocked and older than fifteen minutes; a missing owner aborts with the key left set |
| Tasks.FailedTask | turnitin_admin/tasks.py:245-271 | the keys end as the fold says; without an abort the table and counts are those of the fold, and after an abort both are rolled back to their state before the run |
| Tasks.FailedSweepFrom | turnitin_admin/tasks.py:246-271 | once aborted, the rest of the records change neither the outcome nor the keys |
| Tasks.FailedKeyNotUploadKey | turnitin_admin/tasks.py:254 | the `_to_failed` keys never collide with the upload sweep's keys |
| Tasks.UploadKeyMeetsDownloadKey | turnitin_admin/tasks.py:55-56 | the upload and download sweeps' keys collide exactly when a Turnitin slot id equals the decimal text of a primary key |
| ServiceProtocol.GetCookies | turnitin_admin/service/turnitin_service.py:35-57 | every failure is one error that starts with the cookie failure prefix |
| ServiceProtocol.CookieAccepted | turnitin_admin/service/turnitin_service.py:50-52 | a cookie string is accepted exactly when its stripped form contains `legacy-session-id` (which also contains `session-id`); the accepted value is the stripped text |
| ServiceProtocol.FirstWithPrefix | turnitin_admin/service/turnitin_service.py:191-193 | the first segment with the prefix, and nothing exactly when no segment has it |
| ServiceProtocol.SessionIdOfSegments | turnitin_admin/service/turnitin_service.py:189-194 | for one or more segments none of which holds a `;`, joined by `"; "`: the session id is the text after `session-id=` in the first segment that starts with it, and an error when none does |
| ServiceProtocol.LegacyNeverMatches | turnitin_admin/service/turnitin_service.py:192 | a `legacy-session-id=` segment is never taken for the session id |
| ServiceProtocol.TrnFound | turnitin_admin/service/turnitin_service.py:274-288 | a TRN is found exactly when some submission key starts with `oid:1:`; it is the text after that prefix in the first such key, up to the next `oid:1:` or the end of the key (so it holds no `oid:1:`), and comes with the launch token |
| ServiceProtocol.TrnRoundTrip | turnitin_admin/service/turnitin_service.py:274-288 | for t without `oid:1:`, a key `oid:1:` + t after keys without the prefix gives back exactly t, whatever keys follow it |
| ServiceProtocol.MetadataWaitShape | turnitin_admin/service/turnitin_service.py:162-176 | at most 180 polls; it stops at the first answer that is not pending; `"status":1` is success, `"status":-1` fails, an exception passes through, and 180 pending answers time out |
| ServiceProtocol.WaitForMetadata | turnitin_admin/service/turnitin_service.py:162-176 | the loop's result and poll count are those of the metadata wait |
| ServiceProtocol.AiJobRequests | turnitin_admin/service/turnitin_service.py:339-360 | one to three POSTs; the first carries the starting token, each keeps the header and one token in both body fields, and each after the first follows a 401 whose refresh fetched its token |
| ServiceProtocol.AiJobSucceeds | turnitin_admin/service/turnitin_service.py:345-351 | the creation succeeds exactly when the last POST answered 200 or 201, and the job id is its stripped body |
| ServiceProtocol.AiJobFails | turnitin_admin/service/turnitin_service.py:345-360 | another status fails with its body; an exception from the POST or the refresh passes through; a 401 on the third attempt fails with the exhausted-attempts message |
| ServiceProtocol.AiJobToken | turnitin_admin/service/turnitin_service.py:353-355 | the session data ends with the last token fetched, or the last one posted when no refresh followed |
| ServiceProtocol.GenerateAiReport | turnitin_admin/service/turnitin_service.py:302-360 | the loop's result, the requests it posted and the final token are those of the job creation |
| ServiceProtocol.PostJob | turnitin_admin/service/turnitin_service.py:345-358 | one attempt ends the creation with the outcome it decides, or, after a 401 and a refresh, the creation continues from the next attempt with the new token |
| ServiceProtocol.AiReportWaitShape | turnitin_admin/service/turnitin_service.py:362-377 | at most 30 polls with the given token; SUCCESS gives the job's url, FAILED an error, an exception passes through, and 30 pending answers time out |
| ServiceProtocol.WaitForAiReport | turnitin_admin/service/turnitin_service.py:362-377 | the loop's result and poll count are those of the AI report wait |
| ServiceProtocol.TicketWaitShape | turnitin_admin/service/turnitin_service.py:419-425 | at most 30 polls; a ready ticket gives its url, an exception passes through, and 30 tickets that are not ready fail |
| ServiceProtocol.DownloadUrlOnlyNonAi | turnitin_admin/service/turnitin_service.py:393-425 | a url comes only for the `nonAi` kind after the landing and queue requests succeeded; any other kind fails without polling |
| ServiceProtocol.GetDownloadUrl | turnitin_admin/service/turnitin_service.py:393-425 | the routine's result and poll count are those of the ticket wait |
| Service.ClassesMatching | turnitin_admin/service/turnitin_service.py:66-69 | exactly the anchors whose stripped text is the class name, each with the host prefixed to its href |
| Service.ClassesInOrder | turnitin_admin/service/turnitin_service.py:66-69 | the filter keeps page order, distributing over concatenation of the page |
| Service.ClassId | turnitin_admin/service/turnitin_service.py:77 | the digits of the leftmost `/class/<digits>/` in the url, and nothing exactly when there is no match |
| Service.ClassIdOfPath | turnitin_admin/service/turnitin_service.py:77 | a url starting `/class/<digits>/` gives those digits |
| Service.Ports | turnitin_admin/service/turnitin_service.py:83-84 | at most one online id per row; every row's inbox anchor gives its id without `view_inbox_`, and every online id comes from such an anchor |
| Service.ReconcileSlots | turnitin_admin/service/turnitin_service.py:89-107 | reconciliation never changes an existing slot; the slots it adds are AVAILABLE with count 0, for online ids that were not AVAILABLE; without an error every online id ends with a slot |
| Service.ReconcileResult | turnitin_admin/service/turnitin_service.py:101-106 | without an error the list follows the online ids one for one, with count 0 for created slots and the stored count for the others |
| Service.ReconcileFails | turnitin_admin/service/turnitin_service.py:92-100 | the loop fails exactly when an online id that was not AVAILABLE already exists or repeats, and the failure is always the duplicate-id error |
| Service.ReconcileStops | turnitin_admin/service/turnitin_service.py:108-110 | after the first error the remaining ids change nothing |
| Service.GetAssignments | turnitin_admin/service/turnitin_service.py:74-110 | the method's result and slot table are those of `get_assignments` on the old table |
| Service.ReconcileStep | turnitin_admin/service/turnitin_service.py:93-106 | one online id: its slot is created or read back, as one step of the reconciliation |
| Service.PaperOf | turnitin_admin/service/turnitin_service.py:251-272 | a paper is found exactly when the student's checkbox has a non-empty value, and then it is that oid and the checkbox title |
| Service.AssignmentsExtend | turnitin_admin/service/turnitin_service.py:74-110 | `get_assignments` only adds AVAILABLE slots of count 0 and keeps the rest |
| Service.ListingExtends | turnitin_admin/service/turnitin_service.py:114-118 | listing the first matching class's slots only adds fresh slots |
| Service.ListSlots | turnitin_admin/service/turnitin_service.py:114-118 | the method's result and slot table are those of the listing |
| Service.OidLookupExtends | turnitin_admin/service/turnitin_service.py:235-272 | a paper lookup only adds fresh slots, and a paper it finds has a non-empty oid and is what the inbox page shows |
| Service.GetOidFromAssignment | turnitin_admin/service/turnitin_service.py:235-272 | the method's result and slot table are those of the lookup |
| Service.Eligible | turnitin_admin/service/turnitin_service.py:119 | exactly the listed slots whose id does not occur in the exclusion string |
| Service.FirstMin | turnitin_admin/service/turnitin_service.py:120 | the index of the first slot of least count, and none exactly for an empty list |
| Service.ChooseLeastUsed | turnitin_admin/service/turnitin_service.py:119-121 | the chosen slot is listed, not named in the exclusion string, and used least among those that are not; none is chosen exactly when every slot is excluded |
| Service.ExcludedNeverChosen | turnitin_admin/tasks.py:208 | a slot named in the record's error log is never chosen again |
| Service.AttemptCounts | turnitin_admin/service/turnitin_service.py:122-159 | an attempt returns its own slot or the error naming it; it succeeds only when the upload went through and the slot's paper name matches; then that slot gains one count and no other count changes |
| Service.RecordUpload | turnitin_admin/service/turnitin_service.py:152-157 | the method's result and slot table are those of the name check and increment |
| Service.TryUpload | turnitin_admin/service/turnitin_service.py:122-159 | the method's result and slot table are those of one attempt |
| Service.Submit | turnitin_admin/service/turnitin_service.py:112-160 | the method's result and slot table are those of `submit` on the old table |
| Service.SubmitCounts | turnitin_admin/service/turnitin_service.py:112-160 | across one `submit` the only count that changes is that of the slot returned, by exactly one; new slots are AVAILABLE with count 0 |
| Service.SubmitUsesChosenSlot | turnitin_admin/service/turnitin_service.py:119-159 | once a slot is chosen, `submit` returns that least-used, non-excluded slot or the error naming it |
| Service.AiFileFolds | turnitin_admin/service/turnitin_service.py:196-233 | nothing escapes: the AI report is the downloaded PDF exactly when every step succeeded, and otherwise nothing; the slot table only gains fresh slots |
| Service.DownloadAiFile | turnitin_admin/service/turnitin_service.py:196-233 | the method's result and slot table are those of `download_ai_file` |
| Service.PlagiarismFileNeedsTicket | turnitin_admin/service/turnitin_service.py:387-391 | a similarity report is returned only after the paper was found and a ticket became ready, and it is the file fetched |
| Service.DownloadPlagiarismFile | turnitin_admin/service/turnitin_service.py:387-391 | the method's result and slot table are those of `download_plagiarism_file` |
| Views.AdmissionAccepts | turnitin_admin/view.py:104-140 | an upload is admitted exactly when the user exists and has a check left, the extension is .doc, .docx or .pdf in any case, the size is at most 15 MiB, and the user holds no upload lock; a user with no checks left is refused as such whatever the file |
| Views.SizeLimitInclusive | turnitin_admin/view.py:132-133 | a file of exactly 15 MiB passes and one byte more is refused |
| Views.UpperCaseExtension | turnitin_admin/view.py:127 | `NAME.PDF` has the extension `.pdf` |
| Views.CleanName | turnitin_admin/view.py:146-148 | the cleaned name holds no '.' |
| Views.CleanNameSteps | turnitin_admin/view.py:144-148 | the transliteration is given the stem without forbidden characters, and its output loses every '.'; a plain stem is kept |
| Views.FileNameParts | turnitin_admin/view.py:152 | the stored name holds no '/', and for a non-empty cleaned name its stem is that name and its suffix the extension |
| Views.StoragePathParts | turnitin_admin/view.py:151-152 | the storage path is a directory named after the user holding `cleaned_name + ext` |
| Views.UploadBody | turnitin_admin/view.py:100-233 | an error exactly when admission refuses, with that reason and nothing stored; otherwise the file holds the chunks, one SUBMITTED record is appended, and the user has one check less; no other user's lock key changes |
| Views.Store | turnitin_admin/view.py:164-192 | the chunks are stored at the storage path, one SUBMITTED record is appended, and one check is taken |
| Views.WriteChunks | turnitin_admin/view.py:165-169 | the file holds the chunks one after the other and nothing else changes |
| Views.UploadFile | turnitin_admin/view.py:100-238 | as the body, and afterwards the user's lock key is unset, whoever set it |
| Views.IntakeRefundedOnFailure | turnitin_admin/view.py:191 | the check taken at intake comes back when `failed_task` fails the record |
| Views.DownloadNeedsOwner | turnitin_admin/view.py:338-362 | another user's record gives 403 whatever is stored; a file is served only to the owner, only for `report` or `ai`, and it is the stored report of that kind |
| Views.ReportKinds | turnitin_admin/view.py:348-353 | only `report` and `ai` name a report, and `ai` alone names the AI one |
| Views.ReportPathsAgree | turnitin_admin/view.py:347-351 | for a record stored at `join(uid, file)`, the path named after its title is where the download sweep writes |
| Views.DownloadReadsWhatSweepWrites | turnitin_admin/view.py:347-351 | the handler reads a record's report exactly where `download_reports` writes it |
| Views.AsWrittenAgreesWhenNamed | turnitin_admin/view.py:347-351 | the stem-based path as written agrees with the sweep whenever the cleaned name is not empty |
| Views.EmptyNameMismatch | turnitin_admin/view.py:349-351 | with an empty cleaned name the stem-based path as written differs from where the sweep writes |
| Views.QuestionMarkName | turnitin_admin/view.py:143-148 | "?.pdf" cleans to the empty name with extension ".pdf" |
| Views.EmptyStemDownloadMismatch | turnitin_admin/view.py:146-152 | "?.pdf" uploaded by "u": the sweep writes "u/_ai.pdf" but the path as written looks for "u/.pdf_ai.pdf" |
| Views.OwnedJob | turnitin_admin/view.py:292-298 | a record is found exactly when both parameters are given, the job id is a number, and the record with that key belongs to the user; it is that record |
| Views.DeleteJobEffect | turnitin_admin/view.py:290-327 | a delete succeeds exactly for the caller's own record (matched on `user_id`) in a state `mark_delete` accepts, and then that record is DELETED; the upload is removed even when the transition is refused; every other record and file is kept |
| Views.DeleteJob | turnitin_admin/view.py:290-302 | the method's reply, records and files are those of `delete_job` |
| Text.StripIsTrimmedSlice | turnitin_admin/service/turnitin_service.py:50 | `strip()` gives a slice of the input with only white space removed at either end |
| Text.SplitPieces | turnitin_admin/service/turnitin_service.py:191 | no piece of a split holds the separator |
| Text.JoinSplit | turnitin_admin/service/turnitin_service.py:191 | joining the pieces of a split gives back the input |
| Text.SplitJoin | turnitin_admin/service/turnitin_service.py:191 | for one or more pieces none of which holds the separator's first character, splitting their join gives back the pieces |
| Text.RemoveAllNone | turnitin_admin/service/turnitin_service.py:83 | `replace` leaves a string without the pattern unchanged and removes a leading occurrence |
| Text.ParseNatToString | turnitin_admin/view.py:342 | `int(str(n)) == n` |
| Text.NatToStringInjective | turnitin_admin/tasks.py:166-167 | different primary keys give different lock names |
| Text.PathJoin | turnitin_admin/view.py:151-152 | joining an absolute name gives that name; a relative name after a directory that does not end in '/' is joined with one '/' |
| Text.StemSuffix | turnitin_admin/view.py:144 | a name is its stem followed by its suffix |
| Text.WithNameJoin | turnitin_admin/view.py:349-351 | renaming the file of `join(dir, name)` keeps the directory |

## Left out

- The DEBUG branch of `get_cookies` (turnitin_service.py:37-38): it returns a fixed string and depends on a settings flag.
- Sleeps between polls, request timeouts and the Redis key expiries (`ex=1800`, `expire(...,10)`). Time is an input, and lock expiry shows up only as the `vanished` parameter of `Tasks.AcquireLock`.
- Concurrency: the in-process `memory_lock` and concurrent workers. Each sweep is one sequential run over a snapshot of the table, and other workers appear only through the keys already set.
- The no-op status checks at tasks.py:53 and tasks.py:164 compare a queryset with a string, which is never true, so they never skip a record.
- `initialize`, `confirm_submission`, `_send_filter_options`, `_get_session_data` and `_download_pdf_file` are not modelled as requests. Their answers enter the model as inputs, and `class_name` and `cookies` are parameters.
- HTML and JSON parsing (BeautifulSoup selectors, `UUID_PATTERN`). Pages enter the model already parsed.
- `IntegrityError` and `DoesNotExist` texts: two fixed strings stand for them.
- A `ready` given as JSON `true`, which Python counts as equal to 1: the model compares `ready` with 1 as an integer only.
- Service.ClassId: only `/class/<digits>/` matches are modelled; a regex engine is not. Digits are ASCII `0`-`9` here and in `Text.AllDigits` (the `job_id` checks of `Views.OwnedJob` and `Views.DownloadFile`), while Python's `\d`, `str.isdigit` and `int()` also accept other Unicode decimal digits.
- Directory creation and permission checks in `upload_file` (view.py:156-158) are left out. So are write errors, the `exists(full_path)` check (view.py:173-174) and the `RuntimeError` they raise (view.py:211-214). The storage always accepts a write.
- `_upload_to_turnitin_task` checks `exists` on the absolute media path (tasks.py:186). The model checks the storage name instead.
- The text of the BadExtension message, which prints a Python set in an order Python does not fix.
- Views.Extension: `lower()` is modelled on ASCII letters only.
- Text.BaseName: paths ending in '/' are not modelled.
- Views.DownloadFile: is the corrected handler. It looks the report up at the title-based `Views.DownloadPath`, not at the stem-based path `download_file` builds (view.py:347-351), so for a record with an empty cleaned name it serves the report where the code answers 404 (see Findings).
- Text.ParseNat: `job_id` values that are not all digits are one error; `int()` accepting signs and spaces is not modelled.
- `available_cnt` is an integer that is never NULL.
- Aliasing between Django model instances and the database rows is not modelled: each record or slot is its row.
- `lazy_pinyin` is an arbitrary function parameter (`pinyin`).
- Time differences are whole seconds; the float minutes of `download_reports` (tasks.py:68) are compared as 600 seconds.
- Models.SlotTable.IncrementUploadCount: `Assignment.increment_upload_count` (api/models.py:344-347) updates a table that this core does not otherwise use. The model applies its "+1 on one row's `upload_count`, nothing else" to the `web_assignments` slot table, which `submit` updates the same way (turnitin_service.py:156-157).
- Service.PlagiarismFileNeedsTicket: states that a returned report needed a ready ticket, but not the converse (a ready ticket with a failed final GET still returns whatever the GET gave).
- `delete_assignment`, the status listing endpoint and the admin views are outside this core.

## Findings

| source | as written | input that shows it | evidently intended | confidence | as-written member | corrected member |
|---|---|---|---|---|---|---|
| turnitin_admin/view.py:347-351 | `download_file` looks for the report at `with_name(stem + suffix)` of the stored file, while `download_reports` (turnitin_admin/tasks.py:91-92) writes it at `<dir>/<title><suffix>`; the two differ when the cleaned name is empty, because the stored name is then the bare extension, whose stem is the whole name | the file "?.pdf" uploaded by user "u": stored as "u/.pdf" with title "", the AI report is written to "u/_ai.pdf" but looked for at "u/.pdf_ai.pdf", so the download always fails with 404 | the handler reads the report where the sweep writes it, `<dir>/<title><suffix>` | not executed | Views.EmptyStemDownloadMismatch | Views.DownloadReadsWhatSweepWrites |

`Views.DownloadPathAsWritten` models the path as written. `Views.EmptyNameMismatch` shows the mismatch for every empty cleaned name, and `Views.AsWrittenAgreesWhenNamed` shows the two paths agree otherwise. `Views.DownloadFile` uses the corrected `Views.DownloadPath`.
