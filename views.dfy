/** The three request handlers of `turnitin_admin/view.py` that change or
    read stored submissions: `upload_file` (admission, naming, the chunked
    write, the new record, the decrement and the per-user lock),
    `download_file` (ownership, then the report path) and `delete_job`.
    The request's fields are parameters; `pinyin` stands for
    `''.join(lazy_pinyin(...))`; `now` is the time of the request. */
module Views {
  import opened Wrappers
  import opened Text
  import opened Models
  import opened Stores
  import Tasks

  // ---------------------------------------------------------------------
  // upload_file: admission

  const UploadLockPrefix: string := "upload_lock:"
  /** 15 MiB: larger files are refused, a file of exactly this size is not. */
  const MaxUploadSize: int := 15 * 1024 * 1024
  const AllowedExtensions: set<string> := {".doc", ".docx", ".pdf"}
  /** The class `[【】\\\/:*?"<>|]` of the first `re.sub`. */
  const ForbiddenChars: set<char> := {'【', '】', '\\', '/', ':', '*', '?', '"', '<', '>', '|'}

  /** `request.FILES['document']`: its name and the chunks
      `file.chunks()` yields. */
  datatype Document = Document(name: string, chunks: seq<Bytes>)

  /** The chunks one after the other. */
  function Concat(chunks: seq<Bytes>): (r: Bytes)
    decreases |chunks|
  {
    if chunks == [] then [] else Concat(chunks[..|chunks| - 1]) + chunks[|chunks| - 1]
  }

  /** `file.size` */
  function Size(d: Document): int {
    |Concat(d.chunks)|
  }

  /** Why `upload_file` answers with an error (always status 500). */
  datatype UploadError =
    | MissingUserId   // 缺少 user_id 参数
    | NoSuchUser      // WebUser.DoesNotExist
    | NoChecksLeft    // 无剩余检查次数
    | NoDocument      // 未上传文件
    | BadExtension    // 无效文件格式
    | TooLarge        // 文件大小超过 15MB
    | Duplicate       // 请勿重复提交相同文件

  /** `f"upload_lock:{user_id}"`; a missing `user_id` formats as "None". */
  function UploadLockKey(userId: Option<string>): string {
    UploadLockPrefix + (if userId.None? then "None" else userId.value)
  }

  /** `Path(file.name).suffix.lower()` */
  function Extension(name: string): string {
    Lower(Suffix(BaseName(name)))
  }

  /** The checks of `upload_file`, in their order, up to and including the
      `setnx` of the lock key (`locks` are the keys set before). `counts`
      is `available_cnt` by `uid`. */
  function Admission(counts: map<string, int>, locks: set<string>, userId: Option<string>, document: Option<Document>)
    : Result<(), UploadError>
  {
    if userId.None? || userId.value == "" then Err(MissingUserId)
    else if userId.value !in counts then Err(NoSuchUser)
    else if counts[userId.value] <= 0 then Err(NoChecksLeft)
    else if document.None? then Err(NoDocument)
    else if Extension(document.value.name) !in AllowedExtensions then Err(BadExtension)
    else if Size(document.value) > MaxUploadSize then Err(TooLarge)
    else if UploadLockKey(userId) in locks then Err(Duplicate)
    else Ok(())
  }

  /** An upload is admitted exactly when the user exists and has a check
      left, the file is a .doc, .docx or .pdf (in any letter case) of at
      most 15 MiB, and no upload of the same user holds the lock; the
      account is looked at before the file. */
  lemma AdmissionAccepts(counts: map<string, int>, locks: set<string>, userId: Option<string>, document: Option<Document>)
    ensures Admission(counts, locks, userId, document).Ok? <==>
              userId.Some? && userId.value != "" && userId.value in counts && counts[userId.value] > 0 &&
              document.Some? && Extension(document.value.name) in AllowedExtensions &&
              Size(document.value) <= MaxUploadSize && UploadLockKey(userId) !in locks
    ensures userId.Some? && userId.value != "" && userId.value in counts && counts[userId.value] <= 0 ==>
              Admission(counts, locks, userId, document) == Err(NoChecksLeft)
  {
  }

  /** The size limit is inclusive: 15 MiB passes, one byte more fails. */
  lemma SizeLimitInclusive(counts: map<string, int>, locks: set<string>, uid: string, name: string, chunks: seq<Bytes>, more: Bytes)
    requires uid != "" && uid in counts && counts[uid] > 0 && Extension(name) in AllowedExtensions
    requires UploadLockKey(Some(uid)) !in locks
    requires |Concat(chunks)| == MaxUploadSize && |more| == 1
    ensures Admission(counts, locks, Some(uid), Some(Document(name, chunks))) == Ok(())
    ensures Admission(counts, locks, Some(uid), Some(Document(name, chunks + [more]))) == Err(TooLarge)
  {
    assert (chunks + [more])[..|chunks + [more]| - 1] == chunks;
    assert Concat(chunks + [more]) == Concat(chunks) + more;
    assert Size(Document(name, chunks + [more])) == MaxUploadSize + 1;
    assert Size(Document(name, chunks)) == MaxUploadSize;
  }

  lemma LowerPdf()
    ensures Lower(".PDF") == ".pdf" && Lower(".DocX") == ".docx"
  {
  }

  /** Upper-case extensions are admitted like lower-case ones. */
  lemma UpperCaseExtension(stem: string)
    requires stem != [] && NoChar(stem, '/') && NoChar(stem, '.')
    ensures Extension(stem + ".PDF") == ".pdf"
  {
    var name := stem + ".PDF";
    forall k | 0 <= k < |name|
      ensures name[k] != '/'
    {
      if k < |stem| {
        assert name[k] == stem[k];
      } else {
        assert name[k] == ".PDF"[k - |stem|];
      }
    }
    assert BaseName(name) == name;
    assert stem + "." + "PDF" == name;
    LastDot(stem, "PDF");
    assert name[|stem|..] == ".PDF";
    assert Suffix(name) == ".PDF";
    LowerPdf();
  }

  /** The last '.' of `stem + "." + ext` is the one before `ext`. */
  lemma LastDot(stem: string, ext: string)
    requires NoChar(ext, '.')
    ensures LastIndexOf(stem + "." + ext, '.') == Some(|stem|)
  {
    var s := stem + "." + ext;
    assert s[|stem|] == '.';
    assert s[|stem| + 1..] == ext;
    forall k | |stem| < k < |s|
      ensures s[k] != '.'
    {
      assert s[k] == s[|stem| + 1..][k - |stem| - 1];
    }
    LastIndexAt(s, '.', |stem|);
  }

  /** An occurrence with no later one is the last. */
  lemma {:induction false} LastIndexAt(s: string, c: char, i: nat)
    requires i < |s| && s[i] == c && forall k | i < k < |s| :: s[k] != c
    ensures LastIndexOf(s, c) == Some(i)
    decreases |s|
  {
    if i < |s| - 1 {
      var front := s[..|s| - 1];
      assert forall k | i < k < |front| :: front[k] == s[k];
      LastIndexAt(front, c, i);
    }
  }

  // ---------------------------------------------------------------------
  // upload_file: naming

  /** The cleaned name: the stem without the forbidden characters,
      transliterated, without any '.'. */
  function CleanName(name: string, pinyin: string -> string): (r: string)
    ensures NoChar(r, '.')
  {
    RemoveChars(pinyin(RemoveChars(Stem(BaseName(name)), ForbiddenChars)), {'.'})
  }

  /** The transliteration is handed the stem with every forbidden
      character removed, and the name it gives back loses its dots; a name
      free of both the forbidden characters and dots is kept by an identity
      transliteration. */
  lemma CleanNameSteps(name: string, pinyin: string -> string)
    ensures NoChar(CleanName(name, pinyin), '.')
    ensures var cleaned := RemoveChars(Stem(BaseName(name)), ForbiddenChars);
      (forall k | 0 <= k < |cleaned| :: cleaned[k] !in ForbiddenChars) &&
      CleanName(name, pinyin) == RemoveChars(pinyin(cleaned), {'.'})
    ensures (forall k | 0 <= k < |Stem(BaseName(name))| :: Stem(BaseName(name))[k] !in ForbiddenChars + {'.'}) &&
            (forall s :: pinyin(s) == s) ==>
              CleanName(name, pinyin) == Stem(BaseName(name))
  {
    var stem := Stem(BaseName(name));
    if (forall k | 0 <= k < |stem| :: stem[k] !in ForbiddenChars + {'.'}) && (forall s :: pinyin(s) == s) {
      RemoveCharsNone(stem, ForbiddenChars);
      RemoveCharsNone(stem, {'.'});
    }
  }

  /** `os.path.join(user_id, f"{cleaned_name}{file_ext}")` */
  function StoragePath(uid: string, name: string, pinyin: string -> string): string {
    PathJoin(uid, CleanName(name, pinyin) + Extension(name))
  }

  /** The extension of an admitted file has no '/' and a leading '.'. */
  lemma AllowedShape(ext: string)
    requires ext in AllowedExtensions
    ensures |ext| >= 4 && ext[0] == '.' && NoChar(ext, '/') && NoChar(ext[1..], '.')
  {
  }

  /** The stored file name `cleaned_name + ext` of an admitted file has no
      '/', and, when the cleaned name is not empty, that name is its stem
      and the extension its suffix. */
  lemma FileNameParts(cleaned: string, ext: string)
    requires ext in AllowedExtensions && NoChar(cleaned, '/') && NoChar(cleaned, '.')
    ensures NoChar(cleaned + ext, '/')
    ensures cleaned != [] ==> Stem(cleaned + ext) == cleaned && Suffix(cleaned + ext) == ext
  {
    AllowedShape(ext);
    var file := cleaned + ext;
    assert forall k | 0 <= k < |file| :: file[k] == if k < |cleaned| then cleaned[k] else ext[k - |cleaned|];
    if cleaned != [] {
      assert file == cleaned + "." + ext[1..];
      LastDot(cleaned, ext[1..]);
    }
  }

  /** The storage path of an admitted file is a directory named after the
      user holding `cleaned_name + ext`; when the cleaned name is not
      empty it is the stem of that file and the extension its suffix. */
  lemma StoragePathParts(uid: string, name: string, pinyin: string -> string)
    requires uid != [] && NoChar(uid, '/') && NoChar(CleanName(name, pinyin), '/')
    requires Extension(name) in AllowedExtensions
    ensures Dirname(StoragePath(uid, name, pinyin)) == uid
    ensures BaseName(StoragePath(uid, name, pinyin)) == CleanName(name, pinyin) + Extension(name)
    ensures CleanName(name, pinyin) != [] ==>
              Stem(BaseName(StoragePath(uid, name, pinyin))) == CleanName(name, pinyin) &&
              Suffix(BaseName(StoragePath(uid, name, pinyin))) == Extension(name)
  {
    FileNameParts(CleanName(name, pinyin), Extension(name));
    PathParts(uid, CleanName(name, pinyin) + Extension(name));
  }

  // ---------------------------------------------------------------------
  // upload_file: the handler

  /** Everything of `upload_file` but its `finally`: the checks and the
      lock, then the chunked write, the new record and the decrement. */
  method UploadBody(accounts: Accounts, table: SubmissionTable, files: FileStore, locks: LockStore,
                    userId: Option<string>, document: Option<Document>, now: int, pinyin: string -> string)
    returns (r: Result<nat, UploadError>)
    requires table.Valid()
    modifies accounts, table, files, locks
    ensures table.Valid()
    ensures var admitted := Admission(old(accounts.availableCnt), old(locks.keys), userId, document);
      (r.Err? <==> admitted.Err?) &&
      (r.Err? ==> r.error == admitted.error &&
                  table.rows == old(table.rows) && table.nextId == old(table.nextId) &&
                  files.files == old(files.files) && accounts.availableCnt == old(accounts.availableCnt)) &&
      (r.Ok? ==> var uid := userId.value; var d := document.value; var path := StoragePath(uid, d.name, pinyin);
                 r.value == old(table.nextId) && table.nextId == old(table.nextId) + 1 &&
                 table.rows == old(table.rows) + [Row(r.value, uid, uid, path, CleanName(d.name, pinyin), d.name, path,
                                                      now, Submitted, "", None)] &&
                 files.files == old(files.files)[path := Concat(d.chunks)] &&
                 accounts.availableCnt == Adjusted(old(accounts.availableCnt), uid, -1))
    ensures locks.keys - {UploadLockKey(userId)} == old(locks.keys) - {UploadLockKey(userId)}
  {
    if userId.None? || userId.value == "" {
      return Err(MissingUserId);
    }
    var uid := userId.value;
    if uid !in accounts.availableCnt {
      return Err(NoSuchUser);
    }
    if accounts.availableCnt[uid] <= 0 {
      return Err(NoChecksLeft);
    }
    if document.None? {
      return Err(NoDocument);
    }
    var d := document.value;
    if Extension(d.name) !in AllowedExtensions {
      return Err(BadExtension);
    }
    if Size(d) > MaxUploadSize {
      return Err(TooLarge);
    }
    var locked := locks.SetNx(UploadLockKey(userId));
    if !locked {
      return Err(Duplicate);
    }
    r := Store(accounts, table, files, uid, d, now, pinyin);
  }

  /** The write of an admitted upload: the chunks to its storage path, the
      new SUBMITTED record, and one check taken from the user. */
  method Store(accounts: Accounts, table: SubmissionTable, files: FileStore,
               uid: string, d: Document, now: int, pinyin: string -> string)
    returns (r: Result<nat, UploadError>)
    requires table.Valid() && uid in accounts.availableCnt
    modifies accounts, table, files
    ensures table.Valid() && r.Ok?
    ensures var path := StoragePath(uid, d.name, pinyin);
      r.value == old(table.nextId) && table.nextId == old(table.nextId) + 1 &&
      table.rows == old(table.rows) + [Row(r.value, uid, uid, path, CleanName(d.name, pinyin), d.name, path,
                                           now, Submitted, "", None)] &&
      files.files == old(files.files)[path := Concat(d.chunks)] &&
      accounts.availableCnt == Adjusted(old(accounts.availableCnt), uid, -1)
  {
    var cleaned := CleanName(d.name, pinyin);
    var path := StoragePath(uid, d.name, pinyin);
    WriteChunks(files, path, d.chunks);
    var id := table.Create(uid, uid, path, cleaned, d.name, path, now, "");
    accounts.Add(uid, -1);
    r := Ok(id);
  }

  /** `open(full_path, 'wb+')` and the write of every chunk. */
  method WriteChunks(files: FileStore, path: string, chunks: seq<Bytes>)
    modifies files
    ensures files.files == old(files.files)[path := Concat(chunks)]
  {
    ghost var before := files.files;
    files.Open(path);
    var k := 0;
    while k < |chunks|
      invariant k <= |chunks|
      invariant files.files == before[path := Concat(chunks[..k])]
    {
      assert chunks[..k + 1][..k] == chunks[..k];
      files.Append(path, chunks[k]);
      k := k + 1;
    }
    assert chunks[..k] == chunks;
  }

  /** `upload_file`: the body, then the `finally` that deletes the user's
      lock key whenever it is set, whoever set it. */
  method UploadFile(accounts: Accounts, table: SubmissionTable, files: FileStore, locks: LockStore,
                    userId: Option<string>, document: Option<Document>, now: int, pinyin: string -> string)
    returns (r: Result<nat, UploadError>)
    requires table.Valid()
    modifies accounts, table, files, locks
    ensures table.Valid()
    ensures var admitted := Admission(old(accounts.availableCnt), old(locks.keys), userId, document);
      (r.Err? <==> admitted.Err?) &&
      (r.Err? ==> r.error == admitted.error &&
                  table.rows == old(table.rows) && table.nextId == old(table.nextId) &&
                  files.files == old(files.files) && accounts.availableCnt == old(accounts.availableCnt)) &&
      (r.Ok? ==> var uid := userId.value; var d := document.value; var path := StoragePath(uid, d.name, pinyin);
                 r.value == old(table.nextId) && table.nextId == old(table.nextId) + 1 &&
                 table.rows == old(table.rows) + [Row(r.value, uid, uid, path, CleanName(d.name, pinyin), d.name, path,
                                                      now, Submitted, "", None)] &&
                 files.files == old(files.files)[path := Concat(d.chunks)] &&
                 accounts.availableCnt == Adjusted(old(accounts.availableCnt), uid, -1))
    ensures locks.keys == old(locks.keys) - {UploadLockKey(userId)}
  {
    r := UploadBody(accounts, table, files, locks, userId, document, now, pinyin);
    var key := UploadLockKey(userId);
    if locks.Get(key) {
      locks.Delete(key);
    }
  }

  /** A use taken at intake comes back when the record fails: after the
      decrement of `upload_file`, `failed_task` on the record, once it is
      older than fifteen minutes and its key is free, restores the count. */
  lemma IntakeRefundedOnFailure(counts: map<string, int>, locks: set<string>, r: Row, now: int)
    requires r.uid in counts && Tasks.FailsAt(r, locks, now)
    ensures var taken := counts[r.uid := counts[r.uid] - 1];
      Tasks.FailedSweep([r], locks, taken, now, 1).counts[r.uid] == counts[r.uid]
  {
    var taken := counts[r.uid := counts[r.uid] - 1];
    Tasks.FailedSweepCounts([r], locks, taken, now, 1, r.uid);
    assert Tasks.Refunds([r], locks, now, 1, r.uid) == 1;
  }

  // ---------------------------------------------------------------------
  // download_file

  /** Why `download_file` answers with an error, and the status it sends. */
  datatype DownloadFailure =
    | MissingParameter      // 缺少 user_id、job_id 或 type 参数 (500)
    | JobIdNotANumber       // int(job_id) fails (500)
    | NoSuchJob             // DoesNotExist (404)
    | NotOwner              // 用户无权访问该作业 (403)
    | BadReportType         // 无效的 report_type 参数 (500)
    | NoFileName            // `with_name` on a path with no name (500)
    | NoReport(path: string) // 文件 ... 不存在 (404)

  function HttpStatus(f: DownloadFailure): int {
    match f
    case NoSuchJob => 404
    case NoReport(_) => 404
    case NotOwner => 403
    case _ => 500
  }

  /** The served file: `{title}_{type}_{stamp}{suffix}` and its content. */
  datatype Served = Served(filename: string, content: Bytes)

  /** The report a `type` names. */
  function ReportSuffix(reportType: string): Option<string> {
    if reportType == "report" then Some(Tasks.PlagiarismSuffix)
    else if reportType == "ai" then Some(Tasks.AiSuffix)
    else None
  }

  /** `base_path.with_name(base_path.stem + suffix)`, as `download_file`
      writes it. */
  function DownloadPathAsWritten(r: Row, suffix: string): string {
    WithName(r.filepath, Stem(BaseName(r.filepath)) + suffix)
  }

  /** The report path named after the record's title, which is where
      `download_reports` writes. */
  function DownloadPath(r: Row, suffix: string): string {
    WithName(r.filepath, r.title + suffix)
  }

  /** `download_file(user_id, job_id, type)` on the records `rows` and the
      stored files, with the report path CORRECTED: it looks the report up
      at `DownloadPath` (the title plus the suffix, where the sweep writes)
      instead of the stem-based `DownloadPathAsWritten` that the handler
      builds. The two agree whenever the cleaned name is not empty
      (`AsWrittenAgreesWhenNamed`) and differ when it is
      (`EmptyNameMismatch`). `stamp` is the formatted time of the request. */
  function DownloadFile(rows: seq<Row>, files: map<string, Bytes>, userId: string, jobId: string,
                        reportType: string, stamp: string): Result<Served, DownloadFailure>
  {
    if userId == "" || jobId == "" || reportType == "" then Err(MissingParameter)
    else if !AllDigits(jobId) then Err(JobIdNotANumber)
    else match FindRow(rows, ParseNat(jobId))
      case None => Err(NoSuchJob)
      case Some(i) =>
        var r := rows[i];
        if r.uid != userId then Err(NotOwner)
        else match ReportSuffix(reportType)
          case None => Err(BadReportType)
          case Some(suffix) =>
            if BaseName(r.filepath) == "" then Err(NoFileName)
            else
              var path := DownloadPath(r, suffix);
              if path !in files then Err(NoReport(path))
              else Ok(Served(r.title + "_" + reportType + "_" + stamp + Suffix(BaseName(path)), files[path]))
  }

  /** The owner is checked before any file is looked at: a record of
      another user gives 403 whatever is stored. A file is served only to
      the record's `uid`, only for `report` or `ai`, and it is the stored
      report of that kind. */
  lemma DownloadNeedsOwner(rows: seq<Row>, files: map<string, Bytes>, userId: string, jobId: string,
                           reportType: string, stamp: string)
    ensures var reply := DownloadFile(rows, files, userId, jobId, reportType, stamp);
      (userId != "" && jobId != "" && reportType != "" && AllDigits(jobId) &&
       FindRow(rows, ParseNat(jobId)).Some? && rows[FindRow(rows, ParseNat(jobId)).value].uid != userId ==>
         reply == Err(NotOwner) && HttpStatus(reply.error) == 403) &&
      (reply.Ok? ==>
         AllDigits(jobId) && FindRow(rows, ParseNat(jobId)).Some? &&
         var r := rows[FindRow(rows, ParseNat(jobId)).value];
         r.id == ParseNat(jobId) && r.uid == userId && ReportSuffix(reportType).Some? &&
         reply.value.content == files[DownloadPath(r, ReportSuffix(reportType).value)])
  {
  }

  /** Only the two report kinds are served. */
  lemma ReportKinds(t: string)
    ensures ReportSuffix(t).Some? <==> t == "report" || t == "ai"
    ensures ReportSuffix(t) == Some(Tasks.AiSuffix) <==> t == "ai"
  {
  }

  /** For a record stored at `join(uid, file)`, the path named after its
      title lies beside the stored file, where the sweep writes. */
  lemma {:induction false} ReportPathsAgree(uid: string, file: string, r: Row, suffix: string)
    requires uid != [] && NoChar(uid, '/') && NoChar(file, '/') && NoChar(r.title, '/')
    requires r.filepath == PathJoin(uid, file)
    requires suffix == Tasks.AiSuffix || suffix == Tasks.PlagiarismSuffix
    ensures DownloadPath(r, suffix) == Tasks.ReportPath(r, suffix)
  {
    PathParts(uid, file);
    var n := r.title + suffix;
    assert n[0] != '/' by {
      if r.title != [] {
        assert n[0] == r.title[0];
      } else {
        assert n == suffix;
      }
    }
    assert Tasks.StorageDir(r) == uid;
    assert Tasks.ReportPath(r, suffix) == uid + "/" + n;
    assert r.filepath[..|uid|] == uid;
  }

  /** The report of a record `upload_file` created is read where
      `download_reports` writes it. */
  lemma DownloadReadsWhatSweepWrites(uid: string, name: string, pinyin: string -> string, r: Row, suffix: string)
    requires uid != [] && NoChar(uid, '/') && NoChar(CleanName(name, pinyin), '/')
    requires Extension(name) in AllowedExtensions
    requires r.filepath == StoragePath(uid, name, pinyin) && r.title == CleanName(name, pinyin)
    requires suffix == Tasks.AiSuffix || suffix == Tasks.PlagiarismSuffix
    ensures DownloadPath(r, suffix) == Tasks.ReportPath(r, suffix)
  {
    FileNameParts(CleanName(name, pinyin), Extension(name));
    ReportPathsAgree(uid, CleanName(name, pinyin) + Extension(name), r, suffix);
  }

  /** The path as written agrees with the sweep whenever the cleaned name
      is not empty, since the title is then the stem of the stored file. */
  lemma AsWrittenAgreesWhenNamed(uid: string, name: string, pinyin: string -> string, r: Row, suffix: string)
    requires uid != [] && NoChar(uid, '/') && NoChar(CleanName(name, pinyin), '/')
    requires Extension(name) in AllowedExtensions && CleanName(name, pinyin) != []
    requires r.filepath == StoragePath(uid, name, pinyin) && r.title == CleanName(name, pinyin)
    requires suffix == Tasks.AiSuffix || suffix == Tasks.PlagiarismSuffix
    ensures DownloadPathAsWritten(r, suffix) == Tasks.ReportPath(r, suffix)
  {
    StoragePathParts(uid, name, pinyin);
    DownloadReadsWhatSweepWrites(uid, name, pinyin, r, suffix);
  }

  /** When the cleaned name is empty, the record is stored at
      `uid/<ext>` with an empty title: the sweep writes the report to
      `uid/<suffix>`, while the path as written keeps the whole extension
      as the stem and looks for `uid/<ext><suffix>`, which differs. */
  lemma EmptyNameMismatch(uid: string, ext: string, r: Row, suffix: string)
    requires uid != [] && NoChar(uid, '/') && ext in AllowedExtensions
    requires r.filepath == PathJoin(uid, ext) && r.title == ""
    requires suffix == Tasks.AiSuffix || suffix == Tasks.PlagiarismSuffix
    ensures Tasks.ReportPath(r, suffix) == uid + "/" + suffix
    ensures DownloadPath(r, suffix) == uid + "/" + suffix
    ensures DownloadPathAsWritten(r, suffix) == uid + "/" + (ext + suffix)
    ensures DownloadPathAsWritten(r, suffix) != Tasks.ReportPath(r, suffix)
  {
    AllowedShape(ext);
    EmptyNameReport(uid, ext, r, suffix);
    EmptyNameDownload(uid, ext, r, suffix);
    assert |uid + "/" + (ext + suffix)| != |uid + "/" + suffix|;
  }

  lemma EmptyNameReport(uid: string, ext: string, r: Row, suffix: string)
    requires uid != [] && NoChar(uid, '/') && NoChar(ext, '/')
    requires r.filepath == PathJoin(uid, ext) && r.title == ""
    requires suffix == Tasks.AiSuffix || suffix == Tasks.PlagiarismSuffix
    ensures Tasks.ReportPath(r, suffix) == uid + "/" + suffix
  {
    PathParts(uid, ext);
    assert r.title + suffix == suffix;
    assert suffix[0] == '_';
    assert Tasks.StorageDir(r) == uid;
  }

  lemma EmptyNameDownload(uid: string, ext: string, r: Row, suffix: string)
    requires uid != [] && NoChar(uid, '/') && ext in AllowedExtensions
    requires r.filepath == PathJoin(uid, ext) && r.title == ""
    ensures DownloadPath(r, suffix) == uid + "/" + suffix
    ensures DownloadPathAsWritten(r, suffix) == uid + "/" + (ext + suffix)
  {
    AllowedShape(ext);
    PathParts(uid, ext);
    WithNameJoin(uid, ext, r.title + suffix);
    WithNameJoin(uid, ext, Stem(ext) + suffix);
    assert r.title + suffix == suffix;
    assert Stem(ext) == ext by {
      LastIndexAt(ext, '.', 0);
    }
  }

  /** "?.pdf" cleans to the empty name with the extension ".pdf". */
  lemma QuestionMarkName(pinyin: string -> string)
    requires pinyin("") == ""
    ensures CleanName("?.pdf", pinyin) == "" && Extension("?.pdf") == ".pdf"
  {
    var name := "?.pdf";
    assert LastIndexOf(name, '/') == None;
    assert name == "?" + "." + "pdf";
    LastDot("?", "pdf");
    assert Stem(name) == "?";
    assert Suffix(name) == ".pdf";
    assert RemoveChars("?"[1..], ForbiddenChars) == "";
    assert RemoveChars("?", ForbiddenChars) == "";
  }

  /** A file named "?.pdf" uploaded by user "u" is stored as "u/.pdf" with
      an empty title; the sweep writes its AI report to "u/_ai.pdf", but
      the path as written looks for "u/.pdf_ai.pdf", and so never finds
      it. */
  lemma EmptyStemDownloadMismatch(pinyin: string -> string, r: Row)
    requires pinyin("") == ""
    requires r.filepath == StoragePath("u", "?.pdf", pinyin) && r.title == CleanName("?.pdf", pinyin)
    ensures r.filepath == PathJoin("u", ".pdf") && r.title == ""
    ensures Tasks.ReportPath(r, Tasks.AiSuffix) == "u" + "/" + Tasks.AiSuffix
    ensures DownloadPathAsWritten(r, Tasks.AiSuffix) == "u" + "/" + (".pdf" + Tasks.AiSuffix)
    ensures DownloadPathAsWritten(r, Tasks.AiSuffix) != Tasks.ReportPath(r, Tasks.AiSuffix)
  {
    QuestionMarkStored(pinyin, r);
    EmptyNameMismatch("u", ".pdf", r, Tasks.AiSuffix);
  }

  lemma QuestionMarkStored(pinyin: string -> string, r: Row)
    requires pinyin("") == ""
    requires r.filepath == StoragePath("u", "?.pdf", pinyin) && r.title == CleanName("?.pdf", pinyin)
    ensures r.filepath == PathJoin("u", ".pdf") && r.title == ""
  {
    QuestionMarkName(pinyin);
    assert "" + ".pdf" == ".pdf";
  }

  // ---------------------------------------------------------------------
  // delete_job

  /** Why `delete_job` answers with an error. */
  datatype DeleteFailure =
    | DeleteMissingParameter  // 缺少必要参数 (500)
    | DeleteJobIdNotANumber   // (500)
    | DeleteNoSuchJob         // DoesNotExist (404)
    | DeleteNotAllowed        // TransitionNotAllowed from mark_delete (500)

  /** The record `get(user_id=user_id, id=job_id)` finds. */
  function OwnedJob(rows: seq<Row>, userId: string, jobId: string): (r: Result<nat, DeleteFailure>)
    ensures r.Ok? <==> userId != "" && jobId != "" && AllDigits(jobId) && FindRow(rows, ParseNat(jobId)).Some? &&
                       rows[FindRow(rows, ParseNat(jobId)).value].userId == userId
    ensures r.Ok? ==> r.value < |rows| && rows[r.value].id == ParseNat(jobId) && rows[r.value].userId == userId
  {
    if userId == "" || jobId == "" then Err(DeleteMissingParameter)
    else if !AllDigits(jobId) then Err(DeleteJobIdNotANumber)
    else match FindRow(rows, ParseNat(jobId))
      case None => Err(DeleteNoSuchJob)
      case Some(i) => if rows[i].userId != userId then Err(DeleteNoSuchJob) else Ok(i)
  }

  /** `delete_job`: the reply, the records and the files afterwards. The
      stored upload is removed before `mark_delete` is tried, so a GRADED
      or DELETED record loses its file and keeps its status. */
  function DeleteOutcome(rows: seq<Row>, files: map<string, Bytes>, userId: string, jobId: string)
    : (Result<(), DeleteFailure>, seq<Row>, map<string, Bytes>)
  {
    match OwnedJob(rows, userId, jobId)
    case Err(e) => (Err(e), rows, files)
    case Ok(i) =>
      var r := rows[i];
      var remaining := if r.filepath != "" && r.filepath in files then files - {r.filepath} else files;
      match Fire(r.status, Transition.MarkDelete)
      case None => (Err(DeleteNotAllowed), rows, remaining)
      case Some(s) => (Ok(()), rows[i := r.(status := s)], remaining)
  }

  /** A delete succeeds exactly for the caller's own record in a state
      `mark_delete` accepts; it then leaves that record DELETED, its
      upload gone, and every other record and file as it was. */
  lemma DeleteJobEffect(rows: seq<Row>, files: map<string, Bytes>, userId: string, jobId: string)
    ensures var (reply, after, stored) := DeleteOutcome(rows, files, userId, jobId);
      var found := OwnedJob(rows, userId, jobId);
      |after| == |rows| &&
      (reply.Ok? <==> found.Ok? && rows[found.value].status in {Submitted, Analysing, Downloaded, Failed}) &&
      (reply.Ok? ==> after[found.value] == rows[found.value].(status := Deleted)) &&
      (found.Ok? && rows[found.value].filepath != "" ==> rows[found.value].filepath !in stored) &&
      (forall k | 0 <= k < |rows| && (found.Err? || k != found.value) :: after[k] == rows[k]) &&
      (found.Ok? ==> forall p | p in files && p != rows[found.value].filepath :: p in stored && stored[p] == files[p]) &&
      (found.Err? ==> stored == files)
  {
  }

  method DeleteJob(table: SubmissionTable, files: FileStore, userId: string, jobId: string)
    returns (reply: Result<(), DeleteFailure>)
    requires table.Valid()
    modifies table`rows, files
    ensures (reply, table.rows, files.files) == DeleteOutcome(old(table.rows), old(files.files), userId, jobId)
  {
    var found := OwnedJob(table.rows, userId, jobId);
    if found.Err? {
      return Err(found.error);
    }
    var i := found.value;
    var path := table.rows[i].filepath;
    if path != "" && files.Exists(path) {
      files.Delete(path);
    }
    var ok := table.MarkDelete(i);
    if !ok {
      return Err(DeleteNotAllowed);
    }
    reply := Ok(());
  }
}
