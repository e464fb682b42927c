/** The background jobs of `turnitin_admin/tasks.py`: the Redis lock
    helpers and the three sweeps over the submission table. Time is in
    whole seconds (`now` and `Row.createTime`); the Turnitin client's
    answers for each row are parameters of the sweeps. */
module Tasks {
  import opened Wrappers
  import opened Text
  import opened Models
  import opened Stores

  /** `settings.MEDIA_ROOT` */
  const MediaRoot: string := "/root/turniting_admin/media/"

  const LockPrefix: string := "lock:assignment:"

  /** Ten and fifteen minutes, in seconds. */
  const TenMinutes: int := 600
  const FifteenMinutes: int := 900

  const AiSuffix: string := "_ai.pdf"
  const PlagiarismSuffix: string := "_plagiarism.pdf"
  const FailedSuffix: string := "_to_failed"

  // ---------------------------------------------------------------------
  // Locks

  /** The Redis key guarding `name`. */
  function LockKey(name: string): string {
    LockPrefix + name
  }

  /** Different names are guarded by different keys. */
  lemma LockKeyInjective(a: string, b: string)
    ensures LockKey(a) == LockKey(b) <==> a == b
  {
    assert a == LockKey(a)[|LockPrefix|..];
    assert b == LockKey(b)[|LockPrefix|..];
  }

  /** `acquire_lock`: `SET NX`, then, under the in-process mutex, a `GET`
      and a second `SET NX`. `vanished` says whether the key disappeared
      between the first `SET NX` and the `GET` (its holder released it or
      its expiry passed); only then can the second attempt succeed. */
  method AcquireLock(store: LockStore, name: string, vanished: bool) returns (ok: bool)
    modifies store
    ensures ok <==> LockKey(name) !in old(store.keys) || vanished
    ensures store.keys == old(store.keys) + {LockKey(name)}
  {
    var key := LockKey(name);
    ok := store.SetNx(key);
    if !ok {
      if vanished {
        store.Delete(key);
      }
      if !store.Get(key) {
        ok := store.SetNx(key);
      }
    }
  }

  /** `release_lock`: deletes the key, whoever set it. */
  method ReleaseLock(store: LockStore, name: string)
    modifies store
    ensures store.keys == old(store.keys) - {LockKey(name)}
  {
    store.Delete(LockKey(name));
  }

  // ---------------------------------------------------------------------
  // Report files

  datatype FileWrite = FileWrite(name: string, content: Bytes)

  /** The storage after the writes `ws`, in order. */
  function ApplyWrites(files: map<string, Bytes>, ws: seq<FileWrite>): map<string, Bytes>
    decreases |ws|
  {
    if ws == [] then files else ApplyWrites(files[ws[0].name := ws[0].content], ws[1..])
  }

  /** Writes leave every other name alone. */
  lemma {:induction false} ApplyWritesElsewhere(files: map<string, Bytes>, ws: seq<FileWrite>, name: string)
    requires forall k | 0 <= k < |ws| :: ws[k].name != name
    ensures (name in ApplyWrites(files, ws)) == (name in files)
    ensures name in files ==> ApplyWrites(files, ws)[name] == files[name]
    decreases |ws|
  {
    if ws != [] {
      ApplyWritesElsewhere(files[ws[0].name := ws[0].content], ws[1..], name);
    }
  }

  /** The last write to a name decides its content. */
  lemma {:induction false} ApplyWritesLast(files: map<string, Bytes>, ws: seq<FileWrite>, k: nat)
    requires k < |ws|
    requires forall m | k < m < |ws| :: ws[m].name != ws[k].name
    ensures ws[k].name in ApplyWrites(files, ws)
    ensures ApplyWrites(files, ws)[ws[k].name] == ws[k].content
    decreases |ws|
  {
    if k == 0 {
      ApplyWritesElsewhere(files[ws[0].name := ws[0].content], ws[1..], ws[0].name);
    } else {
      ApplyWritesLast(files[ws[0].name := ws[0].content], ws[1..], k - 1);
    }
  }

  /** Where `download_reports` stores a record's reports: the directory of
      its upload (or the media root when it has none), then the title and
      the suffix. */
  function StorageDir(r: Row): string {
    if r.filepath != "" then Dirname(r.filepath) else MediaRoot
  }

  function ReportPath(r: Row, suffix: string): string {
    PathJoin(StorageDir(r), r.title + suffix)
  }

  // ---------------------------------------------------------------------
  // download_reports

  /** `not ai_content`: `download_ai_file` gave nothing, or empty bytes. */
  predicate NoContent(c: Option<Bytes>) {
    c.None? || c.value == []
  }

  /** What one locked ANALYSING record does: the files it writes, in
      order, and whether it moves to DOWNLOADED. */
  datatype DownloadEffect = DownloadEffect(writes: seq<FileWrite>, downloaded: bool)

  /** One locked ANALYSING record of `download_reports`, given what the
      client returned for its AI report and its similarity report. */
  function DownloadStep(r: Row, now: int, ai: Option<Bytes>, plag: Fetch<Bytes>): DownloadEffect {
    if now - r.createTime <= TenMinutes then
      if NoContent(ai) then DownloadEffect([], false)
      else match plag
        case Raised(_) => DownloadEffect([], false)
        case Got(p) =>
          var aiWrite := [FileWrite(ReportPath(r, AiSuffix), ai.value)];
          if p == [] then DownloadEffect(aiWrite, false)
          else DownloadEffect(aiWrite + [FileWrite(ReportPath(r, PlagiarismSuffix), p)], true)
    else match plag
      case Raised(_) => DownloadEffect([], false)
      case Got(p) =>
        if p == [] then DownloadEffect([], false)
        else DownloadEffect([FileWrite(ReportPath(r, PlagiarismSuffix), p)], true)
  }

  /** A record reaches DOWNLOADED only with a non-empty similarity report
      written to its directory, and, within ten minutes of upload, only
      with a non-empty AI report written before it. */
  lemma DownloadedMeansReports(r: Row, now: int, ai: Option<Bytes>, plag: Fetch<Bytes>)
    ensures DownloadStep(r, now, ai, plag).downloaded <==>
              plag.Got? && plag.value != [] && (now - r.createTime <= TenMinutes ==> !NoContent(ai))
    ensures DownloadStep(r, now, ai, plag).downloaded && now - r.createTime <= TenMinutes ==>
              DownloadStep(r, now, ai, plag).writes ==
                [FileWrite(ReportPath(r, AiSuffix), ai.value), FileWrite(ReportPath(r, PlagiarismSuffix), plag.value)]
    ensures DownloadStep(r, now, ai, plag).downloaded && now - r.createTime > TenMinutes ==>
              DownloadStep(r, now, ai, plag).writes == [FileWrite(ReportPath(r, PlagiarismSuffix), plag.value)]
  {
  }

  /** Within ten minutes a missing AI report changes nothing; a present AI
      report is kept even when the similarity report is still empty, and
      the record then stays ANALYSING for the next run. */
  lemma AiReportGrace(r: Row, now: int, ai: Option<Bytes>, plag: Fetch<Bytes>)
    requires now - r.createTime <= TenMinutes
    ensures NoContent(ai) ==> DownloadStep(r, now, ai, plag) == DownloadEffect([], false)
    ensures !NoContent(ai) && plag == Got([]) ==>
              DownloadStep(r, now, ai, plag) == DownloadEffect([FileWrite(ReportPath(r, AiSuffix), ai.value)], false)
  {
  }

  /** The only files one record writes are its two reports. */
  lemma DownloadStepNames(r: Row, now: int, ai: Option<Bytes>, plag: Fetch<Bytes>)
    ensures forall k | 0 <= k < |DownloadStep(r, now, ai, plag).writes| ::
              DownloadStep(r, now, ai, plag).writes[k].name in {ReportPath(r, AiSuffix), ReportPath(r, PlagiarismSuffix)}
  {
  }

  /** The lock name of a record in `download_reports`: its Turnitin
      assignment id, not its primary key. */
  function DownloadKey(r: Row): string {
    LockKey(r.assignmentId)
  }

  /** What visiting record `r` does when the keys `held` are set: nothing
      unless it is ANALYSING and its key is free. */
  function DownloadVisitEffect(r: Row, held: set<string>, now: int, ai: Option<Bytes>, plag: Fetch<Bytes>): DownloadEffect {
    if r.status == Analysing && DownloadKey(r) !in held then DownloadStep(r, now, ai, plag)
    else DownloadEffect([], false)
  }

  /** The records visited so far, the keys set and the storage, in the
      middle of a sweep. */
  datatype SweepState = SweepState(rows: seq<Row>, locks: set<string>, files: map<string, Bytes>)

  /** One record of `download_reports`, from the state before it: every
      ANALYSING record deletes its key in the `finally` clause, even when
      another worker held it. */
  function DownloadNext(st: SweepState, r: Row, now: int, ai: Option<Bytes>, plag: Fetch<Bytes>): SweepState {
    var e := DownloadVisitEffect(r, st.locks, now, ai, plag);
    SweepState(st.rows + [if e.downloaded then r.(status := Downloaded) else r],
               if r.status == Analysing then st.locks - {DownloadKey(r)} else st.locks,
               ApplyWrites(st.files, e.writes))
  }

  /** `download_reports` up to (not including) row `i`. */
  function DownloadSweep(rows: seq<Row>, locks: set<string>, files: map<string, Bytes>, now: int,
                         ai: seq<Option<Bytes>>, plag: seq<Fetch<Bytes>>, i: nat): (st: SweepState)
    requires i <= |rows| && |ai| == |rows| && |plag| == |rows|
    ensures |st.rows| == i
    decreases i
  {
    if i == 0 then SweepState([], locks, files)
    else DownloadNext(DownloadSweep(rows, locks, files, now, ai, plag, i - 1), rows[i - 1], now, ai[i - 1], plag[i - 1])
  }

  /** The only change `download_reports` makes to a record is ANALYSING to
      DOWNLOADED, and only for a record it locked whose reports came
      back, as characterised by `DownloadedMeansReports`. */
  lemma {:induction false} DownloadSweepRows(rows: seq<Row>, locks: set<string>, files: map<string, Bytes>, now: int,
                                            ai: seq<Option<Bytes>>, plag: seq<Fetch<Bytes>>, i: nat, j: nat)
    requires j < i <= |rows| && |ai| == |rows| && |plag| == |rows|
    ensures var held := DownloadSweep(rows, locks, files, now, ai, plag, j).locks;
            DownloadSweep(rows, locks, files, now, ai, plag, i).rows[j] ==
              if DownloadVisitEffect(rows[j], held, now, ai[j], plag[j]).downloaded
              then rows[j].(status := Downloaded) else rows[j]
    ensures DownloadSweep(rows, locks, files, now, ai, plag, i).rows[j] == rows[j] ||
            (rows[j].status == Analysing &&
             DownloadSweep(rows, locks, files, now, ai, plag, i).rows[j] == rows[j].(status := Downloaded))
    decreases i
  {
    if j < i - 1 {
      DownloadSweepRows(rows, locks, files, now, ai, plag, i - 1, j);
    }
  }

  /** A key is set after `download_reports` exactly when it was set before
      and no ANALYSING record has it as its key. */
  lemma {:induction false} DownloadSweepLocks(rows: seq<Row>, locks: set<string>, files: map<string, Bytes>, now: int,
                                             ai: seq<Option<Bytes>>, plag: seq<Fetch<Bytes>>, i: nat, k: string)
    requires i <= |rows| && |ai| == |rows| && |plag| == |rows|
    ensures k in DownloadSweep(rows, locks, files, now, ai, plag, i).locks <==>
              k in locks && forall j | 0 <= j < i && rows[j].status == Analysing :: DownloadKey(rows[j]) != k
    decreases i
  {
    if i > 0 {
      DownloadSweepLocks(rows, locks, files, now, ai, plag, i - 1, k);
    }
  }

  /** `download_reports` writes nothing but the report files of the
      ANALYSING records it visits. */
  lemma {:induction false} DownloadSweepFiles(rows: seq<Row>, locks: set<string>, files: map<string, Bytes>, now: int,
                                             ai: seq<Option<Bytes>>, plag: seq<Fetch<Bytes>>, i: nat, name: string)
    requires i <= |rows| && |ai| == |rows| && |plag| == |rows|
    requires forall j | 0 <= j < i && rows[j].status == Analysing ::
               name != ReportPath(rows[j], AiSuffix) && name != ReportPath(rows[j], PlagiarismSuffix)
    ensures (name in DownloadSweep(rows, locks, files, now, ai, plag, i).files) == (name in files)
    ensures name in files ==> DownloadSweep(rows, locks, files, now, ai, plag, i).files[name] == files[name]
    decreases i
  {
    if i > 0 {
      DownloadSweepFiles(rows, locks, files, now, ai, plag, i - 1, name);
      var prev := DownloadSweep(rows, locks, files, now, ai, plag, i - 1);
      var r := rows[i - 1];
      if r.status == Analysing {
        DownloadStepNames(r, now, ai[i - 1], plag[i - 1]);
      }
      ApplyWritesElsewhere(prev.files, DownloadVisitEffect(r, prev.locks, now, ai[i - 1], plag[i - 1]).writes, name);
    }
  }

  /** `(a + b)[|a| := x]` splits at `x`. */
  lemma SplitUpdate<T>(a: seq<T>, b: seq<T>, x: T)
    requires b != []
    ensures (a + b)[|a| := x] == a + [x] + b[1..]
  {
  }

  /** The `try` body of `download_reports` for record `i`, whose lock it
      holds. */
  method DownloadOne(table: SubmissionTable, i: nat, files: FileStore, now: int, ai: Option<Bytes>, plag: Fetch<Bytes>)
    requires i < |table.rows| && table.rows[i].status == Analysing
    modifies table`rows, files
    ensures files.files == ApplyWrites(old(files.files), DownloadStep(old(table.rows[i]), now, ai, plag).writes)
    ensures table.rows == old(table.rows)[i := if DownloadStep(old(table.rows[i]), now, ai, plag).downloaded
                                               then old(table.rows[i]).(status := Downloaded) else old(table.rows[i])]
  {
    var v := table.rows[i];
    ghost var F := files.files;
    assert table.rows == table.rows[i := v];
    if now - v.createTime <= TenMinutes {
      if !NoContent(ai) && plag.Got? {
        var w1 := FileWrite(ReportPath(v, AiSuffix), ai.value);
        files.Write(w1.name, w1.content);
        if plag.value != [] {
          var w2 := FileWrite(ReportPath(v, PlagiarismSuffix), plag.value);
          files.Write(w2.name, w2.content);
          var _ := table.MarkDownloaded(i);
          ghost var F1 := F[w1.name := w1.content];
          assert [w1, w2][1..] == [w2];
          assert ApplyWrites(F, [w1, w2]) == ApplyWrites(F1, [w2]);
          assert ApplyWrites(F1, [w2]) == ApplyWrites(F1[w2.name := w2.content], []);
        } else {
          assert DownloadStep(v, now, ai, plag).writes == [w1];
          assert ApplyWrites(F, [w1]) == ApplyWrites(F[w1.name := w1.content], []);
        }
      }
    } else if plag.Got? && plag.value != [] {
      files.Write(ReportPath(v, PlagiarismSuffix), plag.value);
      var _ := table.MarkDownloaded(i);
    }
  }

  /** One iteration of `download_reports`: the lock, the `try` body when
      the lock was granted, and the release in `finally`. */
  method DownloadVisit(table: SubmissionTable, i: nat, locks: LockStore, files: FileStore, now: int,
                       ai: Option<Bytes>, plag: Fetch<Bytes>)
    requires i < |table.rows|
    modifies table`rows, locks, files
    ensures locks.keys == if old(table.rows[i]).status == Analysing
                          then old(locks.keys) - {DownloadKey(old(table.rows[i]))} else old(locks.keys)
    ensures files.files == ApplyWrites(old(files.files),
                                       DownloadVisitEffect(old(table.rows[i]), old(locks.keys), now, ai, plag).writes)
    ensures table.rows == old(table.rows)[i := if DownloadVisitEffect(old(table.rows[i]), old(locks.keys), now, ai, plag).downloaded
                                               then old(table.rows[i]).(status := Downloaded) else old(table.rows[i])]
  {
    assert table.rows == table.rows[i := table.rows[i]];
    if table.rows[i].status == Analysing {
      var name := table.rows[i].assignmentId;
      var acquired := AcquireLock(locks, name, false);
      if acquired {
        DownloadOne(table, i, files, now, ai, plag);
      }
      ReleaseLock(locks, name);
    }
  }

  /** `download_reports`. Records are visited in table order; `ai[i]` and
      `plag[i]` are what the client's `download_ai_file` and
      `download_plagiarism_file` return for row `i`, and are not
      consulted for rows the sweep does not try. */
  method DownloadReports(table: SubmissionTable, locks: LockStore, files: FileStore, now: int,
                         ai: seq<Option<Bytes>>, plag: seq<Fetch<Bytes>>)
    requires |ai| == |table.rows| && |plag| == |table.rows|
    modifies table`rows, locks, files
    ensures var st := DownloadSweep(old(table.rows), old(locks.keys), old(files.files), now, ai, plag, |ai|);
            table.rows == st.rows && locks.keys == st.locks && files.files == st.files
  {
    ghost var vs := table.rows;
    ghost var L := locks.keys;
    ghost var F := files.files;
    ghost var st := DownloadSweep(vs, L, F, now, ai, plag, 0);
    var n := |table.rows|;
    for i := 0 to n
      invariant |table.rows| == |vs| == n
      invariant st == DownloadSweep(vs, L, F, now, ai, plag, i)
      invariant table.rows == st.rows + vs[i..]
      invariant locks.keys == st.locks && files.files == st.files
    {
      DownloadVisit(table, i, locks, files, now, ai[i], plag[i]);
      ghost var e := DownloadVisitEffect(vs[i], st.locks, now, ai[i], plag[i]);
      SplitUpdate(st.rows, vs[i..], if e.downloaded then vs[i].(status := Downloaded) else vs[i]);
      assert vs[i..][1..] == vs[i + 1..];
      st := DownloadNext(st, vs[i], now, ai[i], plag[i]);
    }
  }

  // ---------------------------------------------------------------------
  // _upload_to_turnitin_task

  /** The lock name of a record in `_upload_to_turnitin_task`: its
      primary key. */
  function UploadKey(r: Row): string {
    LockKey(NatToString(r.id))
  }

  /** The exclusion string handed to the client: the log, or "" when
      there is none. */
  function Exclusion(review: Option<string>): string {
    if review.None? then "" else review.value
  }

  /** The error log after an upload failure: the error text alone when
      there was no log, otherwise the old log, a ';' and the error text. */
  function AppendLog(review: Option<string>, e: string): (r: Option<string>)
    ensures r.Some?
    ensures review.None? ==> r.value == e
    ensures review.Some? ==> |r.value| == |review.value| + 1 + |e| && r.value[|review.value|] == ';'
    ensures review.Some? ==> r.value[..|review.value|] == review.value
    ensures |e| <= |r.value| && r.value[|r.value| - |e|..] == e
  {
    if review.None? then Some(e) else Some(review.value + ";" + e)
  }

  /** Logging never drops an exclusion: whatever the old log or the new
      error text contained, the exclusion string handed to the next
      `submit` still contains. */
  lemma LogKeepsExclusions(review: Option<string>, e: string, x: string)
    ensures Contains(e, x) ==> Contains(Exclusion(AppendLog(review, e)), x)
    ensures review.Some? && Contains(review.value, x) ==> Contains(Exclusion(AppendLog(review, e)), x)
  {
    if review.Some? {
      var w := review.value + ";" + e;
      if Contains(e, x) {
        ContainsInfix(review.value + ";", e, "", x);
        assert review.value + ";" + e + "" == w;
      }
      if Contains(review.value, x) {
        ContainsInfix("", review.value, ";" + e, x);
        assert "" + review.value + (";" + e) == w;
      }
    } else if Contains(e, x) {
      assert Exclusion(AppendLog(review, e)) == e;
    }
  }

  /** The message of the error raised for a record without a stored
      upload: its primary key and the absolute path tried ("" when the
      record has no path). */
  function MissingFileMessage(r: Row): string {
    "作业 " + NatToString(r.id) + " 文件路径无效或文件不存在: " +
    (if r.filepath != "" then PathJoin(MediaRoot, r.filepath) else "")
  }

  /** What the client's `submit` did for one record: raised an error with
      the given text, or returned metadata with or without an
      `assignment_id`. */
  type Submitter = (nat, string) -> Fetch<Option<string>>

  /** The `try` body of `_upload_to_turnitin_task` for a SUBMITTED record
      whose lock it holds; `files` is the storage it reads. */
  function UploadStep(r: Row, now: int, files: map<string, Bytes>, submit: Submitter): Row {
    if now - r.createTime > TenMinutes then r.(review := AppendLog(r.review, "timeout"))
    else if r.filepath == "" || r.filepath !in files then r.(review := AppendLog(r.review, MissingFileMessage(r)))
    else match submit(r.id, Exclusion(r.review))
      case Raised(m) => r.(review := AppendLog(r.review, m))
      case Got(None) => r
      case Got(Some(aid)) => r.(assignmentId := aid, status := Analysing)
  }

  /** After more than ten minutes nothing is submitted: the record keeps
      its status and slot, and "timeout" is appended to its log. Within
      ten minutes, a record with a stored upload moves to ANALYSING
      exactly when the client returned a slot, and takes that slot. Only
      the status, the slot and the log ever change. */
  lemma UploadStepCases(r: Row, now: int, files: map<string, Bytes>, submit: Submitter)
    requires r.status == Submitted
    ensures var r' := UploadStep(r, now, files, submit);
            r' == r.(status := r'.status, assignmentId := r'.assignmentId, review := r'.review)
    ensures now - r.createTime > TenMinutes ==>
              UploadStep(r, now, files, submit) == r.(review := AppendLog(r.review, "timeout"))
    ensures UploadStep(r, now, files, submit).status == Analysing <==>
              now - r.createTime <= TenMinutes && r.filepath != "" && r.filepath in files &&
              submit(r.id, Exclusion(r.review)).Got? && submit(r.id, Exclusion(r.review)).value.Some?
    ensures UploadStep(r, now, files, submit).status != Analysing ==> UploadStep(r, now, files, submit).status == Submitted
    ensures UploadStep(r, now, files, submit).status == Analysing ==>
              UploadStep(r, now, files, submit).assignmentId == submit(r.id, Exclusion(r.review)).value.value &&
              UploadStep(r, now, files, submit).review == r.review
  {
  }

  /** What visiting record `r` does when the keys `held` are set. */
  function UploadVisitEffect(r: Row, held: set<string>, now: int, files: map<string, Bytes>, submit: Submitter): Row {
    if r.status == Submitted && UploadKey(r) !in held then UploadStep(r, now, files, submit) else r
  }

  datatype UploadState = UploadState(rows: seq<Row>, locks: set<string>)

  /** One record of `_upload_to_turnitin_task`: every SUBMITTED record
      deletes its key in `finally`. */
  function UploadNext(st: UploadState, r: Row, now: int, files: map<string, Bytes>, submit: Submitter): UploadState {
    UploadState(st.rows + [UploadVisitEffect(r, st.locks, now, files, submit)],
                if r.status == Submitted then st.locks - {UploadKey(r)} else st.locks)
  }

  /** `_upload_to_turnitin_task` up to (not including) row `i`. */
  function UploadSweep(rows: seq<Row>, locks: set<string>, now: int, files: map<string, Bytes>,
                       submit: Submitter, i: nat): (st: UploadState)
    requires i <= |rows|
    ensures |st.rows| == i
    decreases i
  {
    if i == 0 then UploadState([], locks)
    else UploadNext(UploadSweep(rows, locks, now, files, submit, i - 1), rows[i - 1], now, files, submit)
  }

  /** Row `j` after the sweep is what its own visit made of it, with the
      keys set at that point. */
  lemma {:induction false} UploadSweepRows(rows: seq<Row>, locks: set<string>, now: int, files: map<string, Bytes>,
                                          submit: Submitter, i: nat, j: nat)
    requires j < i <= |rows|
    ensures UploadSweep(rows, locks, now, files, submit, i).rows[j] ==
              UploadVisitEffect(rows[j], UploadSweep(rows, locks, now, files, submit, j).locks, now, files, submit)
    decreases i
  {
    if j < i - 1 {
      UploadSweepRows(rows, locks, now, files, submit, i - 1, j);
    }
  }

  /** A key is set after the sweep exactly when it was set before and no
      SUBMITTED record has it as its key. */
  lemma {:induction false} UploadSweepLocks(rows: seq<Row>, locks: set<string>, now: int, files: map<string, Bytes>,
                                           submit: Submitter, i: nat, k: string)
    requires i <= |rows|
    ensures k in UploadSweep(rows, locks, now, files, submit, i).locks <==>
              k in locks && forall j | 0 <= j < i && rows[j].status == Submitted :: UploadKey(rows[j]) != k
    decreases i
  {
    if i > 0 {
      UploadSweepLocks(rows, locks, now, files, submit, i - 1, k);
    }
  }

  /** One iteration of `_upload_to_turnitin_task`, with the releases
      before each `raise` and in `finally`. */
  method UploadVisit(table: SubmissionTable, i: nat, locks: LockStore, files: FileStore, now: int, submit: Submitter)
    requires i < |table.rows|
    modifies table`rows, locks
    ensures locks.keys == if old(table.rows[i]).status == Submitted
                          then old(locks.keys) - {UploadKey(old(table.rows[i]))} else old(locks.keys)
    ensures table.rows == old(table.rows)[i := UploadVisitEffect(old(table.rows[i]), old(locks.keys), now, files.files, submit)]
  {
    var r := table.rows[i];
    assert table.rows == table.rows[i := r];
    if r.status == Submitted {
      var name := NatToString(r.id);
      var acquired := AcquireLock(locks, name, false);
      if acquired {
        var error: Option<string> := None;
        if now - r.createTime > TenMinutes {
          ReleaseLock(locks, name);
          error := Some("timeout");
        } else if r.filepath == "" || !files.Exists(r.filepath) {
          ReleaseLock(locks, name);
          error := Some(MissingFileMessage(r));
        } else {
          var outcome := submit(r.id, Exclusion(r.review));
          match outcome
          case Raised(m) =>
            error := Some(m);
          case Got(None) =>
          case Got(Some(aid)) =>
            table.SetAssignmentId(i, aid);
            var _ := table.MarkAnalysing(i);
        }
        if error.Some? {
          table.SetReview(i, AppendLog(r.review, error.value));
        }
      }
      ReleaseLock(locks, name);
    }
  }

  /** `_upload_to_turnitin_task`; `submit` stands for the client's
      `initialize` and `submit` together. */
  method UploadToTurnitin(table: SubmissionTable, locks: LockStore, files: FileStore, now: int, submit: Submitter)
    modifies table`rows, locks
    ensures var st := UploadSweep(old(table.rows), old(locks.keys), now, files.files, submit, |old(table.rows)|);
            table.rows == st.rows && locks.keys == st.locks
  {
    ghost var vs := table.rows;
    ghost var L := locks.keys;
    ghost var st := UploadSweep(vs, L, now, files.files, submit, 0);
    var n := |table.rows|;
    for i := 0 to n
      invariant |table.rows| == |vs| == n
      invariant st == UploadSweep(vs, L, now, files.files, submit, i)
      invariant table.rows == st.rows + vs[i..]
      invariant locks.keys == st.locks
    {
      UploadVisit(table, i, locks, files, now, submit);
      SplitUpdate(st.rows, vs[i..], UploadVisitEffect(vs[i], st.locks, now, files.files, submit));
      assert vs[i..][1..] == vs[i + 1..];
      st := UploadNext(st, vs[i], now, files.files, submit);
    }
  }

  // ---------------------------------------------------------------------
  // failed_task

  /** The lock name of a record in `failed_task`. */
  function FailedKey(r: Row): string {
    LockKey(NatToString(r.id) + FailedSuffix)
  }

  /** The records `failed_task` selects. */
  predicate FailCandidate(r: Row) {
    r.status == Submitted || r.status == Analysing
  }

  /** Record `r` is failed when the keys `held` are set: it is selected,
      its key is free and more than fifteen minutes have passed. */
  predicate FailsAt(r: Row, held: set<string>, now: int) {
    FailCandidate(r) && FailedKey(r) !in held && now - r.createTime > FifteenMinutes
  }

  /** The state of `failed_task` part-way: the rows and counters it has
      written inside its transaction, the keys set, and whether a missing
      `WebUser` has ended it. */
  datatype FailState = FailState(rows: seq<Row>, locks: set<string>, counts: map<string, int>, crashed: bool)

  /** One record of `failed_task`. A skipped record keeps the other
      worker's key (there is no `finally`); a record with no owner among
      the users raises `DoesNotExist` after it was marked, before its key
      is released. */
  function FailedNext(st: FailState, r: Row, now: int): FailState {
    if st.crashed then st.(rows := st.rows + [r])
    else
      var k := FailedKey(r);
      var fails := FailsAt(r, st.locks, now);
      var crash := fails && r.uid !in st.counts;
      FailState(st.rows + [if fails then r.(status := Failed) else r],
                if crash then st.locks + {k}
                else if FailCandidate(r) && k !in st.locks then st.locks + {k} - {k}
                else st.locks,
                if fails && !crash then st.counts[r.uid := st.counts[r.uid] + 1] else st.counts,
                crash)
  }

  /** `failed_task` up to (not including) row `i`. */
  function FailedSweep(rows: seq<Row>, locks: set<string>, counts: map<string, int>, now: int, i: nat): (st: FailState)
    requires i <= |rows|
    ensures |st.rows| == i
    decreases i
  {
    if i == 0 then FailState([], locks, counts, false)
    else FailedNext(FailedSweep(rows, locks, counts, now, i - 1), rows[i - 1], now)
  }

  lemma FailedSweepNext(rows: seq<Row>, locks: set<string>, counts: map<string, int>, now: int, i: nat)
    requires i < |rows|
    ensures FailedSweep(rows, locks, counts, now, i + 1) == FailedNext(FailedSweep(rows, locks, counts, now, i), rows[i], now)
  {
  }

  /** The first row at which the sweep meets a failed record whose owner
      is not a user, if any. `FailsAt` is evaluated against the keys as
      they were, since every earlier key was released. */
  function FirstCrash(rows: seq<Row>, locks: set<string>, users: set<string>, now: int, i: nat): (c: Option<nat>)
    requires i <= |rows|
    ensures c.Some? ==> c.value < i && FailsAt(rows[c.value], locks, now) && rows[c.value].uid !in users
    ensures c.Some? ==> forall j | 0 <= j < c.value :: !(FailsAt(rows[j], locks, now) && rows[j].uid !in users)
    ensures c.None? ==> forall j | 0 <= j < i :: !(FailsAt(rows[j], locks, now) && rows[j].uid !in users)
    decreases i
  {
    if i == 0 then None
    else match FirstCrash(rows, locks, users, now, i - 1)
      case Some(c) => Some(c)
      case None => if FailsAt(rows[i - 1], locks, now) && rows[i - 1].uid !in users then Some(i - 1) else None
  }

  /** Every record among the first `i` that the sweep fails has an owner
      among `users`. */
  predicate NoOrphans(rows: seq<Row>, locks: set<string>, users: set<string>, now: int, i: nat)
    requires i <= |rows|
  {
    forall j | 0 <= j < i :: FailsAt(rows[j], locks, now) ==> rows[j].uid in users
  }

  /** The number of records among the first `i` that the sweep fails and
      that belong to user `u`: the uses refunded to that user. */
  function Refunds(rows: seq<Row>, locks: set<string>, now: int, i: nat, u: string): nat
    requires i <= |rows|
    decreases i
  {
    if i == 0 then 0
    else Refunds(rows, locks, now, i - 1, u) + (if FailsAt(rows[i - 1], locks, now) && rows[i - 1].uid == u then 1 else 0)
  }

  /** A missing owner stops `failed_task` exactly at the first failed
      record without one, and leaves that record's key set; until then
      the keys are as they were, since each key taken is released. */
  lemma {:induction false} FailedSweepLocks(rows: seq<Row>, locks: set<string>, counts: map<string, int>, now: int, i: nat)
    requires i <= |rows|
    ensures var st := FailedSweep(rows, locks, counts, now, i);
            var c := FirstCrash(rows, locks, counts.Keys, now, i);
            && st.crashed == c.Some?
            && st.locks == (if c.Some? then locks + {FailedKey(rows[c.value])} else locks)
            && st.counts.Keys == counts.Keys
    decreases i, 1
  {
    if i > 0 {
      FailedSweepLocksStep(rows, locks, counts, now, i);
    }
  }

  lemma {:induction false} FailedSweepLocksStep(rows: seq<Row>, locks: set<string>, counts: map<string, int>, now: int, i: nat)
    requires 0 < i <= |rows|
    ensures var st := FailedSweep(rows, locks, counts, now, i);
            var c := FirstCrash(rows, locks, counts.Keys, now, i);
            && st.crashed == c.Some?
            && st.locks == (if c.Some? then locks + {FailedKey(rows[c.value])} else locks)
            && st.counts.Keys == counts.Keys
    decreases i, 0
  {
    FailedSweepLocks(rows, locks, counts, now, i - 1);
    var prev := FailedSweep(rows, locks, counts, now, i - 1);
    if !prev.crashed {
      FailedNextKeeps(prev, rows[i - 1], locks, counts.Keys, now);
    }
  }

  /** A record visited while the keys are as they were either stops the
      sweep, leaving its own key set, or leaves the keys as they were. */
  lemma FailedNextKeeps(prev: FailState, r: Row, locks: set<string>, keys: set<string>, now: int)
    requires !prev.crashed && prev.locks == locks && prev.counts.Keys == keys
    ensures var st := FailedNext(prev, r, now);
            && st.crashed == (FailsAt(r, locks, now) && r.uid !in keys)
            && st.locks == (if st.crashed then locks + {FailedKey(r)} else locks)
            && st.counts.Keys == keys
  {
    var k := FailedKey(r);
    if FailCandidate(r) && k !in locks {
      assert locks + {k} - {k} == locks;
    }
  }

  /** When no owner is missing, every user gains one use per record of
      theirs that the sweep fails. */
  lemma {:induction false} FailedSweepCounts(rows: seq<Row>, locks: set<string>, counts: map<string, int>, now: int,
                                            i: nat, u: string)
    requires i <= |rows| && u in counts
    requires NoOrphans(rows, locks, counts.Keys, now, i)
    ensures u in FailedSweep(rows, locks, counts, now, i).counts
    ensures FailedSweep(rows, locks, counts, now, i).counts[u] == counts[u] + Refunds(rows, locks, now, i, u)
    decreases i, 1
  {
    if i > 0 {
      FailedSweepCountsStep(rows, locks, counts, now, i, u);
    }
  }

  lemma {:induction false} FailedSweepCountsStep(rows: seq<Row>, locks: set<string>, counts: map<string, int>, now: int,
                                                i: nat, u: string)
    requires 0 < i <= |rows| && u in counts
    requires NoOrphans(rows, locks, counts.Keys, now, i)
    ensures u in FailedSweep(rows, locks, counts, now, i).counts
    ensures FailedSweep(rows, locks, counts, now, i).counts[u] == counts[u] + Refunds(rows, locks, now, i, u)
    decreases i, 0
  {
    FailedSweepLocks(rows, locks, counts, now, i - 1);
    FailedSweepCounts(rows, locks, counts, now, i - 1, u);
    FailedNextCounts(FailedSweep(rows, locks, counts, now, i - 1), rows[i - 1], locks, now, u);
  }

  /** A record visited while the keys are as they were, whose owner is a
      user if it fails, adds one use to that owner and none to anyone
      else. */
  lemma FailedNextCounts(prev: FailState, r: Row, locks: set<string>, now: int, u: string)
    requires !prev.crashed && prev.locks == locks && u in prev.counts
    requires FailsAt(r, locks, now) ==> r.uid in prev.counts
    ensures var st := FailedNext(prev, r, now);
            && !st.crashed
            && u in st.counts
            && st.counts[u] == prev.counts[u] + (if FailsAt(r, locks, now) && r.uid == u then 1 else 0)
  {
  }

  /** When no owner is missing, the sweep marks exactly the records whose
      key was free and that are older than fifteen minutes as FAILED and
      leaves every other row alone. */
  lemma {:induction false} FailedSweepRows(rows: seq<Row>, locks: set<string>, counts: map<string, int>, now: int,
                                          i: nat, j: nat)
    requires j < i <= |rows|
    requires NoOrphans(rows, locks, counts.Keys, now, i)
    ensures FailedSweep(rows, locks, counts, now, i).rows[j] ==
              if FailsAt(rows[j], locks, now) then rows[j].(status := Failed) else rows[j]
    decreases i
  {
    FailedSweepLocks(rows, locks, counts, now, i - 1);
    if j < i - 1 {
      FailedSweepRows(rows, locks, counts, now, i - 1, j);
    }
  }

  /** One iteration of `failed_task`; `crash` is true when the owner's
      `WebUser` does not exist. */
  method FailedVisit(table: SubmissionTable, i: nat, locks: LockStore, accounts: Accounts, now: int)
    returns (crash: bool)
    requires i < |table.rows|
    modifies table`rows, locks, accounts
    ensures var r := old(table.rows[i]);
            var k := FailedKey(r);
            var fails := FailsAt(r, old(locks.keys), now);
            && crash == (fails && r.uid !in old(accounts.availableCnt))
            && table.rows == old(table.rows)[i := if fails then r.(status := Failed) else r]
            && locks.keys == (if crash then old(locks.keys) + {k}
                              else if FailCandidate(r) && k !in old(locks.keys) then old(locks.keys) + {k} - {k}
                              else old(locks.keys))
            && accounts.availableCnt == (if fails && !crash
                                         then old(accounts.availableCnt)[r.uid := old(accounts.availableCnt)[r.uid] + 1]
                                         else old(accounts.availableCnt))
  {
    var r := table.rows[i];
    assert table.rows == table.rows[i := r];
    crash := false;
    if FailCandidate(r) {
      var name := NatToString(r.id) + FailedSuffix;
      var acquired := AcquireLock(locks, name, false);
      if acquired {
        if now - r.createTime > FifteenMinutes {
          var _ := table.MarkFailed(i);
          if r.uid !in accounts.availableCnt {
            crash := true;
            return;
          }
          accounts.Add(r.uid, 1);
        }
        ReleaseLock(locks, name);
      }
    }
  }

  /** `failed_task`. It runs in one transaction: when it raises, every
      row and counter it wrote is rolled back, while the keys in Redis
      stay as they are. */
  method FailedTask(table: SubmissionTable, locks: LockStore, accounts: Accounts, now: int) returns (crashed: bool)
    modifies table`rows, locks, accounts
    ensures var st := FailedSweep(old(table.rows), old(locks.keys), old(accounts.availableCnt), now, |old(table.rows)|);
            && crashed == st.crashed
            && locks.keys == st.locks
            && (if crashed then table.rows == old(table.rows) && accounts.availableCnt == old(accounts.availableCnt)
                else table.rows == st.rows && accounts.availableCnt == st.counts)
  {
    var savedRows := table.rows;
    var savedCounts := accounts.availableCnt;
    ghost var L := locks.keys;
    ghost var st := FailedSweep(savedRows, L, savedCounts, now, 0);
    var n := |table.rows|;
    crashed := false;
    var i := 0;
    while i < n && !crashed
      invariant 0 <= i <= n == |savedRows| == |table.rows|
      invariant st == FailedSweep(savedRows, L, savedCounts, now, i)
      invariant crashed == st.crashed
      invariant table.rows == st.rows + savedRows[i..]
      invariant locks.keys == st.locks
      invariant !crashed ==> accounts.availableCnt == st.counts
    {
      var r := savedRows[i];
      crashed := FailedVisit(table, i, locks, accounts, now);
      SplitUpdate(st.rows, savedRows[i..], if FailsAt(r, st.locks, now) then r.(status := Failed) else r);
      assert savedRows[i..][1..] == savedRows[i + 1..];
      FailedSweepNext(savedRows, L, savedCounts, now, i);
      st := FailedNext(st, r, now);
      i := i + 1;
    }
    FailedSweepFrom(savedRows, L, savedCounts, now, i, n);
    if crashed {
      table.rows := savedRows;
      accounts.availableCnt := savedCounts;
    }
  }

  /** Once the sweep has stopped, the remaining rows change nothing but
      the rows it has not written anyway. */
  lemma {:induction false} FailedSweepFrom(rows: seq<Row>, locks: set<string>, counts: map<string, int>, now: int, i: nat, n: nat)
    requires i <= n <= |rows|
    requires FailedSweep(rows, locks, counts, now, i).crashed || i == n
    ensures FailedSweep(rows, locks, counts, now, n).crashed == FailedSweep(rows, locks, counts, now, i).crashed
    ensures FailedSweep(rows, locks, counts, now, n).locks == FailedSweep(rows, locks, counts, now, i).locks
    decreases n - i
  {
    if i < n {
      FailedSweepFrom(rows, locks, counts, now, i, n - 1);
    }
  }

  // ---------------------------------------------------------------------
  // The shared key space

  /** The keys of `failed_task` never meet those of
      `_upload_to_turnitin_task`: the former end in "_to_failed", the
      latter in a digit. */
  lemma FailedKeyNotUploadKey(r: Row, s: Row)
    ensures FailedKey(r) != UploadKey(s)
  {
    var a := NatToString(r.id) + FailedSuffix;
    var t := NatToString(s.id);
    assert a[|a| - 1] == 'd';
    assert IsDigit(t[|t| - 1]);
    LockKeyInjective(a, t);
  }

  /** The download sweep locks a Turnitin slot id and the upload sweep a
      primary key, in the same key space: they meet exactly when a slot
      id is the decimal text of a primary key. */
  lemma UploadKeyMeetsDownloadKey(r: Row, s: Row)
    ensures UploadKey(r) == DownloadKey(s) <==> s.assignmentId == NatToString(r.id)
  {
    LockKeyInjective(NatToString(r.id), s.assignmentId);
  }
}
