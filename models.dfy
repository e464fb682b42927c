/** The records of api/models.py that the core reads and writes: the
    submission lifecycle of `WebUserAssignments` (a guarded state machine
    declared with django-fsm transitions), the submission table, the
    assignment slots of `WebAssignments` with their upload counter, and the
    remaining-use counter of `WebUser`. */
module Models {
  import opened Wrappers

  // ---------------------------------------------------------------------
  // The lifecycle of a submission

  /** `WebUserAssignments.Status` */
  datatype Status = Submitted | Analysing | Graded | Downloaded | Deleted | Failed

  /** The six `@transition` methods of `WebUserAssignments`. */
  datatype Transition =
    | Submit
    | BlockFailedTransitions
    | MarkDelete
    | MarkAnalysing
    | MarkDownloaded
    | MarkFailed

  /** A declared `target`: one state, or the wildcard '*'. */
  datatype TargetSpec = To(state: Status) | AnyState

  /** The declared `source` of each transition; '*' is every state. */
  function Sources(t: Transition): set<Status> {
    match t
    case Submit => {Submitted, Analysing, Graded, Downloaded, Deleted, Failed}
    case BlockFailedTransitions => {Failed}
    case MarkDelete => {Submitted, Analysing, Downloaded, Failed}
    case MarkAnalysing => {Submitted}
    case MarkDownloaded => {Analysing}
    case MarkFailed => {Submitted, Analysing}
  }

  /** The declared `target` of each transition. */
  function Target(t: Transition): TargetSpec {
    match t
    case Submit => To(Submitted)
    case BlockFailedTransitions => AnyState
    case MarkDelete => To(Deleted)
    case MarkAnalysing => To(Analysing)
    case MarkDownloaded => To(Downloaded)
    case MarkFailed => To(Failed)
  }

  /** The declared `conditions`: `submit` and `block_failed_transitions`
      carry `lambda self: False`, the others carry none. */
  predicate Condition(t: Transition) {
    t != Submit && t != BlockFailedTransitions
  }

  /** What calling transition `t` in state `s` does: the new state, or
      `None` when django-fsm raises `TransitionNotAllowed` (the source set
      does not hold `s`, or a condition is false). */
  function Fire(s: Status, t: Transition): Option<Status> {
    if s in Sources(t) && Condition(t) && Target(t).To? then Some(Target(t).state) else None
  }

  /** The lifecycle edges: SUBMITTED -> ANALYSING -> DOWNLOADED, either of
      the first two -> FAILED, and every state but GRADED and DELETED ->
      DELETED. */
  predicate Edge(from: Status, to: Status) {
    || (from == Submitted && to == Analysing)
    || (from == Analysing && to == Downloaded)
    || (from == Submitted && to == Failed)
    || (from == Analysing && to == Failed)
    || (from in {Submitted, Analysing, Downloaded, Failed} && to == Deleted)
  }

  /** The declared table allows only lifecycle edges (FAILED ->
      DELETED included: the always-false `block_failed_transitions` never
      fires), and the two conditioned transitions never fire. */
  lemma FireFollowsEdges(s: Status, t: Transition)
    ensures Fire(s, t).Some? ==> Edge(s, Fire(s, t).value)
    ensures t == Submit || t == BlockFailedTransitions ==> Fire(s, t).None?
  {
  }

  lemma EdgeHasTransition(from: Status, to: Status)
    requires Edge(from, to)
    ensures exists t :: Fire(from, t) == Some(to)
  {
    if to == Analysing {
      assert Fire(from, MarkAnalysing) == Some(to);
    } else if to == Downloaded {
      assert Fire(from, MarkDownloaded) == Some(to);
    } else if to == Failed {
      assert Fire(from, MarkFailed) == Some(to);
    } else {
      assert Fire(from, MarkDelete) == Some(to);
    }
  }

  /** The state after attempting each transition of `ts` in turn; a
      rejected attempt leaves the state as it was. */
  function Run(s: Status, ts: seq<Transition>): Status
    decreases |ts|
  {
    if ts == [] then s
    else
      var next := if Fire(s, ts[0]).Some? then Fire(s, ts[0]).value else s;
      Run(next, ts[1..])
  }

  /** No transition leads into GRADED. */
  lemma {:induction false} NeverGraded(s: Status, ts: seq<Transition>)
    requires s != Graded
    ensures Run(s, ts) != Graded
    decreases |ts|
  {
    if ts != [] {
      var next := if Fire(s, ts[0]).Some? then Fire(s, ts[0]).value else s;
      NeverGraded(next, ts[1..]);
    }
  }

  /** DELETED is terminal. */
  lemma {:induction false} DeletedIsTerminal(ts: seq<Transition>)
    ensures Run(Deleted, ts) == Deleted
    decreases |ts|
  {
    if ts != [] {
      DeletedIsTerminal(ts[1..]);
    }
  }

  /** Once a record has left SUBMITTED it never comes back to it. */
  lemma {:induction false} NeverResubmitted(s: Status, ts: seq<Transition>)
    requires s != Submitted
    ensures Run(s, ts) != Submitted
    decreases |ts|
  {
    if ts != [] {
      var next := if Fire(s, ts[0]).Some? then Fire(s, ts[0]).value else s;
      NeverResubmitted(next, ts[1..]);
    }
  }

  /** From FAILED the only way out is DELETED. */
  lemma {:induction false} FailedOnlyToDeleted(ts: seq<Transition>)
    ensures Run(Failed, ts) in {Failed, Deleted}
    decreases |ts|
  {
    if ts != [] {
      if Fire(Failed, ts[0]).Some? {
        assert Fire(Failed, ts[0]) == Some(Deleted);
        DeletedIsTerminal(ts[1..]);
      } else {
        FailedOnlyToDeleted(ts[1..]);
      }
    }
  }

  // ---------------------------------------------------------------------
  // A submission record

  /** A `WebUserAssignments` row. `filepath` "" stands for NULL and
      `createTime` is in seconds. */
  datatype Row = Row(
    id: nat,
    userId: string,
    uid: string,
    filename: string,
    title: string,
    originTitle: string,
    filepath: string,
    createTime: int,
    status: Status,
    assignmentId: string,
    review: Option<string>)

  /** The index of the row with primary key `id`. */
  function FindRow(rows: seq<Row>, id: nat): (r: Option<nat>)
    ensures r.Some? ==> r.value < |rows| && rows[r.value].id == id
    ensures r.None? ==> forall k | 0 <= k < |rows| :: rows[k].id != id
    decreases |rows|
  {
    if rows == [] then None
    else if rows[|rows| - 1].id == id then Some(|rows| - 1)
    else FindRow(rows[..|rows| - 1], id)
  }

  /** Primary keys are unique and below the next key to hand out. */
  ghost predicate KeysValid(rows: seq<Row>, nextId: nat) {
    && (forall i, j | 0 <= i < j < |rows| :: rows[i].id != rows[j].id)
    && (forall i | 0 <= i < |rows| :: rows[i].id < nextId)
  }

  /** The `web_user_assignments` table. A model instance fetched from it,
      changed by one of its `@transition` methods (or by a plain field
      assignment) and saved, is an operation on one row here. `status` is
      changed by the transition methods only (the field is
      `protected=True`). */
  class SubmissionTable {
    var rows: seq<Row>
    var nextId: nat

    ghost predicate Valid()
      reads this
    {
      KeysValid(rows, nextId)
    }

    constructor ()
      ensures Valid() && rows == [] && nextId == 1
    {
      rows := [];
      nextId := 1;
    }

    /** `WebUserAssignments.objects.create(...)`: a new record gets the
        next primary key, starts in SUBMITTED and has no log. */
    method Create(userId: string, uid: string, filename: string, title: string,
                  originTitle: string, filepath: string, createTime: int, assignmentId: string)
      returns (id: nat)
      requires Valid()
      modifies this
      ensures Valid()
      ensures id == old(nextId) && nextId == old(nextId) + 1
      ensures rows == old(rows) + [Row(id, userId, uid, filename, title, originTitle, filepath, createTime,
                                       Submitted, assignmentId, None)]
    {
      id := nextId;
      rows := rows + [Row(id, userId, uid, filename, title, originTitle, filepath, createTime,
                          Submitted, assignmentId, None)];
      nextId := nextId + 1;
    }

    /** Calls transition `t` on row `i` and saves it: `ok` is false when
        django-fsm raises `TransitionNotAllowed`, and then nothing
        changes. */
    method Apply(i: nat, t: Transition) returns (ok: bool)
      requires i < |rows|
      modifies this`rows
      ensures ok == Fire(old(rows[i].status), t).Some?
      ensures rows == old(rows)[i := if ok then old(rows[i]).(status := Fire(old(rows[i].status), t).value)
                                     else old(rows[i])]
    {
      var next := Fire(rows[i].status, t);
      ok := next.Some?;
      if ok {
        rows := rows[i := rows[i].(status := next.value)];
      } else {
        assert rows == rows[i := rows[i]];
      }
    }

    /** `submit`: its condition is False, so it never succeeds. */
    method Submit(i: nat) returns (ok: bool)
      requires i < |rows|
      modifies this`rows
      ensures !ok && rows == old(rows)
    {
      ok := Apply(i, Transition.Submit);
    }

    /** `block_failed_transitions`: its condition is False, so it never
        succeeds. */
    method BlockFailedTransitions(i: nat) returns (ok: bool)
      requires i < |rows|
      modifies this`rows
      ensures !ok && rows == old(rows)
    {
      ok := Apply(i, Transition.BlockFailedTransitions);
    }

    /** `mark_delete`: allowed from SUBMITTED, ANALYSING, DOWNLOADED and FAILED. */
    method MarkDelete(i: nat) returns (ok: bool)
      requires i < |rows|
      modifies this`rows
      ensures ok <==> old(rows[i].status) in {Submitted, Analysing, Downloaded, Failed}
      ensures rows == if ok then old(rows)[i := old(rows[i]).(status := Deleted)] else old(rows)
    {
      ok := Apply(i, Transition.MarkDelete);
    }

    /** `mark_analysising`: allowed only from SUBMITTED. */
    method MarkAnalysing(i: nat) returns (ok: bool)
      requires i < |rows|
      modifies this`rows
      ensures ok <==> old(rows[i].status) == Submitted
      ensures rows == if ok then old(rows)[i := old(rows[i]).(status := Analysing)] else old(rows)
    {
      ok := Apply(i, Transition.MarkAnalysing);
    }

    /** `mark_downloaded`: allowed only from ANALYSING. */
    method MarkDownloaded(i: nat) returns (ok: bool)
      requires i < |rows|
      modifies this`rows
      ensures ok <==> old(rows[i].status) == Analysing
      ensures rows == if ok then old(rows)[i := old(rows[i]).(status := Downloaded)] else old(rows)
    {
      ok := Apply(i, Transition.MarkDownloaded);
    }

    /** `mark_failed`: allowed only from SUBMITTED and ANALYSING. */
    method MarkFailed(i: nat) returns (ok: bool)
      requires i < |rows|
      modifies this`rows
      ensures ok <==> old(rows[i].status) in {Submitted, Analysing}
      ensures rows == if ok then old(rows)[i := old(rows[i]).(status := Failed)] else old(rows)
    {
      ok := Apply(i, Transition.MarkFailed);
    }

    /** `assignment_id = aid; save()` */
    method SetAssignmentId(i: nat, aid: string)
      requires i < |rows|
      modifies this`rows
      ensures rows == old(rows)[i := old(rows[i]).(assignmentId := aid)]
    {
      rows := rows[i := rows[i].(assignmentId := aid)];
    }

    /** `review = text; save()` */
    method SetReview(i: nat, review: Option<string>)
      requires i < |rows|
      modifies this`rows
      ensures rows == old(rows)[i := old(rows[i]).(review := review)]
    {
      rows := rows[i := rows[i].(review := review)];
    }
  }

  // ---------------------------------------------------------------------
  // Assignment slots and user accounts

  /** `WebAssignments.Status` */
  datatype SlotStatus = Available | SlotDeleted

  datatype SlotRecord = SlotRecord(status: SlotStatus, uploadCount: int)

  /** The ids of the AVAILABLE slots. */
  function AvailableSlots(slots: map<string, SlotRecord>): set<string> {
    set a | a in slots && slots[a].status == Available
  }

  /** The table after one more upload to the slot `aid`. */
  function Counted(slots: map<string, SlotRecord>, aid: string): (r: map<string, SlotRecord>)
    requires aid in slots
    ensures r.Keys == slots.Keys
    ensures r[aid] == SlotRecord(slots[aid].status, slots[aid].uploadCount + 1)
    ensures forall a | a in slots && a != aid :: r[a] == slots[a]
  {
    slots[aid := slots[aid].(uploadCount := slots[aid].uploadCount + 1)]
  }

  /** The `web_assignments` table, keyed by its unique `assignment_id`. */
  class SlotTable {
    var slots: map<string, SlotRecord>

    constructor ()
      ensures slots == map[]
    {
      slots := map[];
    }

    /** `WebAssignments.objects.create(assignment_id=aid, status=AVAILABLE,
        upload_count=0)`; fails (an IntegrityError) when the id exists. */
    method Create(aid: string) returns (ok: bool)
      modifies this
      ensures ok <==> aid !in old(slots)
      ensures slots == if ok then old(slots)[aid := SlotRecord(Available, 0)] else old(slots)
    {
      ok := aid !in slots;
      if ok {
        slots := slots[aid := SlotRecord(Available, 0)];
      }
    }

    /** `increment_upload_count`, and the `F('upload_count') + 1` update of
        the client: adds exactly one to the slot's count and changes
        nothing else; fails (DoesNotExist) when there is no such slot. */
    method IncrementUploadCount(aid: string) returns (ok: bool)
      modifies this
      ensures ok <==> aid in old(slots)
      ensures ok ==> slots == Counted(old(slots), aid)
      ensures !ok ==> slots == old(slots)
    {
      ok := aid in slots;
      if ok {
        slots := Counted(slots, aid);
      }
    }
  }

  /** `WebUser.available_cnt`, keyed by the user's `uid`. */
  class Accounts {
    var availableCnt: map<string, int>

    constructor (counts: map<string, int>)
      ensures availableCnt == counts
    {
      availableCnt := counts;
    }

    /** `web_user.available_cnt += delta; web_user.save()` */
    method Add(uid: string, delta: int)
      requires uid in availableCnt
      modifies this
      ensures availableCnt == Adjusted(old(availableCnt), uid, delta)
    {
      availableCnt := Adjusted(availableCnt, uid, delta);
    }
  }

  /** The counts after `delta` is added to the count of `uid` alone. */
  function Adjusted(counts: map<string, int>, uid: string, delta: int): (r: map<string, int>)
    requires uid in counts
    ensures r.Keys == counts.Keys
    ensures r[uid] == counts[uid] + delta
    ensures forall u | u in counts && u != uid :: r[u] == counts[u]
  {
    counts[uid := counts[uid] + delta]
  }
}
