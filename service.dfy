/** The parts of the Turnitin client that read or write the slot table
    (`web_assignments`): the class list, the reconciliation of the slots
    found online with the local ones, the lookup of the paper in a slot,
    `submit` (choice of the least-used slot, upload, name check, count
    increment) and the two report downloads. The client's `class_name` and
    `cookies`, which `initialize` sets, are parameters; every answer from
    Turnitin is an input, as in `ServiceProtocol`. */
module Service {
  import opened Wrappers
  import opened Text
  import opened Models
  import opened Stores
  import opened ServiceProtocol

  const Host: string := "https://www.turnitin.com"

  // ---------------------------------------------------------------------
  // get_classes

  /** One `td.class_name a` element of the home page. */
  datatype Anchor = Anchor(text: string, href: string)

  /** One entry of the class list. */
  datatype ClassLink = ClassLink(title: string, url: string)

  const ClassesFailure: string := "获取课程失败: HTTP "

  /** The comprehension of `get_classes`: the anchors whose stripped text
      is the class name, in page order. */
  function ClassesMatching(anchors: seq<Anchor>, className: string): (r: seq<ClassLink>)
    ensures |r| <= |anchors|
    ensures forall k | 0 <= k < |r| :: r[k].title == className
    ensures forall a | a in anchors && Strip(a.text) == className :: ClassLink(className, Host + a.href) in r
    ensures forall c | c in r :: exists a | a in anchors :: Strip(a.text) == className && c.url == Host + a.href
    decreases |anchors|
  {
    if anchors == [] then []
    else
      var rest := ClassesMatching(anchors[1..], className);
      assert forall a | a in anchors[1..] :: a in anchors;
      if Strip(anchors[0].text) == className then [ClassLink(className, Host + anchors[0].href)] + rest
      else rest
  }

  /** The filter keeps page order: it distributes over concatenation. */
  lemma {:induction false} ClassesInOrder(a: seq<Anchor>, b: seq<Anchor>, className: string)
    ensures ClassesMatching(a + b, className) == ClassesMatching(a, className) + ClassesMatching(b, className)
    decreases |a|
  {
    if a == [] {
      assert a + b == b;
    } else {
      assert (a + b)[1..] == a[1..] + b;
      ClassesInOrder(a[1..], b, className);
    }
  }

  /** `get_classes`; `home` is the parsed home page, or the status of the
      failed request. */
  function GetClasses(home: Fetch<seq<Anchor>>, className: string): Result<seq<ClassLink>, string> {
    match home
    case Raised(status) => Err(ClassesFailure + status)
    case Got(anchors) => Ok(ClassesMatching(anchors, className))
  }

  // ---------------------------------------------------------------------
  // The class id in a class url: re.search(r'/class/(\d+)/', url).group(1)

  const ClassMarker: string := "/class/"

  /** The length of the run of digits that starts `s`. */
  function LeadingDigits(s: string): (n: nat)
    ensures n <= |s| && AllDigits(s[..n])
    ensures n < |s| ==> !IsDigit(s[n])
    decreases |s|
  {
    if s != [] && IsDigit(s[0]) then
      var n := 1 + LeadingDigits(s[1..]);
      assert forall k | 1 <= k < n :: s[..n][k] == s[1..][..n - 1][k - 1];
      n
    else 0
  }

  /** The group of a match of `/class/(\d+)/` that starts at the start of
      `s`: a maximal run of digits, since a shorter one is followed by a
      digit and not by '/'. */
  function ClassIdAt(s: string): Option<string> {
    if !StartsWith(s, ClassMarker) then None
    else
      var n := LeadingDigits(s[|ClassMarker|..]);
      if n > 0 && |ClassMarker| + n < |s| && s[|ClassMarker| + n] == '/' then Some(s[|ClassMarker|..|ClassMarker| + n])
      else None
  }

  /** The leftmost match. */
  function ClassId(s: string): (r: Option<string>)
    ensures r.Some? ==> r.value != [] && AllDigits(r.value)
    ensures r.Some? ==> exists i | 0 <= i <= |s| :: ClassIdAt(s[i..]) == r && forall j | 0 <= j < i :: ClassIdAt(s[j..]).None?
    ensures r.None? ==> forall i | 0 <= i <= |s| :: ClassIdAt(s[i..]).None?
    decreases |s|
  {
    assert s[0..] == s;
    match ClassIdAt(s)
    case Some(d) =>
      assert s[|ClassMarker|..][..|d|] == d;
      Some(d)
    case None =>
      if s == [] then None
      else
        var r := ClassId(s[1..]);
        assert forall i | 1 <= i <= |s| :: s[i..] == s[1..][i - 1..];
        r
  }

  lemma {:induction false} LeadingDigitsOf(d: string, t: string)
    requires AllDigits(d) && (t == [] || !IsDigit(t[0]))
    ensures LeadingDigits(d + t) == |d|
    decreases |d|
  {
    if d == [] {
      assert d + t == t;
    } else {
      assert (d + t)[1..] == d[1..] + t;
      LeadingDigitsOf(d[1..], t);
    }
  }

  /** A url whose path starts with `/class/<digits>/` gives those digits. */
  lemma ClassIdOfPath(digits: string, rest: string)
    requires digits != [] && AllDigits(digits)
    ensures ClassId(ClassMarker + digits + "/" + rest) == Some(digits)
  {
    var s := ClassMarker + digits + "/" + rest;
    assert s[..|ClassMarker|] == ClassMarker;
    assert s[|ClassMarker|..] == digits + ("/" + rest);
    LeadingDigitsOf(digits, "/" + rest);
    assert s[|ClassMarker| + |digits|] == '/';
    assert s[|ClassMarker|..|ClassMarker| + |digits|] == digits;
  }

  // ---------------------------------------------------------------------
  // get_assignments

  const AssignmentsFailure: string := "获取作业失败: "
  const NoPorts: string := "未找到有效作业端口"
  /** The text of the `AttributeError` of `.group(1)` on a failed search. */
  const NoClassId: string := "'NoneType' object has no attribute 'group'"
  /** Stand for the texts of the `IntegrityError` (the id is taken) and
      `DoesNotExist` errors of the database. */
  const SlotTaken: string := "IntegrityError"
  const NoSuchSlot: string := "WebAssignments matching query does not exist."
  const InboxPrefix: string := "view_inbox_"

  /** One entry of the slot list. */
  datatype SlotLink = SlotLink(aid: string, title: string, submissionLink: string, uploadCount: int)

  function LinkOf(port: string, classUrl: string, count: int): SlotLink {
    SlotLink(port, "Assignment " + port, classUrl + "&port=" + port, count)
  }

  /** `online_ports`: for each `tr.assgn-row` that holds an inbox anchor
      (its `id`, or None), the id with `view_inbox_` removed. */
  function Ports(anchors: seq<Option<string>>): (r: seq<string>)
    ensures |r| <= |anchors|
    ensures forall a | a in anchors && a.Some? :: RemoveAll(a.value, InboxPrefix) in r
    ensures forall p | p in r :: exists a | a in anchors && a.Some? :: p == RemoveAll(a.value, InboxPrefix)
    decreases |anchors|
  {
    if anchors == [] then []
    else (if anchors[0].Some? then [RemoveAll(anchors[0].value, InboxPrefix)] else []) + Ports(anchors[1..])
  }

  /** The slot table, the list built so far, and the error that ended the
      loop, if one did. */
  datatype Reconciling = Reconciling(slots: map<string, SlotRecord>, result: seq<SlotLink>, error: Option<string>)

  /** One online slot id: created with count 0 when it is not among the
      AVAILABLE ids read before the loop (`local`), read back otherwise. */
  function ReconcileNext(st: Reconciling, port: string, local: set<string>, classUrl: string): Reconciling {
    if st.error.Some? then st
    else if port !in local then
      if port in st.slots then st.(error := Some(SlotTaken))
      else Reconciling(st.slots[port := SlotRecord(Available, 0)], st.result + [LinkOf(port, classUrl, 0)], None)
    else if port in st.slots then st.(result := st.result + [LinkOf(port, classUrl, st.slots[port].uploadCount)])
    else st.(error := Some(NoSuchSlot))
  }

  /** The loop of `get_assignments` over the first `i` online ids. */
  function Reconcile(slots: map<string, SlotRecord>, local: set<string>, ports: seq<string>, classUrl: string, i: nat): Reconciling
    requires i <= |ports|
  {
    if i == 0 then Reconciling(slots, [], None)
    else ReconcileNext(Reconcile(slots, local, ports, classUrl, i - 1), ports[i - 1], local, classUrl)
  }

  /** `get_assignments(class_url)` on the slot table `slots`; `inbox` is the
      class page, parsed into its rows' inbox anchors. Slots created before
      an error stay created. */
  function Assignments(slots: map<string, SlotRecord>, classUrl: string, inbox: Fetch<seq<Option<string>>>)
    : (Result<seq<SlotLink>, string>, map<string, SlotRecord>)
  {
    if ClassId(classUrl).None? then (Err(AssignmentsFailure + NoClassId), slots)
    else match inbox
      case Raised(e) => (Err(AssignmentsFailure + e), slots)
      case Got(rows) =>
        var ports := Ports(rows);
        if ports == [] then (Err(AssignmentsFailure + NoPorts), slots)
        else
          var st := Reconcile(slots, AvailableSlots(slots), ports, classUrl, |ports|);
          (if st.error.Some? then Err(AssignmentsFailure + st.error.value) else Ok(st.result), st.slots)
  }

  /** An online id that makes the loop fail: it is not among the AVAILABLE
      ids and it is already in the table, or was created earlier in the
      loop. */
  predicate Clash(slots: map<string, SlotRecord>, local: set<string>, ports: seq<string>, k: nat)
    requires k < |ports|
  {
    ports[k] !in local && (ports[k] in slots || ports[k] in ports[..k])
  }

  /** The reconciliation never touches a slot that exists, and the slots it
      adds are AVAILABLE with count 0, for online ids that were not among
      the AVAILABLE ones; without an error, every online id has a slot. */
  lemma {:induction false} ReconcileSlots(slots: map<string, SlotRecord>, local: set<string>, ports: seq<string>, classUrl: string, i: nat)
    requires i <= |ports|
    ensures var st := Reconcile(slots, local, ports, classUrl, i);
      (forall a | a in slots :: a in st.slots && st.slots[a] == slots[a]) &&
      (forall a | a in st.slots && a !in slots :: st.slots[a] == SlotRecord(Available, 0) && a in ports[..i] && a !in local) &&
      (st.error.None? ==> forall k | 0 <= k < i :: ports[k] in st.slots)
  {
    if i > 0 {
      ReconcileSlots(slots, local, ports, classUrl, i - 1);
      var before := Reconcile(slots, local, ports, classUrl, i - 1);
      var st := Reconcile(slots, local, ports, classUrl, i);
      var p := ports[i - 1];
      assert ports[..i] == ports[..i - 1] + [p];
      if before.error.None? && p !in local && p !in before.slots {
        assert st.slots == before.slots[p := SlotRecord(Available, 0)];
      } else {
        assert st.slots == before.slots;
      }
    }
  }

  /** Without an error the list follows the online ids one for one, with
      count 0 for the ids that were created and the stored count for the
      others. */
  lemma {:induction false} ReconcileResult(slots: map<string, SlotRecord>, local: set<string>, ports: seq<string>, classUrl: string, i: nat)
    requires i <= |ports| && local <= slots.Keys
    ensures var st := Reconcile(slots, local, ports, classUrl, i);
      st.error.None? ==>
        |st.result| == i &&
        forall k | 0 <= k < i ::
          st.result[k] == LinkOf(ports[k], classUrl, if ports[k] in local then slots[ports[k]].uploadCount else 0)
    decreases i, 1
  {
    if i > 0 {
      ReconcileResultStep(slots, local, ports, classUrl, i);
    }
  }

  lemma {:induction false} ReconcileResultStep(slots: map<string, SlotRecord>, local: set<string>, ports: seq<string>, classUrl: string, i: nat)
    requires 0 < i <= |ports| && local <= slots.Keys
    ensures var st := Reconcile(slots, local, ports, classUrl, i);
      st.error.None? ==>
        |st.result| == i &&
        forall k | 0 <= k < i ::
          st.result[k] == LinkOf(ports[k], classUrl, if ports[k] in local then slots[ports[k]].uploadCount else 0)
    decreases i, 0
  {
    ReconcileResult(slots, local, ports, classUrl, i - 1);
    ReconcileSlots(slots, local, ports, classUrl, i - 1);
    var before := Reconcile(slots, local, ports, classUrl, i - 1);
    var st := Reconcile(slots, local, ports, classUrl, i);
    if st.error.None? {
      ReconcileNextAppends(before, ports[i - 1], local, classUrl);
      forall k | 0 <= k < i
        ensures st.result[k] == LinkOf(ports[k], classUrl, if ports[k] in local then slots[ports[k]].uploadCount else 0)
      {
        if k < i - 1 {
          assert st.result[k] == before.result[k];
        }
      }
    }
  }

  /** A step without an error appends the link of its online id, with
      count 0 for an id it creates and the stored count otherwise. */
  lemma ReconcileNextAppends(before: Reconciling, port: string, local: set<string>, classUrl: string)
    requires ReconcileNext(before, port, local, classUrl).error.None?
    ensures var st := ReconcileNext(before, port, local, classUrl);
      before.error.None? &&
      |st.result| == |before.result| + 1 &&
      (forall k | 0 <= k < |before.result| :: st.result[k] == before.result[k]) &&
      st.result[|before.result|] == LinkOf(port, classUrl, if port in local then before.slots[port].uploadCount else 0)
  {
  }

  /** The loop fails exactly when some online id clashes; it never fails
      on a missing slot, because the AVAILABLE ids it reads back exist. */
  lemma {:induction false} ReconcileFails(slots: map<string, SlotRecord>, local: set<string>, ports: seq<string>, classUrl: string, i: nat)
    requires i <= |ports| && local <= slots.Keys
    ensures var st := Reconcile(slots, local, ports, classUrl, i);
      (st.error.Some? <==> exists k | 0 <= k < i :: Clash(slots, local, ports, k)) &&
      (st.error.Some? ==> st.error == Some(SlotTaken))
  {
    if i > 0 {
      ReconcileFails(slots, local, ports, classUrl, i - 1);
      ReconcileSlots(slots, local, ports, classUrl, i - 1);
      var before := Reconcile(slots, local, ports, classUrl, i - 1);
      var p := ports[i - 1];
      if before.error.None? {
        assert forall k | 0 <= k < i - 1 :: !Clash(slots, local, ports, k);
        if p !in local && p in before.slots {
          assert Clash(slots, local, ports, i - 1) by {
            if p !in slots {
              assert p in ports[..i - 1];
            }
          }
        } else if p !in local {
          assert !Clash(slots, local, ports, i - 1);
        }
      } else {
        var k :| 0 <= k < i - 1 && Clash(slots, local, ports, k);
        assert Clash(slots, local, ports, k);
      }
    }
  }

  /** Once the loop has failed it stops. */
  lemma {:induction false} ReconcileStops(slots: map<string, SlotRecord>, local: set<string>, ports: seq<string>, classUrl: string, j: nat, n: nat)
    requires j <= n <= |ports| && Reconcile(slots, local, ports, classUrl, j).error.Some?
    ensures Reconcile(slots, local, ports, classUrl, n) == Reconcile(slots, local, ports, classUrl, j)
  {
    if n > j {
      ReconcileStops(slots, local, ports, classUrl, j, n - 1);
    }
  }

  /** `get_assignments`, creating the missing slots in `table`. */
  method GetAssignments(table: SlotTable, classUrl: string, inbox: Fetch<seq<Option<string>>>)
    returns (r: Result<seq<SlotLink>, string>)
    modifies table
    ensures (r, table.slots) == Assignments(old(table.slots), classUrl, inbox)
  {
    if ClassId(classUrl).None? {
      return Err(AssignmentsFailure + NoClassId);
    }
    if inbox.Raised? {
      return Err(AssignmentsFailure + inbox.error);
    }
    var ports := Ports(inbox.value);
    if ports == [] {
      return Err(AssignmentsFailure + NoPorts);
    }
    var local := AvailableSlots(table.slots);
    ghost var start := table.slots;
    var result: seq<SlotLink> := [];
    var error: Option<string> := None;
    var i := 0;
    while i < |ports| && error.None?
      invariant i <= |ports|
      invariant Reconcile(start, local, ports, classUrl, i) == Reconciling(table.slots, result, error)
    {
      result, error := ReconcileStep(table, local, ports[i], classUrl, result);
      i := i + 1;
    }
    if error.Some? {
      ReconcileStops(start, local, ports, classUrl, i, |ports|);
      return Err(AssignmentsFailure + error.value);
    }
    r := Ok(result);
  }

  /** One pass of the loop of `get_assignments`: `create` the slot of an
      id that was not AVAILABLE, or read back the count of one that was. */
  method ReconcileStep(table: SlotTable, local: set<string>, port: string, classUrl: string, result: seq<SlotLink>)
    returns (next: seq<SlotLink>, error: Option<string>)
    modifies table
    ensures Reconciling(table.slots, next, error) ==
              ReconcileNext(Reconciling(old(table.slots), result, None), port, local, classUrl)
  {
    if port !in local {
      var created := table.Create(port);
      if !created {
        return result, Some(SlotTaken);
      }
      return result + [LinkOf(port, classUrl, 0)], None;
    }
    if port !in table.slots {
      return result, Some(NoSuchSlot);
    }
    return result + [LinkOf(port, classUrl, table.slots[port].uploadCount)], None;
  }

  // ---------------------------------------------------------------------
  // _get_oid_from_assignment

  /** What the inbox page of a slot shows for the default student: the
      login page, no inbox table, no row for the student, no checkbox, or
      the checkbox's `value` and `title`. */
  datatype InboxPage = LoginPage | NoInboxTable | NoStudentRow | NoCheckbox | Checkbox(value: Option<string>, title: Option<string>)

  /** The paper a slot holds and the name it was uploaded under. */
  datatype Paper = Paper(oid: string, filename: Option<string>)

  const NoClass: string := "未找到班级 "

  function PaperOf(page: Fetch<InboxPage>): (r: Result<Paper, string>)
    ensures r.Ok? <==> page.Got? && page.value.Checkbox? && page.value.value.Some? && page.value.value.value != ""
    ensures r.Ok? ==> r.value == Paper(page.value.value.value, page.value.title)
  {
    match page
    case Raised(e) => Err(e)
    case Got(LoginPage) => Err("认证失败，请检查 Cookie")
    case Got(NoInboxTable) => Err("未找到收件箱表格，可能无提交记录或页面结构变化")
    case Got(NoStudentRow) => Err("未找到提交行，检查用户 ID 或提交记录")
    case Got(NoCheckbox) => Err("未找到 OID 元素，可能页面结构变化")
    case Got(Checkbox(value, title)) =>
      if value.None? || value.value == "" then Err("OID 为空") else Ok(Paper(value.value, title))
  }

  /** A slot table that only gained AVAILABLE slots of count 0. */
  predicate Extends(before: map<string, SlotRecord>, after: map<string, SlotRecord>) {
    (forall a | a in before :: a in after && after[a] == before[a]) &&
    (forall a | a in after && a !in before :: after[a] == SlotRecord(Available, 0))
  }

  lemma AssignmentsExtend(slots: map<string, SlotRecord>, classUrl: string, inbox: Fetch<seq<Option<string>>>)
    ensures Extends(slots, Assignments(slots, classUrl, inbox).1)
  {
    if ClassId(classUrl).Some? && inbox.Got? && Ports(inbox.value) != [] {
      var ports := Ports(inbox.value);
      ReconcileSlots(slots, AvailableSlots(slots), ports, classUrl, |ports|);
    }
  }

  /** The opening of both `submit` and `_get_oid_from_assignment`: the
      slots of the first class named `className`, reconciled; `home` and
      `inbox` are the home page and that class's page. */
  function Listing(slots: map<string, SlotRecord>, className: string, home: Fetch<seq<Anchor>>, inbox: Fetch<seq<Option<string>>>)
    : (Result<seq<SlotLink>, string>, map<string, SlotRecord>)
  {
    match GetClasses(home, className)
    case Err(e) => (Err(e), slots)
    case Ok(classes) =>
      if classes == [] then (Err(NoClass + className), slots)
      else Assignments(slots, classes[0].url, inbox)
  }

  /** Listing never removes or changes a slot; it only adds fresh ones. */
  lemma ListingExtends(slots: map<string, SlotRecord>, className: string, home: Fetch<seq<Anchor>>, inbox: Fetch<seq<Option<string>>>)
    ensures Extends(slots, Listing(slots, className, home, inbox).1)
  {
    var classes := GetClasses(home, className);
    if classes.Ok? && classes.value != [] {
      AssignmentsExtend(slots, classes.value[0].url, inbox);
    }
  }

  method ListSlots(table: SlotTable, className: string, home: Fetch<seq<Anchor>>, inbox: Fetch<seq<Option<string>>>)
    returns (r: Result<seq<SlotLink>, string>)
    modifies table
    ensures (r, table.slots) == Listing(old(table.slots), className, home, inbox)
  {
    var classes := GetClasses(home, className);
    if classes.Err? {
      return Err(classes.error);
    }
    if classes.value == [] {
      return Err(NoClass + className);
    }
    r := GetAssignments(table, classes.value[0].url, inbox);
  }

  /** The answers one paper lookup receives: the home page, the class
      page, and the slot's inbox page. */
  datatype LookupReplies = LookupReplies(home: Fetch<seq<Anchor>>, inbox: Fetch<seq<Option<string>>>, page: Fetch<InboxPage>)

  /** `_get_oid_from_assignment`: it reconciles the slots of the first
      matching class before it reads the slot's inbox. */
  function OidLookup(slots: map<string, SlotRecord>, className: string, rep: LookupReplies)
    : (Result<Paper, string>, map<string, SlotRecord>)
  {
    var listed := Listing(slots, className, rep.home, rep.inbox);
    if listed.0.Err? then (Err(listed.0.error), listed.1) else (PaperOf(rep.page), listed.1)
  }

  /** A lookup changes the slot table only by adding fresh slots, and a
      paper it finds has a non-empty oid and is what the inbox page shows. */
  lemma OidLookupExtends(slots: map<string, SlotRecord>, className: string, rep: LookupReplies)
    ensures Extends(slots, OidLookup(slots, className, rep).1)
    ensures OidLookup(slots, className, rep).0.Ok? ==>
              Listing(slots, className, rep.home, rep.inbox).0.Ok? &&
              OidLookup(slots, className, rep).0 == PaperOf(rep.page) &&
              OidLookup(slots, className, rep).0.value.oid != ""
  {
    ListingExtends(slots, className, rep.home, rep.inbox);
  }

  method GetOidFromAssignment(table: SlotTable, className: string, rep: LookupReplies) returns (r: Result<Paper, string>)
    modifies table
    ensures (r, table.slots) == OidLookup(old(table.slots), className, rep)
  {
    var listed := ListSlots(table, className, rep.home, rep.inbox);
    if listed.Err? {
      return Err(listed.error);
    }
    r := PaperOf(rep.page);
  }

  // ---------------------------------------------------------------------
  // submit: the choice of a slot

  /** `[a for a in assignments if a['aid'] not in last_assignment_id]`:
      `in` on two strings is a substring test. */
  function Eligible(links: seq<SlotLink>, exclusion: string): (r: seq<SlotLink>)
    ensures forall k | 0 <= k < |r| :: r[k] in links && !Contains(exclusion, r[k].aid)
    ensures forall l | l in links && !Contains(exclusion, l.aid) :: l in r
    decreases |links|
  {
    if links == [] then []
    else
      var rest := Eligible(links[1..], exclusion);
      assert forall l | l in links[1..] :: l in links;
      if Contains(exclusion, links[0].aid) then rest else [links[0]] + rest
  }

  /** `min(links, key=upload_count)`: the index of the first link of least
      count. */
  function FirstMin(links: seq<SlotLink>): (r: Option<nat>)
    ensures r.None? <==> links == []
    ensures r.Some? ==> r.value < |links|
    ensures r.Some? ==> forall k | 0 <= k < |links| :: links[r.value].uploadCount <= links[k].uploadCount
    ensures r.Some? ==> forall k | 0 <= k < r.value :: links[r.value].uploadCount < links[k].uploadCount
    decreases |links|
  {
    if links == [] then None
    else
      var front := links[..|links| - 1];
      match FirstMin(front)
      case None => Some(0)
      case Some(m) =>
        assert forall k | 0 <= k < |front| :: front[k] == links[k];
        if links[|links| - 1].uploadCount < links[m].uploadCount then Some(|links| - 1) else Some(m)
  }

  /** The slot `submit` uses. */
  function Choose(links: seq<SlotLink>, exclusion: string): Option<SlotLink> {
    var candidates := Eligible(links, exclusion);
    match FirstMin(candidates)
    case None => None
    case Some(m) => Some(candidates[m])
  }

  /** The chosen slot is listed, not named anywhere in the exclusion
      string, and used least among the slots that are not; nothing is
      chosen exactly when every listed slot is excluded. */
  lemma ChooseLeastUsed(links: seq<SlotLink>, exclusion: string)
    ensures Choose(links, exclusion).None? <==> forall l | l in links :: Contains(exclusion, l.aid)
    ensures Choose(links, exclusion).Some? ==>
              var c := Choose(links, exclusion).value;
              c in links && !Contains(exclusion, c.aid) &&
              forall l | l in links && !Contains(exclusion, l.aid) :: c.uploadCount <= l.uploadCount
  {
    var candidates := Eligible(links, exclusion);
    if candidates == [] {
      assert forall l | l in links :: Contains(exclusion, l.aid);
    } else {
      var m := FirstMin(candidates).value;
      forall l | l in links && !Contains(exclusion, l.aid)
        ensures candidates[m].uploadCount <= l.uploadCount
      {
        var k :| 0 <= k < |candidates| && candidates[k] == l;
      }
    }
  }

  /** A slot whose id occurs in the exclusion string, such as one named in
      the record's error log, is never chosen. */
  lemma ExcludedNeverChosen(links: seq<SlotLink>, exclusion: string, aid: string)
    requires Contains(exclusion, aid)
    ensures Choose(links, exclusion) != None ==> Choose(links, exclusion).value.aid != aid
  {
    ChooseLeastUsed(links, exclusion);
  }

  // ---------------------------------------------------------------------
  // submit: upload, check and increment

  const EmptyMin: string := "min() arg is an empty sequence"
  const SlotAttempt: string := "尝试使用端口:"

  /** The answers of the upload inside `submit`: the upload POST, the page a
      302 leads to, the uuid `UUID_PATTERN` finds in the final page, the
      metadata polls, the confirmation (its `response.ok`), and the lookup
      of the uploaded paper. */
  datatype UploadReplies = UploadReplies(
    post: Fetch<HttpReply>, redirect: Fetch<HttpReply>, uuid: Option<string>,
    metadata: nat -> Fetch<string>, confirm: Fetch<bool>, lookup: LookupReplies)

  /** The answers one `submit` receives: the home page and class page of
      the slot choice, then those of the upload. */
  datatype SubmitReplies = SubmitReplies(home: Fetch<seq<Anchor>>, inbox: Fetch<seq<Option<string>>>, upload: UploadReplies)

  /** The upload went through: the cookies name a session id, the POST
      (after a 302, the page it leads to) answered 200 with a uuid, the
      metadata became ready and the confirmation was accepted. */
  predicate Uploaded(cookies: string, u: UploadReplies) {
    ExtractSessionId(cookies).Ok? &&
    u.post.Got? &&
    var final := if u.post.value.code == 302 then u.redirect else u.post;
    final.Got? && final.value.code == 200 && u.uuid.Some? &&
    MetadataWait(u.metadata, 0).result.Ok? &&
    u.confirm == Got(true)
  }

  /** `filename_uploaded[0:10] in filename`, for a non-empty uploaded name. */
  predicate NameMatches(uploaded: Option<string>, filename: string) {
    uploaded.Some? && uploaded.value != "" &&
    Contains(filename, uploaded.value[..if |uploaded.value| < 10 then |uploaded.value| else 10])
  }

  /** The end of the `try` block of `submit`, once the upload is through:
      look the paper of slot `aid` up, check its name, and add one to the
      slot's count. */
  function Recorded(slots: map<string, SlotRecord>, aid: string, className: string, filename: string, lookup: LookupReplies)
    : (Result<string, string>, map<string, SlotRecord>)
  {
    var found := OidLookup(slots, className, lookup);
    var after := found.1;
    if found.0.Err? || !NameMatches(found.0.value.filename, filename) || aid !in after then
      (Err(SlotAttempt + aid), after)
    else
      (Ok(aid), Counted(after, aid))
  }

  /** The `try` block of `submit` on the slot `aid`. Every failure becomes
      the one error that names the slot. */
  function Attempt(slots: map<string, SlotRecord>, aid: string, className: string, cookies: string,
                   filename: string, u: UploadReplies)
    : (Result<string, string>, map<string, SlotRecord>)
  {
    if !Uploaded(cookies, u) then (Err(SlotAttempt + aid), slots)
    else Recorded(slots, aid, className, filename, u.lookup)
  }

  /** An attempt ends on its own slot; it succeeds only when the upload
      went through and the slot holds a paper of the right name, and then
      that slot, and no other, counts one more upload. */
  lemma AttemptCounts(slots: map<string, SlotRecord>, aid: string, className: string, cookies: string,
                      filename: string, u: UploadReplies)
    ensures var (r, after) := Attempt(slots, aid, className, cookies, filename, u);
      (r == Ok(aid) || r == Err(SlotAttempt + aid)) &&
      (r.Ok? ==> Uploaded(cookies, u) && OidLookup(slots, className, u.lookup).0.Ok? &&
                 NameMatches(OidLookup(slots, className, u.lookup).0.value.filename, filename)) &&
      (forall a | a in slots :: a in after) &&
      forall a | a in after ::
        after[a].status == (if a in slots then slots[a].status else Available) &&
        after[a].uploadCount == (if a in slots then slots[a].uploadCount else 0) + (if r.Ok? && a == aid then 1 else 0)
  {
    OidLookupExtends(slots, className, u.lookup);
  }

  method RecordUpload(table: SlotTable, aid: string, className: string, filename: string, lookup: LookupReplies)
    returns (r: Result<string, string>)
    modifies table
    ensures (r, table.slots) == Recorded(old(table.slots), aid, className, filename, lookup)
  {
    var paper := GetOidFromAssignment(table, className, lookup);
    if paper.Err? || !NameMatches(paper.value.filename, filename) {
      return Err(SlotAttempt + aid);
    }
    var incremented := table.IncrementUploadCount(aid);
    if !incremented {
      return Err(SlotAttempt + aid);
    }
    r := Ok(aid);
  }

  method TryUpload(table: SlotTable, aid: string, className: string, cookies: string, filename: string, u: UploadReplies)
    returns (r: Result<string, string>)
    modifies table
    ensures (r, table.slots) == Attempt(old(table.slots), aid, className, cookies, filename, u)
  {
    if ExtractSessionId(cookies).Err? || u.post.Raised? {
      return Err(SlotAttempt + aid);
    }
    var final := if u.post.value.code == 302 then u.redirect else u.post;
    if final.Raised? || final.value.code != 200 || u.uuid.None? {
      return Err(SlotAttempt + aid);
    }
    var metadata, polls := WaitForMetadata(u.metadata);
    if metadata.Err? || u.confirm != Got(true) {
      return Err(SlotAttempt + aid);
    }
    r := RecordUpload(table, aid, className, filename, u.lookup);
  }

  /** `submit(..., filename, ..., last_assignment_id=exclusion)`: the slot
      it used, or the error it raised, and the slot table afterwards. The
      listing and the choice raise their own errors. */
  function SubmitOutcome(slots: map<string, SlotRecord>, className: string, cookies: string,
                         exclusion: string, filename: string, rep: SubmitReplies)
    : (Result<string, string>, map<string, SlotRecord>)
  {
    var listed := Listing(slots, className, rep.home, rep.inbox);
    if listed.0.Err? then (Err(listed.0.error), listed.1)
    else match Choose(listed.0.value, exclusion)
      case None => (Err(EmptyMin), listed.1)
      case Some(chosen) => Attempt(listed.1, chosen.aid, className, cookies, filename, rep.upload)
  }

  method Submit(table: SlotTable, className: string, cookies: string, exclusion: string, filename: string, rep: SubmitReplies)
    returns (r: Result<string, string>)
    modifies table
    ensures (r, table.slots) == SubmitOutcome(old(table.slots), className, cookies, exclusion, filename, rep)
  {
    var listed := ListSlots(table, className, rep.home, rep.inbox);
    if listed.Err? {
      return Err(listed.error);
    }
    var chosen := Choose(listed.value, exclusion);
    if chosen.None? {
      return Err(EmptyMin);
    }
    r := TryUpload(table, chosen.value.aid, className, cookies, filename, rep.upload);
  }

  /** Across one `submit` the only count that changes is that of the slot
      it returns, by exactly one; every other slot keeps its count and
      status, and slots created on the way are AVAILABLE with count 0. */
  lemma SubmitCounts(slots: map<string, SlotRecord>, className: string, cookies: string,
                     exclusion: string, filename: string, rep: SubmitReplies)
    ensures var (r, after) := SubmitOutcome(slots, className, cookies, exclusion, filename, rep);
      (forall a | a in slots :: a in after) &&
      forall a | a in after ::
        after[a].status == (if a in slots then slots[a].status else Available) &&
        after[a].uploadCount == (if a in slots then slots[a].uploadCount else 0) + (if r == Ok(a) then 1 else 0)
  {
    var listed := Listing(slots, className, rep.home, rep.inbox);
    ListingExtends(slots, className, rep.home, rep.inbox);
    if listed.0.Ok? && Choose(listed.0.value, exclusion).Some? {
      var aid := Choose(listed.0.value, exclusion).value.aid;
      AttemptCounts(listed.1, aid, className, cookies, filename, rep.upload);
    }
  }

  /** Once a slot is chosen from the listing, `submit` ends on that slot:
      it is the least-used one the exclusion string does not name, and
      the result either returns it or names it in the error. */
  lemma SubmitUsesChosenSlot(slots: map<string, SlotRecord>, className: string, cookies: string,
                             exclusion: string, filename: string, rep: SubmitReplies)
    ensures var listed := Listing(slots, className, rep.home, rep.inbox);
      var r := SubmitOutcome(slots, className, cookies, exclusion, filename, rep).0;
      (listed.0.Ok? && Choose(listed.0.value, exclusion).Some?) ==>
        (var c := Choose(listed.0.value, exclusion).value;
         c in listed.0.value && !Contains(exclusion, c.aid) &&
         (forall l | l in listed.0.value && !Contains(exclusion, l.aid) :: c.uploadCount <= l.uploadCount) &&
         (r == Ok(c.aid) || r == Err(SlotAttempt + c.aid)))
  {
    var listed := Listing(slots, className, rep.home, rep.inbox);
    if listed.0.Ok? {
      ChooseLeastUsed(listed.0.value, exclusion);
      if Choose(listed.0.value, exclusion).Some? {
        AttemptCounts(listed.1, Choose(listed.0.value, exclusion).value.aid, className, cookies, filename, rep.upload);
      }
    }
  }

  // ---------------------------------------------------------------------
  // download_ai_file and download_plagiarism_file

  /** The answers one `download_ai_file` receives: the paper lookup, the
      launch token, the session token, the job POSTs and the token
      refreshes, the job polls, the cookie fetch and the PDF. */
  datatype AiReplies = AiReplies(
    lookup: LookupReplies, launch: Fetch<LaunchToken>, session: Fetch<string>,
    post: (nat, JobRequest) -> Fetch<HttpReply>, refresh: nat -> Fetch<string>,
    poll: (string, nat) -> Fetch<JobState>, cookie: Fetch<string>, pdf: Fetch<Bytes>)

  /** `download_ai_file`: the PDF, or None for every exception, a missing
      job id and a missing url. The job is polled with the session token
      the job creation ended with, since both share the session data. */
  function AiFile(slots: map<string, SlotRecord>, className: string, rep: AiReplies): (Option<Bytes>, map<string, SlotRecord>) {
    var found := OidLookup(slots, className, rep.lookup);
    if found.0.Err? || ExtractSubmissionTrn(rep.launch).Err? || rep.session.Raised? then (None, found.1)
    else
      var job := AiJob(rep.post, rep.refresh, rep.session.value, rep.session.value, 0, "");
      if job.result.Err? || job.result.value == "" then (None, found.1)
      else
        var wait := AiReportWait(job.token, rep.poll, 0);
        if wait.result.Err? || wait.result.value.None? || wait.result.value.value == "" then (None, found.1)
        else if GetCookies(rep.cookie).Err? || rep.pdf.Raised? then (None, found.1)
        else (Some(rep.pdf.value), found.1)
  }

  /** Nothing escapes: the AI report is the downloaded PDF exactly when
      every step succeeded, and the slot table changes only by the lookup's
      new slots. */
  lemma AiFileFolds(slots: map<string, SlotRecord>, className: string, rep: AiReplies)
    ensures Extends(slots, AiFile(slots, className, rep).1)
    ensures AiFile(slots, className, rep).0.Some? <==>
              OidLookup(slots, className, rep.lookup).0.Ok? && ExtractSubmissionTrn(rep.launch).Ok? && rep.session.Got? &&
              (var job := AiJob(rep.post, rep.refresh, rep.session.value, rep.session.value, 0, "");
               job.result.Ok? && job.result.value != "" &&
               var wait := AiReportWait(job.token, rep.poll, 0);
               wait.result.Ok? && wait.result.value.Some? && wait.result.value.value != "") &&
              GetCookies(rep.cookie).Ok? && rep.pdf.Got?
    ensures AiFile(slots, className, rep).0.Some? ==> AiFile(slots, className, rep).0.value == rep.pdf.value
  {
    OidLookupExtends(slots, className, rep.lookup);
  }

  method DownloadAiFile(table: SlotTable, className: string, rep: AiReplies) returns (content: Option<Bytes>)
    modifies table
    ensures (content, table.slots) == AiFile(old(table.slots), className, rep)
  {
    var paper := GetOidFromAssignment(table, className, rep.lookup);
    if paper.Err? {
      return None;
    }
    var trn := ExtractSubmissionTrn(rep.launch);
    if trn.Err? || rep.session.Raised? {
      return None;
    }
    var job, sent, latest := GenerateAiReport(rep.session.value, rep.post, rep.refresh);
    if job.Err? || job.value == "" {
      return None;
    }
    var url, polls := WaitForAiReport(latest, rep.poll);
    if url.Err? || url.value.None? || url.value.value == "" {
      return None;
    }
    if GetCookies(rep.cookie).Err? || rep.pdf.Raised? {
      return None;
    }
    content := Some(rep.pdf.value);
  }

  /** The answers one `download_plagiarism_file` receives: the paper
      lookup, the steps before the ticket polls, the polls, and the GET of
      the file (whatever its status). */
  datatype PlagiarismReplies = PlagiarismReplies(
    lookup: LookupReplies, landing: Fetch<()>, queue: Fetch<()>, tickets: nat -> Fetch<Ticket>, file: Fetch<Bytes>)

  /** `download_plagiarism_file`: errors are raised to the caller. */
  function PlagiarismFile(slots: map<string, SlotRecord>, className: string, rep: PlagiarismReplies): (Fetch<Bytes>, map<string, SlotRecord>) {
    var found := OidLookup(slots, className, rep.lookup);
    if found.0.Err? then (Raised(found.0.error), found.1)
    else
      var url := DownloadUrl(NonAi, rep.landing, rep.queue, rep.tickets);
      if url.result.Err? then (Raised(url.result.error), found.1)
      else (rep.file, found.1)
  }

  /** The similarity report is the file fetched once the paper was found
      and a ticket became ready; the slot table only gains fresh slots. */
  lemma PlagiarismFileNeedsTicket(slots: map<string, SlotRecord>, className: string, rep: PlagiarismReplies)
    ensures Extends(slots, PlagiarismFile(slots, className, rep).1)
    ensures var w := DownloadUrl(NonAi, rep.landing, rep.queue, rep.tickets);
      PlagiarismFile(slots, className, rep).0.Got? ==>
        OidLookup(slots, className, rep.lookup).0.Ok? && w.result.Ok? &&
        PlagiarismFile(slots, className, rep).0 == rep.file
  {
    OidLookupExtends(slots, className, rep.lookup);
  }

  method DownloadPlagiarismFile(table: SlotTable, className: string, rep: PlagiarismReplies) returns (content: Fetch<Bytes>)
    modifies table
    ensures (content, table.slots) == PlagiarismFile(old(table.slots), className, rep)
  {
    var paper := GetOidFromAssignment(table, className, rep.lookup);
    if paper.Err? {
      return Raised(paper.error);
    }
    var url, polls := GetDownloadUrl(NonAi, rep.landing, rep.queue, rep.tickets);
    if url.Err? {
      return Raised(url.error);
    }
    content := rep.file;
  }
}
