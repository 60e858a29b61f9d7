/** The assignments page (assignments/page.tsx): the assignment records, the
    workspace of the detail dialog (draft text, attachments, stored drafts,
    submit mode), and the views derived from the list. Dates are day numbers;
    the clock readings and object URLs a file pick produces come with the pick. */
module Assignments {
  import opened Common
  import opened Sorting

  datatype Status = Pending | Completed

  datatype Priority = High | Medium | Low

  /** An attachment. `mime` is the browser's `File.type`. */
  datatype FileUpload = FileUpload(id: string, name: string, mime: string, size: int,
                                   preview: Option<string>)

  datatype Assignment = Assignment(id: int, title: string, course: string, dueDate: int,
                                   description: string, status: Status, priority: Priority,
                                   submittedFiles: Option<seq<FileUpload>>,
                                   submittedText: Option<string>)

  /** One file of a file-input selection, with the `Date.now()` reading taken
      for it and the URL `URL.createObjectURL` would give it. */
  datatype PickedFile = PickedFile(name: string, mime: string, size: int,
                                   clock: string, objectUrl: string)

  datatype SubmitMode = Submit | Hold

  // ---------------------------------------------------------------------------
  // Attachments

  const ImagePrefix := "image/"

  predicate IsImage(mime: string)
  {
    |mime| >= |ImagePrefix| && mime[..|ImagePrefix|] == ImagePrefix
  }

  /** `file-${Date.now()}-${file.name}`. */
  function UploadId(clock: string, name: string): string
  {
    "file-" + clock + "-" + name
  }

  /** The attachment built for one picked file: only images get a preview. */
  function ToUpload(p: PickedFile): (u: FileUpload)
    ensures u.id == UploadId(p.clock, p.name)
    ensures u.name == p.name && u.mime == p.mime && u.size == p.size
    ensures u.preview.Some? <==> IsImage(p.mime)
    ensures u.preview.Some? ==> u.preview.value == p.objectUrl
  {
    FileUpload(UploadId(p.clock, p.name), p.name, p.mime, p.size,
               if IsImage(p.mime) then Some(p.objectUrl) else None)
  }

  /** `Array.from(files).map(...)`, in selection order. */
  function UploadsOf(picked: seq<PickedFile>): (r: seq<FileUpload>)
    ensures |r| == |picked|
    ensures forall k :: 0 <= k < |picked| ==> r[k] == ToUpload(picked[k])
  {
    if picked == [] then [] else [ToUpload(picked[0])] + UploadsOf(picked[1..])
  }

  /** The attachment list after `handleFileUpload`: a missing file list
      changes nothing; otherwise the new attachments follow the old ones. */
  function Uploaded(current: seq<FileUpload>, files: Option<seq<PickedFile>>): (r: seq<FileUpload>)
    ensures files.None? ==> r == current
    ensures files.Some? ==>
      && |r| == |current| + |files.value|
      && r[..|current|] == current
      && forall k :: 0 <= k < |files.value| ==> r[|current| + k] == ToUpload(files.value[k])
  {
    if files.None? then current else current + UploadsOf(files.value)
  }

  /** The attachment list after `removeFile(id)`: every attachment with that
      id goes, the others stay in order. */
  function WithoutFile(current: seq<FileUpload>, id: string): (r: seq<FileUpload>)
    ensures |r| <= |current|
    ensures forall k :: 0 <= k < |r| ==> r[k].id != id && r[k] in current
    ensures forall k :: 0 <= k < |current| && current[k].id != id ==> current[k] in r
  {
    Filter(current, (f: FileUpload) => f.id != id)
  }

  /** Removing an id nobody carries changes nothing, and removal acts
      piecewise on the list, so the survivors keep their order. */
  lemma WithoutFileOrder(a: seq<FileUpload>, b: seq<FileUpload>, id: string)
    ensures WithoutFile(a + b, id) == WithoutFile(a, id) + WithoutFile(b, id)
    ensures (forall k :: 0 <= k < |a| ==> a[k].id != id) ==> WithoutFile(a, id) == a
  {
    FilterAppend(a, b, (f: FileUpload) => f.id != id);
    if forall k :: 0 <= k < |a| ==> a[k].id != id {
      FilterAllPass(a, (f: FileUpload) => f.id != id);
    }
  }

  /** Two files of the same name picked within one clock tick get the same
      id, and removing one of them removes both. */
  lemma RemoveTakesBothOfACollision(p: PickedFile, q: PickedFile)
    requires p.name == q.name && p.clock == q.clock
    ensures ToUpload(p).id == ToUpload(q).id
    ensures WithoutFile(Uploaded([], Some([p, q])), ToUpload(p).id) == []
  {
    var id := ToUpload(p).id;
    var both := Uploaded([], Some([p, q]));
    assert both == [ToUpload(p), ToUpload(q)];
    assert both == [ToUpload(p)] + [ToUpload(q)];
    FilterAppend([ToUpload(p)], [ToUpload(q)], (f: FileUpload) => f.id != id);
    FilterSingleton(ToUpload(p), (f: FileUpload) => f.id != id);
    FilterSingleton(ToUpload(q), (f: FileUpload) => f.id != id);
  }

  // ---------------------------------------------------------------------------
  // Status toggle and submission

  function Flip(s: Status): Status
  {
    if s == Completed then Pending else Completed
  }

  function ToggleOne(a: Assignment, id: int): Assignment
  {
    if a.id == id then a.(status := Flip(a.status)) else a
  }

  /** The list after `toggleAssignmentStatus(id)`: each assignment with that
      id flips its status, and nothing else changes. */
  function Toggled(list: seq<Assignment>, id: int): (r: seq<Assignment>)
    ensures |r| == |list|
    ensures forall k :: 0 <= k < |list| && list[k].id == id ==>
      r[k] == list[k].(status := Flip(list[k].status)) && r[k].status != list[k].status
    ensures forall k :: 0 <= k < |list| && list[k].id != id ==> r[k] == list[k]
  {
    if list == [] then [] else [ToggleOne(list[0], id)] + Toggled(list[1..], id)
  }

  /** Toggling the same id twice restores the list. */
  lemma ToggleTwice(list: seq<Assignment>, id: int)
    ensures Toggled(Toggled(list, id), id) == list
  {
  }

  function SubmitOne(a: Assignment, id: int, text: string, files: seq<FileUpload>): Assignment
  {
    if a.id == id then a.(status := Completed, submittedText := Some(text), submittedFiles := Some(files))
    else a
  }

  /** The list after a submission for `id`: each assignment with that id is
      completed and carries the text and the files; nothing else changes. */
  function Submitted(list: seq<Assignment>, id: int, text: string, files: seq<FileUpload>): (r: seq<Assignment>)
    ensures |r| == |list|
    ensures forall k :: 0 <= k < |list| && list[k].id == id ==>
      r[k] == list[k].(status := Completed, submittedText := Some(text), submittedFiles := Some(files))
    ensures forall k :: 0 <= k < |list| && list[k].id != id ==> r[k] == list[k]
  {
    if list == [] then [] else [SubmitOne(list[0], id, text, files)] + Submitted(list[1..], id, text, files)
  }

  // ---------------------------------------------------------------------------
  // Derived views

  predicate IsPending(a: Assignment) { a.status == Pending }

  predicate IsCompleted(a: Assignment) { a.status == Completed }

  /** `pendingAssignments`. */
  function PendingOf(list: seq<Assignment>): (r: seq<Assignment>)
    ensures forall k :: 0 <= k < |r| ==> r[k] in list && r[k].status == Pending
    ensures forall k :: 0 <= k < |list| && list[k].status == Pending ==> list[k] in r
  {
    Filter(list, IsPending)
  }

  /** `completedAssignments`. */
  function CompletedOf(list: seq<Assignment>): (r: seq<Assignment>)
    ensures forall k :: 0 <= k < |r| ==> r[k] in list && r[k].status == Completed
    ensures forall k :: 0 <= k < |list| && list[k].status == Completed ==> list[k] in r
  {
    Filter(list, IsCompleted)
  }

  /** Every assignment is in exactly one of the two lists, as often as in
      the whole list, so the two counts add up. */
  lemma {:induction false} StatusPartition(list: seq<Assignment>)
    ensures multiset(PendingOf(list)) + multiset(CompletedOf(list)) == multiset(list)
    ensures |PendingOf(list)| + |CompletedOf(list)| == |list|
  {
    if list != [] {
      StatusPartition(list[1..]);
      assert list == [list[0]] + list[1..];
    }
  }

  /** A submission takes its assignment off the pending list and puts it, with
      the text and the files, on the completed list. */
  lemma SubmitCompletes(list: seq<Assignment>, id: int, text: string, files: seq<FileUpload>)
    ensures forall k :: 0 <= k < |PendingOf(Submitted(list, id, text, files))| ==>
      PendingOf(Submitted(list, id, text, files))[k].id != id
    ensures forall k :: 0 <= k < |list| && list[k].id == id ==>
      list[k].(status := Completed, submittedText := Some(text), submittedFiles := Some(files))
        in CompletedOf(Submitted(list, id, text, files))
  {
  }

  /** The comparator of the "All" tab, as `cmp(a, b) <= 0`: pending before
      completed, and by due date within a status. */
  predicate AllBefore(a: Assignment, b: Assignment)
  {
    if a.status != b.status then a.status == Pending else a.dueDate <= b.dueDate
  }

  lemma AllBeforeIsTotalPreorder()
    ensures TotalPreorder(AllBefore)
  {
  }

  /** The order the "All" tab shows. */
  function AllOrder(list: seq<Assignment>): seq<Assignment>
  {
    SortBy(list, AllBefore)
  }

  /** The "All" tab shows every assignment, as often as it occurs, with all
      pending ones before all completed ones and ascending due dates within
      each status. */
  lemma AllOrderSpec(list: seq<Assignment>)
    ensures multiset(AllOrder(list)) == multiset(list)
    ensures forall i, j :: 0 <= i < j < |AllOrder(list)| ==>
      !(AllOrder(list)[i].status == Completed && AllOrder(list)[j].status == Pending)
    ensures forall i, j :: 0 <= i < j < |AllOrder(list)| && AllOrder(list)[i].status == AllOrder(list)[j].status ==>
      AllOrder(list)[i].dueDate <= AllOrder(list)[j].dueDate
  {
    AllBeforeIsTotalPreorder();
    SortBySorted(list, AllBefore);
  }

  predicate DueBefore(a: Assignment, b: Assignment)
  {
    a.dueDate <= b.dueDate
  }

  /** The "Upcoming" tab: the pending assignments by ascending due date. */
  function UpcomingOrder(list: seq<Assignment>): seq<Assignment>
  {
    SortBy(PendingOf(list), DueBefore)
  }

  /** The "Upcoming Deadline" card: the first of the upcoming order, if any. */
  function NextDeadline(list: seq<Assignment>): Option<Assignment>
  {
    var up := UpcomingOrder(list);
    if up == [] then None else Some(up[0])
  }

  /** The upcoming tab lists exactly the pending assignments in ascending due
      date, and the deadline card shows one of the earliest of them, or
      nothing exactly when nothing is pending. */
  lemma UpcomingSpec(list: seq<Assignment>)
    ensures multiset(UpcomingOrder(list)) == multiset(PendingOf(list))
    ensures forall i, j :: 0 <= i < j < |UpcomingOrder(list)| ==>
      UpcomingOrder(list)[i].dueDate <= UpcomingOrder(list)[j].dueDate
    ensures NextDeadline(list).None? <==> forall k :: 0 <= k < |list| ==> list[k].status != Pending
    ensures NextDeadline(list).Some? ==>
      && NextDeadline(list).value in list && NextDeadline(list).value.status == Pending
      && forall k :: 0 <= k < |list| && list[k].status == Pending ==> NextDeadline(list).value.dueDate <= list[k].dueDate
  {
    var pending := PendingOf(list);
    var up := UpcomingOrder(list);
    assert TotalPreorder(DueBefore);
    SortBySorted(pending, DueBefore);
    forall k | 0 <= k < |list| && list[k].status == Pending ensures list[k] in up {
      assert list[k] in multiset(pending);
    }
    if up != [] {
      assert up[0] in multiset(pending);
      forall k | 0 <= k < |list| && list[k].status == Pending ensures up[0].dueDate <= list[k].dueDate {
        var j :| 0 <= j < |up| && up[j] == list[k];
        if j > 0 {
          assert DueBefore(up[0], up[j]);
        }
      }
    } else {
      assert |pending| == 0;
    }
  }

  // ---------------------------------------------------------------------------
  // Due labels

  datatype DueLabel = Overdue(days: nat) | DueToday | DueTomorrow | DueIn(days: nat)

  datatype Tone = DestructiveTone | WarningTone | PlainTone

  /** `getDueLabel` for a given `daysLeft`: the first rule that matches. */
  function GetDueLabel(daysLeft: int): (l: DueLabel)
    ensures daysLeft < 0 <==> l.Overdue?
    ensures daysLeft == 0 <==> l == DueToday
    ensures daysLeft == 1 <==> l == DueTomorrow
    ensures daysLeft > 1 <==> l.DueIn?
    ensures l.Overdue? || l.DueIn? ==> l.days as int == if daysLeft < 0 then -daysLeft else daysLeft
  {
    if daysLeft < 0 then Overdue(-daysLeft)
    else if daysLeft == 0 then DueToday
    else if daysLeft == 1 then DueTomorrow
    else DueIn(daysLeft)
  }

  /** The class of each label's span. */
  function ToneOf(l: DueLabel): Tone
  {
    match l
    case Overdue(_) => DestructiveTone
    case DueToday => DestructiveTone
    case DueTomorrow => WarningTone
    case DueIn(d) => if d <= 3 then WarningTone else PlainTone
  }

  /** Overdue and due today are destructive, one to three days a warning,
      later plain. */
  lemma DueTones(daysLeft: int)
    ensures ToneOf(GetDueLabel(daysLeft)) == DestructiveTone <==> daysLeft <= 0
    ensures ToneOf(GetDueLabel(daysLeft)) == WarningTone <==> 1 <= daysLeft <= 3
    ensures ToneOf(GetDueLabel(daysLeft)) == PlainTone <==> daysLeft > 3
  {
  }

  /** The number a string of decimal digits spells, read most significant first. */
  function DigitsValue(s: string): int
  {
    if s == [] then 0 else DigitsValue(s[..|s| - 1]) * 10 + (s[|s| - 1] as int - '0' as int)
  }

  /** Decimal digits of a natural number: they spell the number. */
  function Decimal(n: nat): (s: string)
    ensures |s| >= 1
    ensures forall k :: 0 <= k < |s| ==> '0' <= s[k] <= '9'
    ensures DigitsValue(s) == n
  {
    var digit := ['0' + (n % 10) as char];
    if n < 10 then digit
    else
      var rest := Decimal(n / 10);
      assert (rest + digit)[..|rest + digit| - 1] == rest;
      rest + digit
  }

  /** The text of a label. */
  function LabelText(l: DueLabel): string
  {
    match l
    case Overdue(d) => "Overdue by " + Decimal(d) + " days"
    case DueToday => "Due today"
    case DueTomorrow => "Due tomorrow"
    case DueIn(d) => "Due in " + Decimal(d) + " days"
  }

  lemma DueLabelTexts()
    ensures LabelText(GetDueLabel(-12)) == "Overdue by 12 days"
    ensures LabelText(GetDueLabel(0)) == "Due today"
    ensures LabelText(GetDueLabel(1)) == "Due tomorrow"
    ensures LabelText(GetDueLabel(3)) == "Due in 3 days"
  {
  }

  // ---------------------------------------------------------------------------
  // Distinct courses

  /** The courses of `list` in order of first appearance. */
  function DistinctCoursesOf(list: seq<Assignment>): (r: seq<string>)
    ensures forall k :: 0 <= k < |r| ==> exists j :: 0 <= j < |list| && list[j].course == r[k]
    ensures forall j :: 0 <= j < |list| ==> list[j].course in r
  {
    if list == [] then []
    else
      var init := list[..|list| - 1];
      var d := DistinctCoursesOf(init);
      var c := list[|list| - 1].course;
      assert forall k :: 0 <= k < |init| ==> init[k] == list[k];
      if c in d then d else d + [c]
  }

  /** No course is counted twice, so the count is at most the number of
      assignments. */
  lemma {:induction false} DistinctCoursesUnique(list: seq<Assignment>)
    ensures forall i, j :: 0 <= i < j < |DistinctCoursesOf(list)| ==> DistinctCoursesOf(list)[i] != DistinctCoursesOf(list)[j]
    ensures |DistinctCoursesOf(list)| <= |list|
  {
    if list != [] {
      DistinctCoursesUnique(list[..|list| - 1]);
    }
  }

  /** The "Across N courses" reduce over the pending list. */
  method DistinctCourses(list: seq<Assignment>) returns (acc: seq<string>)
    ensures acc == DistinctCoursesOf(list)
  {
    acc := [];
    var i := 0;
    while i < |list|
      invariant 0 <= i <= |list|
      invariant acc == DistinctCoursesOf(list[..i])
    {
      assert list[..i + 1][..i] == list[..i];
      if list[i].course !in acc {
        acc := acc + [list[i].course];
      }
      i := i + 1;
    }
    assert list[..|list|] == list;
  }

  // ---------------------------------------------------------------------------
  // The page's state and its handlers

  /** The page's state cells, read at one instant: what a handler's closure sees. */
  datatype PageState = PageState(assignments: seq<Assignment>, selected: Option<Assignment>,
                                 detailOpen: bool, answers: map<int, string>, draft: string,
                                 mode: SubmitMode, attachments: seq<FileUpload>)

  function InitialState(initial: seq<Assignment>): PageState
  {
    PageState(initial, None, false, map[], "", Submit, [])
  }

  /** The draft stored for an id: `submittedAnswers[id] || ""`. */
  function StoredDraft(answers: map<int, string>, id: int): (d: string)
    ensures id in answers ==> d == answers[id]
    ensures id !in answers ==> d == ""
  {
    GetOr(answers, id, "")
  }

  function AfterUpload(p: PageState, files: Option<seq<PickedFile>>): PageState
  {
    p.(attachments := Uploaded(p.attachments, files))
  }

  function AfterRemove(p: PageState, fileId: string): PageState
  {
    p.(attachments := WithoutFile(p.attachments, fileId))
  }

  function AfterToggle(p: PageState, id: int): PageState
  {
    p.(assignments := Toggled(p.assignments, id))
  }

  /** `openAssignmentDetails`. */
  function AfterOpen(p: PageState, a: Assignment): PageState
  {
    p.(selected := Some(a), detailOpen := true, draft := StoredDraft(p.answers, a.id), attachments := [])
  }

  /** `addSymbolToAnswer`. */
  function AfterSymbol(p: PageState, symbol: string): PageState
  {
    p.(draft := p.draft + symbol)
  }

  /** The textarea's change handler. */
  function AfterTyping(p: PageState, text: string): PageState
  {
    p.(draft := text)
  }

  /** `calculateAnswer`: `outcome` is the string form of what evaluating the
      draft produced, or None when evaluation threw. */
  function AfterCalculate(p: PageState, outcome: Option<string>): PageState
  {
    p.(draft := if outcome.Some? then outcome.value else "Error")
  }

  /** A calculator key: "=" evaluates, any other key is appended. */
  function AfterKey(p: PageState, key: string, outcome: Option<string>): PageState
  {
    if key == "=" then AfterCalculate(p, outcome) else AfterSymbol(p, key)
  }

  /** `handleSubmit`, reading the mode the closure saw. */
  function AfterSubmit(p: PageState): PageState
  {
    if p.selected.None? then p
    else
      var id := p.selected.value.id;
      if p.mode == Submit then
        p.(assignments := Submitted(p.assignments, id, p.draft, p.attachments),
           answers := p.answers[id := p.draft], attachments := [], detailOpen := false)
      else
        p.(answers := p.answers[id := p.draft])
  }

  /** The dialog's close handler. */
  function AfterClose(p: PageState): PageState
  {
    p.(detailOpen := false)
  }

  /** Every render of the page sorts the state array itself: the "All" tab's
      children are built whichever tab is shown. */
  function AfterAllTab(p: PageState): PageState
  {
    p.(assignments := AllOrder(p.assignments))
  }

  /** The Submit and Hold buttons as written: `setSubmitMode(clicked)` is
      only seen by the next render, so `handleSubmit` runs with the mode from
      before the click. */
  function AfterPressAsWritten(p: PageState, clicked: SubmitMode): PageState
  {
    AfterSubmit(p).(mode := clicked)
  }

  /** The buttons as intended: the clicked mode decides. */
  function AfterPress(p: PageState, clicked: SubmitMode): PageState
  {
    AfterSubmit(p.(mode := clicked))
  }

  /** Opening seeds the draft from the stored answer, or "", and empties the
      attachments; appending a symbol extends the draft and nothing else. */
  lemma OpenAndSymbolFacts(p: PageState, a: Assignment, symbol: string)
    ensures AfterOpen(p, a).draft == (if a.id in p.answers then p.answers[a.id] else "")
    ensures AfterOpen(p, a).attachments == [] && AfterOpen(p, a).detailOpen
    ensures AfterOpen(p, a).assignments == p.assignments && AfterOpen(p, a).answers == p.answers
    ensures AfterSymbol(p, symbol).draft[..|p.draft|] == p.draft
    ensures AfterSymbol(p, symbol) == p.(draft := p.draft + symbol)
  {
  }

  /** With nothing selected both buttons change only the mode; with an
      assignment selected, the Submit button completes it with the draft and
      the attachments, stores the draft, empties the attachments and closes the
      dialog, while Hold stores the draft and changes nothing else. */
  lemma PressOutcomes(p: PageState, clicked: SubmitMode)
    ensures p.selected.None? ==> AfterPress(p, clicked) == p.(mode := clicked)
    ensures p.selected.Some? && clicked == Hold ==>
      AfterPress(p, Hold) == p.(mode := Hold, answers := p.answers[p.selected.value.id := p.draft])
    ensures p.selected.Some? && clicked == Submit ==>
      var q := AfterPress(p, Submit);
      && q.assignments == Submitted(p.assignments, p.selected.value.id, p.draft, p.attachments)
      && q.answers == p.answers[p.selected.value.id := p.draft]
      && q.attachments == [] && !q.detailOpen
      && q.selected == p.selected && q.draft == p.draft && q.mode == Submit
  {
  }

  /** Holding and reopening the same assignment brings the draft back. */
  lemma HoldThenReopen(p: PageState)
    requires p.selected.Some?
    ensures AfterOpen(AfterPress(p, Hold), p.selected.value).draft == p.draft
  {
  }

  /** As written, the first Hold click after Submit (the initial mode)
      submits: the selected assignment is completed and the dialog closes. */
  lemma HoldClickSubmits(p: PageState)
    requires p.selected.Some? && p.mode == Submit
    ensures var q := AfterPressAsWritten(p, Hold);
      && q.mode == Hold && !q.detailOpen && q.attachments == []
      && q.assignments == Submitted(p.assignments, p.selected.value.id, p.draft, p.attachments)
    ensures AfterPressAsWritten(p, Hold) != AfterPress(p, Hold) || !p.detailOpen
  {
  }

  /** For the opened page the two differ on every assignment the dialog is
      about that was still pending. */
  lemma HoldClickCompletesPending(initial: seq<Assignment>, k: nat)
    requires k < |initial| && initial[k].status == Pending
    ensures AfterPressAsWritten(AfterOpen(InitialState(initial), initial[k]), Hold).assignments[k].status == Completed
    ensures AfterPress(AfterOpen(InitialState(initial), initial[k]), Hold).assignments[k].status == Pending
  {
  }

  /** A toggle flips exactly the assignments carrying the id, and a second
      toggle of the same id restores the page. */
  lemma ToggleRoundTrip(p: PageState, id: int)
    ensures AfterToggle(AfterToggle(p, id), id) == p
  {
    ToggleTwice(p.assignments, id);
  }

  /** The workspace as the page holds it: each handler replaces some of the cells. */
  class AssignmentsPage {
    var assignments: seq<Assignment>
    var selected: Option<Assignment>
    var detailOpen: bool
    var answers: map<int, string>
    var draft: string
    var mode: SubmitMode
    var attachments: seq<FileUpload>

    function State(): PageState
      reads this
    {
      PageState(assignments, selected, detailOpen, answers, draft, mode, attachments)
    }

    constructor(initial: seq<Assignment>)
      ensures State() == InitialState(initial)
    {
      assignments := initial;
      selected := None;
      detailOpen := false;
      answers := map[];
      draft := "";
      mode := Submit;
      attachments := [];
    }

    /** `handleFileUpload`. */
    method HandleFileUpload(files: Option<seq<PickedFile>>)
      modifies this
      ensures State() == AfterUpload(old(State()), files)
    {
      if files.None? {
        return;
      }
      attachments := attachments + UploadsOf(files.value);
    }

    /** `removeFile`. */
    method RemoveFile(fileId: string)
      modifies this
      ensures State() == AfterRemove(old(State()), fileId)
    {
      attachments := WithoutFile(attachments, fileId);
    }

    /** `toggleAssignmentStatus`. */
    method ToggleAssignmentStatus(id: int)
      modifies this
      ensures State() == AfterToggle(old(State()), id)
    {
      assignments := Toggled(assignments, id);
    }

    /** `openAssignmentDetails`. */
    method OpenAssignmentDetails(a: Assignment)
      modifies this
      ensures State() == AfterOpen(old(State()), a)
    {
      selected := Some(a);
      detailOpen := true;
      draft := StoredDraft(answers, a.id);
      attachments := [];
    }

    /** `addSymbolToAnswer`. */
    method AddSymbolToAnswer(symbol: string)
      modifies this
      ensures State() == AfterSymbol(old(State()), symbol)
    {
      draft := draft + symbol;
    }

    /** The textarea's change handler. */
    method TypeAnswer(text: string)
      modifies this
      ensures State() == AfterTyping(old(State()), text)
    {
      draft := text;
    }

    /** A calculator key; `outcome` is what evaluating the draft would give. */
    method PressCalculatorKey(key: string, outcome: Option<string>)
      modifies this
      ensures State() == AfterKey(old(State()), key, outcome)
    {
      if key == "=" {
        draft := if outcome.Some? then outcome.value else "Error";
      } else {
        draft := draft + key;
      }
    }

    /** `handleSubmit`. */
    method HandleSubmit()
      modifies this
      ensures State() == AfterSubmit(old(State()))
    {
      if selected.None? {
        return;
      }
      var id := selected.value.id;
      if mode == Submit {
        assignments := Submitted(assignments, id, draft, attachments);
        answers := answers[id := draft];
        attachments := [];
        detailOpen := false;
      } else {
        answers := answers[id := draft];
      }
    }

    /** The Submit or Hold button as written. */
    method PressAsWritten(clicked: SubmitMode)
      modifies this
      ensures State() == AfterPressAsWritten(old(State()), clicked)
    {
      HandleSubmit();
      mode := clicked;
    }

    /** The Submit or Hold button as intended. */
    method Press(clicked: SubmitMode)
      modifies this
      ensures State() == AfterPress(old(State()), clicked)
    {
      mode := clicked;
      HandleSubmit();
    }

    /** The dialog's `onOpenChange(false)`. */
    method CloseDetails()
      modifies this
      ensures State() == AfterClose(old(State()))
    {
      detailOpen := false;
    }

    /** A render of the page, which evaluates the "All" tab's sort whichever
        tab is shown. */
    method RenderAllTab()
      modifies this
      ensures State() == AfterAllTab(old(State()))
    {
      assignments := AllOrder(assignments);
    }
  }
}
