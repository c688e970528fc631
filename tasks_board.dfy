/** The task board: a list of tasks fetched with a client-side join to their
    authors' profiles, a status filter with per-status counts, a create/edit
    form, and the overdue / due-today classification of each task. */
module TasksBoard {
  import opened Backend
  import opened Text
  import opened Lists

  /** The `task_status` enumeration of the tasks table. */
  datatype TaskStatus = Todo | Doing | Done

  /** The board's filter: every task, or the tasks of one status. */
  datatype StatusFilter = All | Only(status: TaskStatus)

  /** The author fields attached to a task for display. */
  datatype AuthorProfile = AuthorProfile(name: string, avatarColor: Option<string>)

  /** A row of the profile lookup (`user_id, name, avatar_color`). */
  datatype ProfileRow = ProfileRow(userId: string, name: string, avatarColor: Option<string>)

  /** A row of the tasks table. Dates are kept as the strings the table
      holds; `createdAt` is only used by the backend's ordering. */
  datatype TaskRow = TaskRow(
    id: string,
    userId: string,
    title: string,
    description: Option<string>,
    dueDate: Option<string>,
    status: TaskStatus,
    createdAt: string)

  /** A task as the board holds it: its row and, when the lookup found the
      author, the author's profile. */
  datatype Task = Task(row: TaskRow, profile: Option<AuthorProfile>)

  // ---------------------------------------------------------------------
  // The two-step join of fetchTasks
  // ---------------------------------------------------------------------

  /** The user ids the profile lookup asks for: every task's author, once. */
  function UserIds(rows: seq<TaskRow>): (ids: seq<string>)
    ensures NoDuplicates(ids)
    ensures forall u :: u in ids <==> exists i :: 0 <= i < |rows| && rows[i].userId == u
  {
    var authors := seq(|rows|, i requires 0 <= i < |rows| => rows[i].userId);
    assert forall i :: 0 <= i < |rows| ==> authors[i] == rows[i].userId;
    Distinct(authors)
  }

  function AuthorOf(p: ProfileRow): AuthorProfile
  {
    AuthorProfile(p.name, p.avatarColor)
  }

  /** No later profile row has the same user id as row `i`. */
  predicate IsLastFor(ps: seq<ProfileRow>, i: nat)
    requires i < |ps|
  {
    forall j :: i < j < |ps| ==> ps[j].userId != ps[i].userId
  }

  /** `new Map(ps.map(p => [p.user_id, {name, avatar_color}]))`: its keys are
      exactly the user ids of the lookup. A user id that occurs more than once
      keeps its last entry (ProfilesMapLastWins). */
  function ProfilesMap(ps: seq<ProfileRow>): (m: map<string, AuthorProfile>)
    ensures forall u :: u in m <==> exists i :: 0 <= i < |ps| && ps[i].userId == u
  {
    if ps == [] then map[]
    else
      var rest := ProfilesMap(ps[1..]);
      assert forall i :: 0 < i < |ps| ==> ps[1..][i - 1] == ps[i];
      if ps[0].userId in rest then rest else rest[ps[0].userId := AuthorOf(ps[0])]
  }

  /** Later entries overwrite earlier ones: the entry kept for a user id is
      the last profile row with that id. */
  lemma {:induction false} ProfilesMapLastWins(ps: seq<ProfileRow>, i: nat)
    requires i < |ps| && IsLastFor(ps, i)
    ensures ps[i].userId in ProfilesMap(ps) && ProfilesMap(ps)[ps[i].userId] == AuthorOf(ps[i])
  {
    var rest := ProfilesMap(ps[1..]);
    if i != 0 {
      assert IsLastFor(ps[1..], i - 1) by {
        forall j | i - 1 < j < |ps[1..]| ensures ps[1..][j].userId != ps[1..][i - 1].userId {
          assert ps[1..][j] == ps[j + 1];
        }
      }
      ProfilesMapLastWins(ps[1..], i - 1);
      assert ps[1..][i - 1] == ps[i];
    }
  }

  /** Attaching `profilesMap.get(task.user_id)` to every task. */
  function AttachProfiles(rows: seq<TaskRow>, m: map<string, AuthorProfile>): (ts: seq<Task>)
    ensures |ts| == |rows|
    ensures forall i :: 0 <= i < |rows| ==> ts[i].row == rows[i]
    ensures forall i :: 0 <= i < |rows| ==> (ts[i].profile.Some? <==> rows[i].userId in m)
    ensures forall i :: 0 <= i < |rows| && ts[i].profile.Some? ==> ts[i].profile.value == m[rows[i].userId]
  {
    seq(|rows|, i requires 0 <= i < |rows| =>
      Task(rows[i], if rows[i].userId in m then Some(m[rows[i].userId]) else None))
  }

  /** The tasks with their authors attached, given the lookup's outcome; a
      failed lookup reads as no profiles (`profilesData || []`). */
  function JoinTasks(rows: seq<TaskRow>, lookup: Response<ProfileRow>): (ts: seq<Task>)
    ensures |ts| == |rows|
    ensures forall i :: 0 <= i < |rows| ==> ts[i].row == rows[i]
    ensures forall i :: 0 <= i < |rows| ==>
      (ts[i].profile.Some? <==>
        exists k :: 0 <= k < |RowsOrEmpty(lookup)| && RowsOrEmpty(lookup)[k].userId == rows[i].userId)
    ensures !lookup.Data? ==> forall i :: 0 <= i < |rows| ==> ts[i].profile.None?
  {
    AttachProfiles(rows, ProfilesMap(RowsOrEmpty(lookup)))
  }

  /** The profile attached to a task is its author's last row in the lookup. */
  lemma JoinAttachesLastProfile(rows: seq<TaskRow>, lookup: Response<ProfileRow>, i: nat, k: nat)
    requires i < |rows| && lookup.Data? && k < |lookup.rows|
    requires lookup.rows[k].userId == rows[i].userId && IsLastFor(lookup.rows, k)
    ensures JoinTasks(rows, lookup)[i].profile == Some(AuthorOf(lookup.rows[k]))
  {
    ProfilesMapLastWins(lookup.rows, k);
  }

  /** What `fetchTasks` leaves in `tasks`, given the outcome of the task
      query and of the profile lookup (the lookup is only made when the task
      query returned at least one row). */
  function FetchedTasks(query: Response<TaskRow>, lookup: Response<ProfileRow>): (ts: seq<Task>)
    ensures !query.Data? ==> ts == []
    ensures lookup.Rejected? ==> ts == []
    ensures query.Data? && !lookup.Rejected? ==> ts == JoinTasks(query.rows, lookup)
  {
    match query
    case Data(rows) =>
      if rows == [] then []
      else if lookup.Rejected? then []
      else JoinTasks(rows, lookup)
    case _ => []
  }

  // ---------------------------------------------------------------------
  // The task form
  // ---------------------------------------------------------------------

  /** The form's four controlled inputs. */
  datatype TaskForm = TaskForm(title: string, description: string, dueDate: string, status: TaskStatus)

  /** The form as `resetForm` leaves it. */
  const BlankForm := TaskForm("", "", "", Todo)

  /** The editable fields of a task, as sent to the backend. */
  datatype TaskFields = TaskFields(
    title: string,
    description: Option<string>,
    dueDate: Option<string>,
    status: TaskStatus)

  /** The write `handleSubmit` sends. */
  datatype TaskWrite = UpdateTask(id: string, fields: TaskFields) | InsertTask(userId: string, fields: TaskFields)

  /** `x || ''`: a missing text shows as the empty string. */
  function EmptyIfNull(o: Option<string>): (s: string)
    ensures s == "" <==> o.None? || o == Some("")
    ensures s != "" ==> o == Some(s)
  {
    if o.Some? then o.value else ""
  }

  /** `x || null`: the empty string is sent as `null`. */
  function NullIfEmpty(s: string): (r: Option<string>)
    ensures r.None? <==> s == ""
    ensures r.Some? ==> r.value == s
  {
    if s == "" then None else Some(s)
  }

  /** `x.trim() || null`: a blank text is sent as `null`, any other text trimmed. */
  function NullIfBlank(s: string): (r: Option<string>)
    ensures r.None? <==> IsBlank(s)
    ensures r.Some? ==> r.value != "" && IsTrimmed(r.value) && |r.value| <= |s|
    ensures r.Some? ==> r.value == Trim(s)
  {
    if Trim(s) == "" then None else Some(Trim(s))
  }

  /** Showing a stored due date in the form and sending it back gives the
      stored value again, unless it was stored as the empty string. */
  lemma NullEmptyRoundTrip(o: Option<string>)
    ensures o != Some("") ==> NullIfEmpty(EmptyIfNull(o)) == o
    ensures EmptyIfNull(NullIfEmpty(EmptyIfNull(o))) == EmptyIfNull(o)
  {
  }

  /** The author check of `!user?.id`: a signed-in user with a non-empty id. */
  predicate SignedIn(user: Option<string>): (signed: bool)
    ensures signed ==> user.Some?
    ensures user.Some? && user.value != "" ==> signed
    ensures user == Some("") ==> !signed
  {
    user.Some? && user.value != ""
  }

  /** The fields sent by either kind of write. */
  function Payload(f: TaskForm): (p: TaskFields)
    ensures p.title == Trim(f.title)
    ensures IsTrimmed(p.title) && |p.title| <= |f.title|
    ensures p.title == "" <==> IsBlank(f.title)
    ensures p.description.None? <==> IsBlank(f.description)
    ensures p.description.Some? ==> p.description.value != "" && IsTrimmed(p.description.value)
    ensures p.description.Some? ==> p.description.value == Trim(f.description)
    ensures p.dueDate.None? <==> f.dueDate == ""
    ensures p.dueDate.Some? ==> p.dueDate.value == f.dueDate
    ensures p.status == f.status
  {
    TaskFields(Trim(f.title), NullIfBlank(f.description), NullIfEmpty(f.dueDate), f.status)
  }

  /** Fields in the form the board itself sends: a non-empty trimmed title,
      no blank or untrimmed description, no empty due date. */
  predicate IsNormal(p: TaskFields)
  {
    && p.title != "" && IsTrimmed(p.title)
    && (p.description.Some? ==> p.description.value != "" && IsTrimmed(p.description.value))
    && (p.dueDate.Some? ==> p.dueDate.value != "")
  }

  /** What the form shows for given fields (`handleEdit`). */
  function FormOfFields(p: TaskFields): TaskForm
  {
    TaskForm(p.title, EmptyIfNull(p.description), EmptyIfNull(p.dueDate), p.status)
  }

  function FieldsOf(r: TaskRow): TaskFields
  {
    TaskFields(r.title, r.description, r.dueDate, r.status)
  }

  /** The form `handleEdit` fills in for a task. */
  function FormOf(r: TaskRow): TaskForm
  {
    FormOfFields(FieldsOf(r))
  }

  /** Fields in normal form survive a trip through the form unchanged. */
  lemma PayloadOfNormalFields(p: TaskFields)
    requires IsNormal(p)
    ensures Payload(FormOfFields(p)) == p
  {
    var f := FormOfFields(p);
    TrimOfTrimmed(p.title);
    var description := NullIfBlank(f.description);
    if p.description.Some? {
      TrimOfTrimmed(p.description.value);
      assert description == p.description;
    } else {
      assert description == None;
    }
    assert NullIfEmpty(f.dueDate) == p.dueDate;
    assert Payload(f) == TaskFields(p.title, description, p.dueDate, p.status);
  }

  /** Whatever the form holds, what is sent for it is in normal form and
      sending it again from a refilled form sends the same fields. */
  lemma PayloadStable(f: TaskForm)
    requires !IsBlank(f.title)
    ensures IsNormal(Payload(f))
    ensures Payload(FormOfFields(Payload(f))) == Payload(f)
  {
    PayloadOfNormalFields(Payload(f));
  }

  /** `handleSubmit`'s decision: the write it sends, or `None` when it
      rejects the form before any backend call. */
  function SubmitRequest(f: TaskForm, editing: Option<Task>, user: Option<string>): (w: Option<TaskWrite>)
    ensures w.None? <==> IsBlank(f.title) || (editing.None? && !SignedIn(user))
    ensures w.Some? ==> IsNormal(w.value.fields) && w.value.fields == Payload(f)
    ensures w.Some? ==> (w.value.UpdateTask? <==> editing.Some?)
    ensures w.Some? && editing.Some? ==> w.value.id == editing.value.row.id
    ensures w.Some? && editing.None? ==> SignedIn(user) && w.value.userId == user.value
  {
    if Trim(f.title) == "" then None
    else if editing.None? && !SignedIn(user) then None
    else if editing.Some? then Some(UpdateTask(editing.value.row.id, Payload(f)))
    else Some(InsertTask(user.value, Payload(f)))
  }

  /** Opening a task for editing and saving it untouched sends the task's
      own fields back, whoever is signed in. */
  lemma EditSubmitRoundTrip(t: Task, user: Option<string>)
    requires IsNormal(FieldsOf(t.row))
    ensures SubmitRequest(FormOf(t.row), Some(t), user) == Some(UpdateTask(t.row.id, FieldsOf(t.row)))
  {
    PayloadOfNormalFields(FieldsOf(t.row));
  }

  // ---------------------------------------------------------------------
  // Filter and counts
  // ---------------------------------------------------------------------

  /** `tasks.filter(t => t.status === s)`. */
  function WithStatus(ts: seq<Task>, s: TaskStatus): (r: seq<Task>)
    ensures |r| <= |ts|
    ensures forall t :: t in r <==> t in ts && t.row.status == s
  {
    if ts == [] then []
    else (if ts[0].row.status == s then [ts[0]] else []) + WithStatus(ts[1..], s)
  }

  /** Filtering distributes over concatenation, so the kept tasks stay in
      their original order. */
  lemma {:induction false} WithStatusConcat(a: seq<Task>, b: seq<Task>, s: TaskStatus)
    ensures WithStatus(a + b, s) == WithStatus(a, s) + WithStatus(b, s)
  {
    if a != [] {
      assert (a + b)[1..] == a[1..] + b;
      WithStatusConcat(a[1..], b, s);
    } else {
      assert a + b == b;
    }
  }

  /** A list whose every task has status `s` is kept whole. */
  lemma {:induction false} WithStatusAllMatch(ts: seq<Task>, s: TaskStatus)
    requires forall i :: 0 <= i < |ts| ==> ts[i].row.status == s
    ensures WithStatus(ts, s) == ts
  {
    if ts != [] {
      WithStatusAllMatch(ts[1..], s);
      assert ts == [ts[0]] + ts[1..];
    }
  }

  /** The list the board shows under a filter. */
  function VisibleTasks(ts: seq<Task>, filter: StatusFilter): (r: seq<Task>)
    ensures filter.All? ==> r == ts
    ensures filter.Only? ==> forall t :: t in r <==> t in ts && t.row.status == filter.status
  {
    if filter.All? then ts else WithStatus(ts, filter.status)
  }

  /** `taskCounts`. */
  datatype StatusCounts = StatusCounts(todo: nat, doing: nat, done: nat)

  function Counts(ts: seq<Task>): (c: StatusCounts)
    ensures c.todo <= |ts| && c.doing <= |ts| && c.done <= |ts|
  {
    StatusCounts(|WithStatus(ts, Todo)|, |WithStatus(ts, Doing)|, |WithStatus(ts, Done)|)
  }

  /** The count shown on the card of status `s`. */
  function CountOf(c: StatusCounts, s: TaskStatus): nat
  {
    match s
    case Todo => c.todo
    case Doing => c.doing
    case Done => c.done
  }

  /** Each card's count is the length of the list that card's filter shows. */
  lemma CountIsFilteredLength(ts: seq<Task>, s: TaskStatus)
    ensures CountOf(Counts(ts), s) == |VisibleTasks(ts, Only(s))|
  {
  }

  /** The three counts together account for every task exactly once. */
  lemma {:induction false} CountsPartition(ts: seq<Task>)
    ensures Counts(ts).todo + Counts(ts).doing + Counts(ts).done == |ts|
  {
    if ts != [] {
      CountsPartition(ts[1..]);
    }
  }

  /** Inserting one task anywhere in the list raises the count of its own
      status by one and leaves the other counts as they were. */
  lemma CountSplice(a: seq<Task>, t: Task, b: seq<Task>, s: TaskStatus)
    ensures CountOf(Counts(a + [t] + b), s) ==
      CountOf(Counts(a + b), s) + (if t.row.status == s then 1 else 0)
  {
    WithStatusConcat(a + [t], b, s);
    WithStatusConcat(a, [t], s);
    WithStatusConcat(a, b, s);
  }

  /** Clicking the card of status `k` (the filter-card handler). */
  function NextFilter(current: StatusFilter, k: TaskStatus): (r: StatusFilter)
    ensures r.All? <==> current == Only(k)
    ensures r.Only? ==> r.status == k
  {
    if current == Only(k) then All else Only(k)
  }

  /** Two clicks on the same card return to where they started exactly when
      they started with no filter or with that card's filter. */
  lemma NextFilterTwice(current: StatusFilter, k: TaskStatus)
    ensures NextFilter(NextFilter(current, k), k) == current <==> current == All || current == Only(k)
    ensures NextFilter(NextFilter(All, k), k) == All
  {
  }

  // ---------------------------------------------------------------------
  // Due-date classification
  // ---------------------------------------------------------------------

  /** `task.due_date` is truthy: present and not the empty string. */
  predicate HasDueDate(r: TaskRow)
  {
    r.dueDate.Some? && r.dueDate.value != ""
  }

  /** `isOverdue`: a due date strictly before `now` on a task not done.
      `instantOf` stands for `new Date(...)` read as a timestamp. */
  predicate IsOverdue(r: TaskRow, now: int, instantOf: string -> int): (overdue: bool)
    ensures overdue ==> HasDueDate(r)
    ensures r.status == Done ==> !overdue
  {
    HasDueDate(r) && instantOf(r.dueDate.value) < now && r.status != Done
  }

  /** `isDueToday`: the due date falls on the calendar day of `now`.
      `dayOf` stands for the local calendar day of a timestamp. */
  predicate IsDueToday(r: TaskRow, now: int, instantOf: string -> int, dayOf: int -> int): (dueToday: bool)
    ensures dueToday ==> HasDueDate(r) && dayOf(instantOf(r.dueDate.value)) == dayOf(now)
    ensures HasDueDate(r) && dayOf(instantOf(r.dueDate.value)) == dayOf(now) ==> dueToday
    ensures HasDueDate(r) && instantOf(r.dueDate.value) == now ==> dueToday
  {
    HasDueDate(r) && dayOf(instantOf(r.dueDate.value)) == dayOf(now)
  }

  /** The label in front of a task's due date. */
  datatype DueLabel = NoDueDate | Overdue | DueToday | Plain

  function DueLabelOf(r: TaskRow, now: int, instantOf: string -> int, dayOf: int -> int): (l: DueLabel)
    ensures l == NoDueDate <==> !HasDueDate(r)
    ensures l == Overdue <==> IsOverdue(r, now, instantOf)
    ensures l == DueToday <==> IsDueToday(r, now, instantOf, dayOf) && !IsOverdue(r, now, instantOf)
    ensures r.status == Done ==> l != Overdue
  {
    if !HasDueDate(r) then NoDueDate
    else if IsOverdue(r, now, instantOf) then Overdue
    else if IsDueToday(r, now, instantOf, dayOf) then DueToday
    else Plain
  }

  /** A done task is never overdue, and the status plays no part in being
      due today. */
  lemma StatusAndDueDate(r: TaskRow, s: TaskStatus, now: int, instantOf: string -> int, dayOf: int -> int)
    ensures !IsOverdue(r.(status := Done), now, instantOf)
    ensures IsDueToday(r.(status := s), now, instantOf, dayOf) == IsDueToday(r, now, instantOf, dayOf)
    ensures s != Done ==> (IsOverdue(r.(status := s), now, instantOf) <==> HasDueDate(r) && instantOf(r.dueDate.value) < now)
  {
  }

  /** The edit and delete buttons are shown only on the viewer's own tasks. */
  function ShowsOwnerActions(t: Task, viewer: Option<string>): (shown: bool)
    ensures shown <==> viewer == Some(t.row.userId)
  {
    viewer.Some? && t.row.userId == viewer.value
  }

  // ---------------------------------------------------------------------
  // The component's state
  // ---------------------------------------------------------------------

  class Board {
    var tasks: seq<Task>
    var loading: bool
    var isDialogOpen: bool
    var editingTask: Option<Task>
    var title: string
    var description: string
    var dueDate: string
    var status: TaskStatus
    var filterStatus: StatusFilter
    var submitting: bool

    /** The form's inputs as one value. */
    function Form(): TaskForm
      reads this
    {
      TaskForm(title, description, dueDate, status)
    }

    /** The list shown under the current filter. */
    function Visible(): seq<Task>
      reads this
    {
      VisibleTasks(tasks, filterStatus)
    }

    /** The state on mount, before the first fetch completes. */
    constructor ()
      ensures tasks == [] && loading && !isDialogOpen && editingTask.None?
      ensures Form() == BlankForm && filterStatus == All && !submitting
    {
      tasks := [];
      loading := true;
      isDialogOpen := false;
      editingTask := None;
      title, description, dueDate, status := "", "", "", Todo;
      filterStatus := All;
      submitting := false;
    }

    /** `fetchTasks`, given the outcomes of the task query and of the profile
        lookup; returns the user ids the lookup asked for, if it was made. */
    method FetchTasks(query: Response<TaskRow>, lookup: Response<ProfileRow>) returns (asked: Option<seq<string>>)
      modifies this
      ensures tasks == FetchedTasks(query, lookup)
      ensures !loading
      ensures asked == if query.Data? && query.rows != [] then Some(UserIds(query.rows)) else None
      ensures isDialogOpen == old(isDialogOpen) && editingTask == old(editingTask) && Form() == old(Form())
      ensures filterStatus == old(filterStatus) && submitting == old(submitting)
    {
      asked := None;
      match query {
        case Rejected =>
          // the catch clause, then the finally clause
          tasks := [];
          loading := false;
        case QueryError =>
          tasks := [];
          loading := false;
        case NullData =>
          tasks := [];
          loading := false;
        case Data(rows) =>
          if rows == [] {
            tasks := [];
            loading := false;
            return;
          }
          var userIds := UserIds(rows);
          asked := Some(userIds);
          if lookup.Rejected? {
            tasks := [];
            loading := false;
            return;
          }
          var profilesMap := ProfilesMap(RowsOrEmpty(lookup));
          tasks := AttachProfiles(rows, profilesMap);
          loading := false;
      }
    }

    /** `resetForm`. */
    method ResetForm()
      modifies this
      ensures Form() == BlankForm && editingTask.None?
      ensures tasks == old(tasks) && loading == old(loading) && isDialogOpen == old(isDialogOpen)
      ensures filterStatus == old(filterStatus) && submitting == old(submitting)
    {
      title := "";
      description := "";
      dueDate := "";
      status := Todo;
      editingTask := None;
    }

    /** The dialog's `onOpenChange`: closing it also resets the form. */
    method SetDialogOpen(open: bool)
      modifies this
      ensures isDialogOpen == open
      ensures !open ==> Form() == BlankForm && editingTask.None?
      ensures open ==> Form() == old(Form()) && editingTask == old(editingTask)
      ensures tasks == old(tasks) && loading == old(loading)
      ensures filterStatus == old(filterStatus) && submitting == old(submitting)
    {
      isDialogOpen := open;
      if !open {
        ResetForm();
      }
    }

    /** `handleEdit`: fill the form from a task and open the dialog. */
    method HandleEdit(t: Task)
      modifies this
      ensures Form() == FormOf(t.row) && editingTask == Some(t) && isDialogOpen
      ensures tasks == old(tasks) && loading == old(loading)
      ensures filterStatus == old(filterStatus) && submitting == old(submitting)
    {
      editingTask := Some(t);
      title := t.row.title;
      description := EmptyIfNull(t.row.description);
      dueDate := EmptyIfNull(t.row.dueDate);
      status := t.row.status;
      isDialogOpen := true;
    }

    /** `handleSubmit` for the signed-in `user`, given the outcome of the
        write; returns the write it sent, or `None` when it sent none. */
    method HandleSubmit(user: Option<string>, outcome: WriteResult) returns (sent: Option<TaskWrite>)
      modifies this
      ensures sent == SubmitRequest(old(Form()), old(editingTask), user)
      ensures sent.None? ==> unchanged(this)
      ensures sent.Some? && outcome.WriteOk? ==>
        Form() == BlankForm && editingTask.None? && !isDialogOpen
      ensures sent.Some? && outcome.WriteError? ==>
        Form() == old(Form()) && editingTask == old(editingTask) && isDialogOpen == old(isDialogOpen)
      ensures sent.Some? ==> !submitting
      ensures tasks == old(tasks) && loading == old(loading) && filterStatus == old(filterStatus)
    {
      var form, editing := Form(), editingTask;
      if Trim(form.title) == "" {
        return None;
      }
      if editing.None? && !SignedIn(user) {
        return None;
      }
      submitting := true;
      var fields := Payload(form);
      if editing.Some? {
        sent := Some(UpdateTask(editing.value.row.id, fields));
      } else {
        sent := Some(InsertTask(user.value, fields));
      }
      assert sent == SubmitRequest(form, editing, user);
      if outcome.WriteOk? {
        ResetForm();
        isDialogOpen := false;
      }
      submitting := false;
    }

    /** Clicking the card of status `k`. */
    method ClickStatusCard(k: TaskStatus)
      modifies this
      ensures filterStatus == NextFilter(old(filterStatus), k)
      ensures Visible() == VisibleTasks(tasks, NextFilter(old(filterStatus), k))
      ensures tasks == old(tasks) && loading == old(loading) && isDialogOpen == old(isDialogOpen)
      ensures editingTask == old(editingTask) && Form() == old(Form()) && submitting == old(submitting)
    {
      filterStatus := NextFilter(filterStatus, k);
    }
  }

  /** Editing a task and saving it untouched, on a successful write, sends the
      task's own fields and leaves the form blank and the dialog closed. */
  method EditAndSave(b: Board, t: Task, user: Option<string>) returns (sent: Option<TaskWrite>)
    requires IsNormal(FieldsOf(t.row))
    modifies b
    ensures sent == Some(UpdateTask(t.row.id, FieldsOf(t.row)))
    ensures b.Form() == BlankForm && b.editingTask.None? && !b.isDialogOpen && !b.submitting
  {
    b.HandleEdit(t);
    EditSubmitRoundTrip(t, user);
    sent := b.HandleSubmit(user, WriteOk);
  }
}
