/** The task routes: creating a task at the end of its list, reading,
    editing, moving between lists of the same board, deleting, searching a
    board's tasks page by page, and the bulk update the drag-and-drop
    client sends. */
module TaskRoutes {
  import opened Wrappers
  import opened Seqs
  import opened Text
  import opened Schema
  import opened Store

  /** The body of `POST /tasks`. */
  datatype NewTaskFields = NewTaskFields(
    title: Option<string>, description: Option<string>, listId: Option<Id>,
    assignedTo: Option<seq<Id>>, labels: Option<seq<Label>>, dueDate: Option<int>)

  /** The body of `PUT /tasks/:id`; `dueDate` is `Some(None)` for an
      explicit `null`. */
  datatype TaskPatch = TaskPatch(
    title: Option<string>, description: Option<string>, assignedTo: Option<seq<Id>>,
    labels: Option<seq<Label>>, dueDate: Option<Option<int>>, completed: Option<bool>,
    position: Option<int>)

  /** One element of `taskPositions` in `PUT /tasks/reorder/positions`. */
  datatype TaskPos = TaskPos(taskId: Id, listId: Id, position: int)

  /** The body of `GET /tasks/board/:boardId/search`. */
  datatype SearchPage = SearchPage(tasks: seq<Task>, currentPage: int, totalPages: Option<int>, total: nat)

  /** No two lists share an id (the store's primary key). */
  ghost predicate ListIdsUnique(st: Store) {
    forall i, j :: 0 <= i < |st.lists| && 0 <= j < |st.lists| && st.lists[i].id == st.lists[j].id ==> i == j
  }

  /** The positions of the tasks of list `list`, in store order. */
  function TaskPositionsOf(tasks: seq<Task>, list: Id): (r: seq<int>)
    ensures forall i :: 0 <= i < |r| ==> exists t :: t in tasks && t.list == list && t.position == r[i]
    ensures forall t :: t in tasks && t.list == list ==> t.position in r
  {
    var sibs := Filter(tasks, InTaskList(list));
    FilterMembers(tasks, InTaskList(list));
    var r := seq(|sibs|, i requires 0 <= i < |sibs| => sibs[i].position);
    assert forall t :: t in sibs ==> t.position in r by {
      forall t | t in sibs ensures t.position in r {
        var k :| 0 <= k < |sibs| && sibs[k] == t;
        assert r[k] == t.position;
      }
    }
    assert forall i :: 0 <= i < |r| ==> sibs[i] in sibs && r[i] == sibs[i].position;
    r
  }

  /** `t => t.list === list`. */
  function InTaskList(list: Id): Task -> bool {
    (t: Task) => t.list == list
  }

  /** The task `POST /tasks` builds for list `l` before validation: the
      next id, one past the highest position in the list, the list's board,
      the schema's defaults for what the request leaves out. */
  function Draft(st: Store, caller: Id, title: string, l: List, req: NewTaskFields): (t: Task)
    ensures t.id == st.nextId && t.list == l.id && t.board == l.board
    ensures t.title == Trim(title) && t.createdBy == caller && !t.completed
    ensures t.description == req.description.GetOr("")
    ensures t.assignedTo == req.assignedTo.GetOr([]) && t.labels == req.labels.GetOr([])
    ensures t.dueDate == req.dueDate && t.updatedAt == st.clock
    ensures forall x :: x in st.tasks && x.list == l.id ==> x.position < t.position
    ensures (forall x :: x in st.tasks ==> x.list != l.id) ==> t.position == 0
  {
    TrimIdempotent(title);
    NewTask(st.nextId, Trim(title), req.description, l.id, l.board,
            req.assignedTo.GetOr([]), NextTaskPosition(st.tasks, l.id), req.labels.GetOr([]),
            req.dueDate, caller, st.clock)
  }

  /** One past the highest position among the list's tasks, or 0 for an
      empty list. */
  function NextTaskPosition(tasks: seq<Task>, list: Id): (p: int)
    ensures forall x :: x in tasks && x.list == list ==> x.position < p
    ensures (forall x :: x in tasks ==> x.list != list) ==> p == 0
    ensures (exists x :: x in tasks && x.list == list) ==>
      exists x :: x in tasks && x.list == list && x.position == p - 1
  {
    var ps := TaskPositionsOf(tasks, list);
    assert |ps| > 0 ==> exists t :: t in tasks && t.list == list && t.position == ps[0];
    NextPosition(ps)
  }

  /** The write behind `POST /tasks` once list and access are settled: the
      drafted task is validated, appended and its creation logged; a task
      the schema rejects is a 500 with nothing written. */
  function InsertTask(st: Store, caller: Id, title: string, l: List, req: NewTaskFields, logFault: bool): (r: Reply<Task>)
    ensures !r.status.IsSuccess() ==> r.store == st && r.status == ServerError
    ensures r.status.IsSuccess() ==>
      && r.status == Created && r.body.Some?
      && var t := r.body.value;
      && t.id == st.nextId && t.list == l.id && t.board == l.board
      && t.title == Trim(title) && t.createdBy == caller && !t.completed
      && t.description == req.description.GetOr("")
      && t.assignedTo == req.assignedTo.GetOr([]) && t.labels == req.labels.GetOr([])
      && t.dueDate == req.dueDate
      && (forall x :: x in st.tasks && x.list == t.list ==> x.position < t.position)
      && ((forall x :: x in st.tasks ==> x.list != t.list) ==> t.position == 0)
      && r.store.tasks == st.tasks + [t]
      && r.store.boards == st.boards && r.store.lists == st.lists
      && (!logFault ==>
            r.store.activities == st.activities
            + [Activity(st.nextId + 1, t.board, caller, TaskCreated, TaskEntity, t.id,
                        TitleDetails(t.title), st.clock + 1)])
      && (logFault ==> r.store.activities == st.activities)
  {
    var t := Draft(st, caller, title, l, req);
    match SaveTask(t, st.clock)
    case None => Fail(st, ServerError)
    case Some(saved) =>
      var st1 := st.(tasks := st.tasks + [saved], nextId := st.nextId + 1, clock := st.clock + 1);
      var logged := LogActivity(st1, l.board, caller, TaskCreated, TaskEntity, saved.id,
                                TitleDetails(Trim(title)), logFault, RouteIo);
      Reply(logged.store, Created, Some(saved))
  }

  /** What the Task schema demands of a new task in list `l`: the trimmed
      title has 1 to 200 UTF-16 units, the description at most 2000, the
      next position of the list is not negative, and every label passes. */
  predicate DraftSaves(st: Store, title: string, l: List, req: NewTaskFields) {
    && 1 <= Utf16Length(Trim(title)) <= TaskTitleMax
    && Utf16Length(req.description.GetOr("")) <= TaskDescriptionMax
    && NextTaskPosition(st.tasks, l.id) >= 0
    && forall i :: 0 <= i < |req.labels.GetOr([])| ==> ValidLabel(req.labels.GetOr([])[i])
  }

  /** `POST /tasks`: 400 when the title or the list id is missing or empty;
      404 for an unknown list, 500 when the list's board is gone, 403
      without access. The task goes one past the highest position of its
      list, takes its board from the list, and gets no assignees or labels
      unless given. A blank title passes the 400 check, is trimmed to
      nothing and rejected by the schema (a 500). */
  function CreateTask(st: Store, caller: Id, req: NewTaskFields, logFault: bool): (r: Reply<Task>)
    ensures req.title.None? || req.title.value == "" || req.listId.None? ==> r.status == BadRequest
    ensures req.title.Some? && req.title.value != "" && req.listId.Some? && FindList(st, req.listId.value).None?
            ==> r.status == NotFound
    ensures req.title.Some? && req.title.value != "" && req.listId.Some? && FindList(st, req.listId.value).Some?
            && GateByRef(st, FindList(st, req.listId.value).value.board, caller).Failure?
            ==> r.status == GateByRef(st, FindList(st, req.listId.value).value.board, caller).error
    ensures !r.status.IsSuccess() ==> r.store == st
    ensures r.status.IsSuccess() ==>
      && req.title.Some? && req.listId.Some? && FindList(st, req.listId.value).Some?
      && GateByRef(st, FindList(st, req.listId.value).value.board, caller).Success?
      && r == InsertTask(st, caller, req.title.value, FindList(st, req.listId.value).value, req, logFault)
  {
    if req.title.None? || req.title.value == "" || req.listId.None? then Fail(st, BadRequest)
    else
      match FindList(st, req.listId.value)
      case None => Fail(st, NotFound)
      case Some(l) =>
        match GateByRef(st, l.board, caller)
        case Failure(e) => Fail(st, e)
        case Success(_) => InsertTask(st, caller, req.title.value, l, req, logFault)
  }

  /** The insertion succeeds exactly when the drafted task passes the
      schema: title, description, position and labels. */
  lemma InsertTaskAccepts(st: Store, caller: Id, title: string, l: List, req: NewTaskFields, logFault: bool)
    ensures InsertTask(st, caller, title, l, req, logFault).status.IsSuccess() <==> DraftSaves(st, title, l, req)
  {
    DraftValid(st, caller, title, l, req);
  }

  /** The drafted task passes the schema exactly when `DraftSaves` holds. */
  lemma DraftValid(st: Store, caller: Id, title: string, l: List, req: NewTaskFields)
    ensures ValidTask(Draft(st, caller, title, l, req)) <==> DraftSaves(st, title, l, req)
  {
    var t := Draft(st, caller, title, l, req);
    assert t.position == NextTaskPosition(st.tasks, l.id);
    ValidTaskOf(t, Trim(title), req.description.GetOr(""), t.position, req.labels.GetOr([]));
  }

  /** `ValidTask` read off the fields it looks at. */
  lemma ValidTaskOf(t: Task, title: string, description: string, position: int, labels: seq<Label>)
    requires t.title == title && t.description == description && t.position == position && t.labels == labels
    ensures ValidTask(t) <==>
      && 1 <= Utf16Length(title) <= TaskTitleMax && Utf16Length(description) <= TaskDescriptionMax
      && position >= 0 && forall i :: 0 <= i < |labels| ==> ValidLabel(labels[i])
  {
  }

  /** `POST /tasks` answers 201 exactly when the title and list id are
      given, the list exists, its board admits the caller and the drafted
      task passes the schema. */
  lemma CreateTaskAccepts(st: Store, caller: Id, req: NewTaskFields, logFault: bool)
    ensures CreateTask(st, caller, req, logFault).status == Created <==>
      && req.title.Some? && req.title.value != "" && req.listId.Some? && FindList(st, req.listId.value).Some?
      && GateByRef(st, FindList(st, req.listId.value).value.board, caller).Success?
      && DraftSaves(st, req.title.value, FindList(st, req.listId.value).value, req)
  {
    if req.title.Some? && req.title.value != "" && req.listId.Some? && FindList(st, req.listId.value).Some? {
      InsertTaskAccepts(st, caller, req.title.value, FindList(st, req.listId.value).value, req, logFault);
    }
  }

  /** Two tasks created one after the other in a list that had none get
      positions 0 and then 1. */
  lemma TwoTasksInFreshList(st: Store, caller: Id, req1: NewTaskFields, req2: NewTaskFields, f1: bool, f2: bool)
    requires req1.listId.Some? && req2.listId == req1.listId
    requires forall x :: x in st.tasks ==> x.list != req1.listId.value
    ensures var r1 := CreateTask(st, caller, req1, f1);
      var r2 := CreateTask(r1.store, caller, req2, f2);
      r1.status.IsSuccess() && r2.status.IsSuccess() ==>
        r1.body.value.position == 0 && r2.body.value.position == 1
  {
    var r1 := CreateTask(st, caller, req1, f1);
    var r2 := CreateTask(r1.store, caller, req2, f2);
    if r1.status.IsSuccess() && r2.status.IsSuccess() {
      var l := FindList(st, req1.listId.value).value;
      var i1 := InsertTask(st, caller, req1.title.value, l, req1, f1);
      assert r1 == i1;
      assert FindList(i1.store, req1.listId.value) == FindList(st, req1.listId.value) by {
        assert i1.store.lists == st.lists;
      }
      TwoInsertsInFreshList(st, caller, l, req1.title.value, req1, f1, req2.title.value, req2, f2);
    }
  }

  /** The same at the level of the insertion into a given list. */
  lemma TwoInsertsInFreshList(st: Store, caller: Id, l: List, title1: string, req1: NewTaskFields, f1: bool,
                              title2: string, req2: NewTaskFields, f2: bool)
    requires forall x :: x in st.tasks ==> x.list != l.id
    ensures var r1 := InsertTask(st, caller, title1, l, req1, f1);
      var r2 := InsertTask(r1.store, caller, title2, l, req2, f2);
      r1.status.IsSuccess() && r2.status.IsSuccess() ==>
        r1.body.value.position == 0 && r2.body.value.position == 1
  {
    var r1 := InsertTask(st, caller, title1, l, req1, f1);
    if r1.status.IsSuccess() {
      var t1 := r1.body.value;
      InsertTaskPosition(r1.store, caller, title2, l, req2, f2);
      OnlyTaskOfList(st.tasks, t1, l.id);
    }
  }

  /** A successful insertion takes the list's next position. */
  lemma InsertTaskPosition(st: Store, caller: Id, title: string, l: List, req: NewTaskFields, logFault: bool)
    ensures var r := InsertTask(st, caller, title, l, req, logFault);
      r.status.IsSuccess() ==> r.body.value.position == NextTaskPosition(st.tasks, l.id)
  {
  }

  /** After one task appended at position 0 to a list that had none, the
      next position is 1. */
  lemma OnlyTaskOfList(prev: seq<Task>, t: Task, list: Id)
    requires forall x :: x in prev ==> x.list != list
    requires t.list == list && t.position == 0
    ensures NextTaskPosition(prev + [t], list) == 1
  {
    var p := NextTaskPosition(prev + [t], list);
    assert t in prev + [t];
    var x :| x in prev + [t] && x.list == list && x.position == p - 1;
    assert x !in prev;
  }

  /** `GET /tasks/:id`: 404, then 500 for a dangling board, then 403. */
  function GetTask(st: Store, caller: Id, id: Id): (r: Reply<Task>)
    ensures r.store == st
    ensures FindTask(st, id).None? ==> r.status == NotFound
    ensures FindTask(st, id).Some? && GateByRef(st, FindTask(st, id).value.board, caller).Failure?
            ==> r.status == GateByRef(st, FindTask(st, id).value.board, caller).error
    ensures r.status == Ok <==> FindTask(st, id).Some? && GateByRef(st, FindTask(st, id).value.board, caller).Success?
    ensures r.status == Ok ==> r.body == Some(FindTask(st, id).value)
  {
    match FindTask(st, id)
    case None => Fail(st, NotFound)
    case Some(t) =>
      match GateByRef(st, t.board, caller)
      case Failure(e) => Fail(st, e)
      case Success(_) => Reply(st, Ok, Some(t))
  }

  /** The task as `PUT /tasks/:id` changes it before saving: a non-empty
      title (trimmed by the schema setter, with no request sanitizer in
      front), and every other given field; `assignedTo` and `labels` are
      arrays, so even an empty one is taken. */
  function Patched(t: Task, p: TaskPatch): (u: Task)
    ensures u.id == t.id && u.list == t.list && u.board == t.board && u.createdBy == t.createdBy
    ensures u.title == (if p.title.Some? && p.title.value != "" then Trim(p.title.value) else t.title)
    ensures u.description == p.description.GetOr(t.description)
    ensures u.assignedTo == p.assignedTo.GetOr(t.assignedTo) && u.labels == p.labels.GetOr(t.labels)
    ensures u.dueDate == p.dueDate.GetOr(t.dueDate) && u.completed == p.completed.GetOr(t.completed)
    ensures u.position == p.position.GetOr(t.position) && u.updatedAt == t.updatedAt
  {
    t.(title := if p.title.Some? && p.title.value != "" then Trim(p.title.value) else t.title,
       description := p.description.GetOr(t.description),
       assignedTo := p.assignedTo.GetOr(t.assignedTo),
       labels := p.labels.GetOr(t.labels),
       dueDate := p.dueDate.GetOr(t.dueDate),
       completed := p.completed.GetOr(t.completed),
       position := p.position.GetOr(t.position))
  }

  /** `PUT /tasks/:id`: 404, then 500 for a dangling board, then 403; the
      patched task is validated (a 500 when it fails) and saved. */
  function UpdateTask(st: Store, caller: Id, id: Id, patch: TaskPatch, logFault: bool): (r: Reply<Task>)
    ensures FindTask(st, id).None? ==> r.status == NotFound
    ensures FindTask(st, id).Some? && GateByRef(st, FindTask(st, id).value.board, caller).Failure?
            ==> r.status == GateByRef(st, FindTask(st, id).value.board, caller).error
    ensures r.status == Ok <==>
      && FindTask(st, id).Some? && GateByRef(st, FindTask(st, id).value.board, caller).Success?
      && ValidTask(Patched(FindTask(st, id).value, patch))
    ensures !r.status.IsSuccess() ==> r.store == st
    ensures r.status.IsSuccess() ==>
      && r.status == Ok && r.body.Some? && FindTask(st, id).Some?
      && var prev := FindTask(st, id).value;
      && GateByRef(st, prev.board, caller).Success?
      && r.body.value == Patched(prev, patch).(updatedAt := st.clock)
      && ValidTask(r.body.value)
      && TaskReplaced(st.tasks, r.store.tasks, id, r.body.value)
      && r.store.boards == st.boards && r.store.lists == st.lists
      && (!logFault ==>
            r.store.activities == st.activities
            + [Activity(st.nextId, prev.board, caller, TaskUpdated, TaskEntity, id,
                        TitleDetails(r.body.value.title), st.clock + 1)])
      && (logFault ==> r.store.activities == st.activities)
  {
    match FindTask(st, id)
    case None => Fail(st, NotFound)
    case Some(prev) =>
      match GateByRef(st, prev.board, caller)
      case Failure(e) => Fail(st, e)
      case Success(_) =>
        match SaveTask(Patched(prev, patch), st.clock)
        case None => Fail(st, ServerError)
        case Some(saved) =>
          var st1 := st.(tasks := Replace(st.tasks, (x: Task) => x.id == id, saved), clock := st.clock + 1);
          var logged := LogActivity(st1, prev.board, caller, TaskUpdated, TaskEntity, id,
                                    TitleDetails(saved.title), logFault, RouteIo);
          Reply(logged.store, Ok, Some(saved))
  }

  /** A blank title reaches the schema through `PUT /tasks/:id` (it is a
      non-empty string, so truthy) and is trimmed to nothing: the update
      fails with a 500 and nothing changes. */
  lemma BlankTaskTitleFails(st: Store, caller: Id, id: Id, patch: TaskPatch, logFault: bool)
    requires FindTask(st, id).Some? && GateByRef(st, FindTask(st, id).value.board, caller).Success?
    requires patch.title.Some? && patch.title.value != "" && AllSpace(patch.title.value)
    ensures UpdateTask(st, caller, id, patch, logFault).status == ServerError
    ensures UpdateTask(st, caller, id, patch, logFault).store == st
  {
    TrimEmptyIff(patch.title.value);
  }

  /** `PUT /tasks/:id/move`: 404, then 500 for a dangling board, then 403;
      400 when the target list is missing or on another board; a missing
      position fails validation (a 500), as does a negative one. Only the
      list and the position change. */
  function MoveTask(st: Store, caller: Id, id: Id, listId: Option<Id>, position: Option<int>, logFault: bool): (r: Reply<Task>)
    ensures FindTask(st, id).None? ==> r.status == NotFound
    ensures FindTask(st, id).Some? && GateByRef(st, FindTask(st, id).value.board, caller).Failure?
            ==> r.status == GateByRef(st, FindTask(st, id).value.board, caller).error
    ensures FindTask(st, id).Some? && GateByRef(st, FindTask(st, id).value.board, caller).Success?
            && (listId.None? || FindList(st, listId.value).None?
                || FindList(st, listId.value).value.board != FindTask(st, id).value.board)
            ==> r.status == BadRequest
    ensures r.status == Ok <==>
      && FindTask(st, id).Some? && GateByRef(st, FindTask(st, id).value.board, caller).Success?
      && listId.Some? && FindList(st, listId.value).Some?
      && FindList(st, listId.value).value.board == FindTask(st, id).value.board
      && position.Some? && position.value >= 0
      && ValidTask(FindTask(st, id).value.(position := 0))
    ensures !r.status.IsSuccess() ==> r.store == st
    ensures r.status.IsSuccess() ==>
      && r.status == Ok && r.body.Some? && FindTask(st, id).Some? && listId.Some? && position.Some?
      && var prev := FindTask(st, id).value;
      && FindList(st, listId.value).Some? && FindList(st, listId.value).value.board == prev.board
      && r.body.value == prev.(list := listId.value, position := position.value, updatedAt := st.clock)
      && position.value >= 0
      && TaskReplaced(st.tasks, r.store.tasks, id, r.body.value)
      && r.store.boards == st.boards && r.store.lists == st.lists
      && (!logFault ==>
            r.store.activities == st.activities
            + [Activity(st.nextId, prev.board, caller, TaskMoved, TaskEntity, id,
                        MoveDetails(prev.title, prev.list, listId.value), st.clock + 1)])
      && (logFault ==> r.store.activities == st.activities)
  {
    match FindTask(st, id)
    case None => Fail(st, NotFound)
    case Some(prev) =>
      match GateByRef(st, prev.board, caller)
      case Failure(e) => Fail(st, e)
      case Success(_) =>
        if listId.None? || FindList(st, listId.value).None?
           || FindList(st, listId.value).value.board != prev.board then Fail(st, BadRequest)
        else if position.None? then Fail(st, ServerError)
        else
          match SaveTask(prev.(list := listId.value, position := position.value), st.clock)
          case None => Fail(st, ServerError)
          case Some(saved) =>
            var st1 := st.(tasks := Replace(st.tasks, (x: Task) => x.id == id, saved), clock := st.clock + 1);
            var logged := LogActivity(st1, prev.board, caller, TaskMoved, TaskEntity, id,
                                      MoveDetails(saved.title, prev.list, listId.value), logFault, RouteIo);
            Reply(logged.store, Ok, Some(saved))
  }

  /** `DELETE /tasks/:id`: 404, then 500 for a dangling board, then 403;
      logs `task_deleted` and removes the task. */
  function DeleteTask(st: Store, caller: Id, id: Id, logFault: bool): (r: Reply<()>)
    ensures FindTask(st, id).None? ==> r.status == NotFound
    ensures FindTask(st, id).Some? && GateByRef(st, FindTask(st, id).value.board, caller).Failure?
            ==> r.status == GateByRef(st, FindTask(st, id).value.board, caller).error
    ensures r.status == Ok <==> FindTask(st, id).Some? && GateByRef(st, FindTask(st, id).value.board, caller).Success?
    ensures r.status != Ok ==> r.store == st
    ensures r.status == Ok ==>
      && r.store.boards == st.boards && r.store.lists == st.lists
      && (forall t :: t in r.store.tasks <==> t in st.tasks && t.id != id)
      && (!logFault ==>
            r.store.activities == st.activities
            + [Activity(st.nextId, FindTask(st, id).value.board, caller, TaskDeleted, TaskEntity, id,
                        TitleDetails(FindTask(st, id).value.title), st.clock)])
      && (logFault ==> r.store.activities == st.activities)
  {
    match FindTask(st, id)
    case None => Fail(st, NotFound)
    case Some(t) =>
      match GateByRef(st, t.board, caller)
      case Failure(e) => Fail(st, e)
      case Success(_) =>
        var logged := LogActivity(st, t.board, caller, TaskDeleted, TaskEntity, id,
                                  TitleDetails(t.title), logFault, RouteIo);
        FilterMembers(st.tasks, (x: Task) => x.id != id);
        Reply(logged.store.(tasks := Filter(st.tasks, (x: Task) => x.id != id)), Ok, Some(()))
  }

  // ------------------------------------------------------------ Search

  function RecentlyUpdated(t: Task): int { -t.updatedAt }

  /** A task the search selects: on the board and, when there is a pattern,
      matching it in the title or the description. */
  predicate SearchHit(t: Task, boardId: Id, pattern: Option<string -> bool>) {
    t.board == boardId && (pattern.None? || pattern.value(t.title) || pattern.value(t.description))
  }

  /** `GET /tasks/board/:boardId/search?q&page&limit` (defaults 1 and 20):
      404, then 403. A non-empty `q` is a case-insensitive regular
      expression; `compile` stands for the database's regex engine and
      answers `None` for a pattern it refuses (a 500). The hits come most
      recently updated first, `(page - 1) * limit` skipped and at most
      `|limit|` returned (no bound for 0); `total` counts every hit. */
  function SearchTasks(st: Store, caller: Id, boardId: Id, q: Option<string>, page: int, limit: int,
                       compile: string -> Option<string -> bool>): (r: Reply<SearchPage>)
    ensures r.store == st
    ensures Gate(st, boardId, caller).Failure? ==> r.status == Gate(st, boardId, caller).error
    ensures r.status == Ok <==>
      && Gate(st, boardId, caller).Success? && (page - 1) * limit >= 0
      && (q.None? || q.value == "" || compile(q.value).Some?)
    ensures r.status != Ok ==> r.body.None?
    ensures r.status == Ok ==>
      && r.body.Some?
      && var p := r.body.value;
      && var pattern := if q.None? || q.value == "" then None else compile(q.value);
      && p.currentPage == page
      && p.total == |Filter(st.tasks, (t: Task) => SearchHit(t, boardId, pattern))|
      && p.totalPages == TotalPages(p.total, limit)
      && (limit != 0 ==> |p.tasks| <= Abs(limit))
      && (forall i :: 0 <= i < |p.tasks| ==> p.tasks[i] in st.tasks && SearchHit(p.tasks[i], boardId, pattern))
      && (forall i, j :: 0 <= i < j < |p.tasks| ==> p.tasks[i].updatedAt >= p.tasks[j].updatedAt)
      && p.tasks == SkipLimit(SortBy(Filter(st.tasks, (t: Task) => SearchHit(t, boardId, pattern)), RecentlyUpdated),
                              (page - 1) * limit, Abs(limit))
  {
    match Gate(st, boardId, caller)
    case Failure(e) => Fail(st, e)
    case Success(_) =>
      var skip := (page - 1) * limit;
      if q.Some? && q.value != "" && compile(q.value).None? then Fail(st, ServerError)
      else if skip < 0 then Fail(st, ServerError)
      else
        var pattern := if q.None? || q.value == "" then None else compile(q.value);
        var hits := Filter(st.tasks, (t: Task) => SearchHit(t, boardId, pattern));
        Reply(st, Ok, Some(SearchPage(SearchWindow(hits, skip, Abs(limit)), page, TotalPages(|hits|, limit), |hits|)))
  }

  /** The window `skip`/`count` of `hits`, most recently updated first: the
      stable sort by update time, then the offset window of it. */
  function SearchWindow(hits: seq<Task>, skip: nat, count: nat): (r: seq<Task>)
    ensures r == SkipLimit(SortBy(hits, RecentlyUpdated), skip, count)
    ensures count > 0 ==> |r| <= count
    ensures forall i :: 0 <= i < |r| ==> r[i] in hits
    ensures forall i, j :: 0 <= i < j < |r| ==> r[i].updatedAt >= r[j].updatedAt
  {
    var sorted := SortBy(hits, RecentlyUpdated);
    SortByMembers(hits, RecentlyUpdated);
    SkipLimitSorted(sorted, skip, count, RecentlyUpdated);
    SkipLimitMembers(sorted, skip, count);
    var items := SkipLimit(sorted, skip, count);
    assert SortedBy(items, RecentlyUpdated);
    items
  }

  /** With a positive limit, a search page is non-empty exactly when its
      number is between 1 and the reported `totalPages`. */
  lemma SearchPageNonEmptyIff(st: Store, caller: Id, boardId: Id, q: Option<string>, page: int, limit: int,
                              compile: string -> Option<string -> bool>)
    requires page >= 1 && limit >= 1
    requires Gate(st, boardId, caller).Success?
    requires q.None? || q.value == "" || compile(q.value).Some?
    ensures var p := SearchTasks(st, caller, boardId, q, page, limit, compile).body.value;
      |p.tasks| > 0 <==> page <= p.totalPages.value
  {
    var pattern := if q.None? || q.value == "" then None else compile(q.value);
    var hits := Filter(st.tasks, (t: Task) => SearchHit(t, boardId, pattern));
    var sorted := SortBy(hits, RecentlyUpdated);
    var skip := (page - 1) * limit;
    assert skip >= 0;
    var p := SearchTasks(st, caller, boardId, q, page, limit, compile).body.value;
    assert p == SearchPage(SearchWindow(hits, skip, limit), page, TotalPages(|hits|, limit), |hits|);
    assert p.tasks == SkipLimit(sorted, skip, limit);
    assert p.totalPages == Some(CeilDiv(|hits|, limit));
    PageNonEmptyIff(sorted, page, limit);
  }

  // ----------------------------------------------------------- Reorder

  /** The task `t` as a batch leaves it: the last entry for its id sets its
      list and position; a batch that does not mention it leaves it alone. */
  function Reordered(t: Task, batch: seq<TaskPos>): Task {
    match LastWhere(batch, (e: TaskPos) => e.taskId == t.id)
    case None => t
    case Some(e) => t.(list := e.listId, position := e.position)
  }

  /** One `Task.findByIdAndUpdate(taskId, { list: listId, position })`:
      no validators, no save hook, no check of the list's board; an unknown
      id changes nothing. */
  function SetTaskPosition(tasks: seq<Task>, e: TaskPos): (r: seq<Task>)
    ensures |r| == |tasks|
    ensures forall i :: 0 <= i < |tasks| ==>
      r[i] == if tasks[i].id == e.taskId then tasks[i].(list := e.listId, position := e.position) else tasks[i]
  {
    seq(|tasks|, i requires 0 <= i < |tasks| =>
      if tasks[i].id == e.taskId then tasks[i].(list := e.listId, position := e.position) else tasks[i])
  }

  /** The updates of a batch, applied in array order: each task ends up as
      `Reordered` describes. */
  function ApplyTaskPositions(tasks: seq<Task>, batch: seq<TaskPos>): (r: seq<Task>)
    ensures |r| == |tasks|
    ensures forall i :: 0 <= i < |tasks| ==> r[i] == Reordered(tasks[i], batch)
    decreases |batch|
  {
    if |batch| == 0 then tasks
    else ApplyTaskPositions(SetTaskPosition(tasks, batch[0]), batch[1..])
  }

  /** `PUT /tasks/reorder/positions`: 400 unless `taskPositions` is an
      array; otherwise every entry's task takes the entry's list and
      position. No access check, no validation, no activity, no `updatedAt`. */
  function ReorderTasks(st: Store, taskPositions: Option<seq<TaskPos>>): (r: Reply<()>)
    ensures taskPositions.None? <==> r.status == BadRequest
    ensures taskPositions.Some? ==> r.status == Ok
    ensures r.store.boards == st.boards && r.store.lists == st.lists && r.store.activities == st.activities
    ensures r.store.nextId == st.nextId && r.store.clock == st.clock
    ensures |r.store.tasks| == |st.tasks|
    ensures forall i :: 0 <= i < |st.tasks| ==>
      && r.store.tasks[i].(list := st.tasks[i].list, position := st.tasks[i].position) == st.tasks[i]
      && (taskPositions.None? ==> r.store.tasks[i] == st.tasks[i])
      && (taskPositions.Some? ==> r.store.tasks[i] == Reordered(st.tasks[i], taskPositions.value))
  {
    match taskPositions
    case None => Fail(st, BadRequest)
    case Some(batch) => Reply(st.(tasks := ApplyTaskPositions(st.tasks, batch)), Ok, Some(()))
  }

  lemma ReorderTasksIdempotent(st: Store, batch: seq<TaskPos>)
    ensures ReorderTasks(ReorderTasks(st, Some(batch)).store, Some(batch)).store
         == ReorderTasks(st, Some(batch)).store
  {
    var once := ReorderTasks(st, Some(batch)).store;
    var twice := ReorderTasks(once, Some(batch)).store;
    assert twice.tasks == once.tasks;
  }

  /** The bulk update can move a task into a list of another board, which
      `PUT /tasks/:id/move` refuses: the task keeps its old `board`, so it no
      longer agrees with its list. */
  lemma ReorderTasksCanBreakAgreement()
    ensures var mine := List(1, "To do", 10, 0, 0);
      var theirs := List(2, "Elsewhere", 20, 0, 0);
      var t := Task(3, "Task", "", 1, 10, [], 0, [], None, false, 5, 0);
      var st := Store([], [mine, theirs], [t], [], 4, 0);
      TasksAgreeWithLists(st)
      && !TasksAgreeWithLists(ReorderTasks(st, Some([TaskPos(3, 2, 0)])).store)
  {
    var mine := List(1, "To do", 10, 0, 0);
    var theirs := List(2, "Elsewhere", 20, 0, 0);
    var t := Task(3, "Task", "", 1, 10, [], 0, [], None, false, 5, 0);
    var st := Store([], [mine, theirs], [t], [], 4, 0);
    var after := ReorderTasks(st, Some([TaskPos(3, 2, 0)])).store;
    assert after.tasks[0] == t.(list := 2, position := 0);
    assert after.tasks[0] in after.tasks && theirs in after.lists;
  }

  // ---------------------------------------------------------- Invariants

  /** Every task route except the bulk update keeps tasks in agreement with
      their lists, provided list ids are unique. */
  lemma CreateTaskKeepsTasksAgreeing(st: Store, caller: Id, req: NewTaskFields, logFault: bool)
    requires TasksAgreeWithLists(st) && ListIdsUnique(st)
    ensures TasksAgreeWithLists(CreateTask(st, caller, req, logFault).store)
  {
    var r := CreateTask(st, caller, req, logFault);
    if r.status.IsSuccess() {
      var l := FindList(st, req.listId.value).value;
      InsertTaskKeepsTasksAgreeing(st, caller, req.title.value, l, req, logFault);
    }
  }

  /** A task inserted into a list of the store takes that list's board, so
      agreement survives the insertion. */
  lemma InsertTaskKeepsTasksAgreeing(st: Store, caller: Id, title: string, l: List, req: NewTaskFields, logFault: bool)
    requires TasksAgreeWithLists(st) && ListIdsUnique(st) && l in st.lists
    ensures TasksAgreeWithLists(InsertTask(st, caller, title, l, req, logFault).store)
  {
    var r := InsertTask(st, caller, title, l, req, logFault);
    if r.status.IsSuccess() {
      AppendKeepsTasksAgreeing(st, r.store, r.body.value, l);
    }
  }

  /** Appending a task whose list and board are those of a stored list keeps
      agreement, because no other list has that id. */
  lemma AppendKeepsTasksAgreeing(st: Store, st': Store, t: Task, l: List)
    requires TasksAgreeWithLists(st) && ListIdsUnique(st) && l in st.lists
    requires t.list == l.id && t.board == l.board
    requires st'.tasks == st.tasks + [t] && st'.lists == st.lists
    ensures TasksAgreeWithLists(st')
  {
    forall x, y | x in st'.tasks && y in st'.lists && x.list == y.id
      ensures x.board == y.board
    {
      if x == t {
        var i :| 0 <= i < |st.lists| && st.lists[i] == y;
        var j :| 0 <= j < |st.lists| && st.lists[j] == l;
        assert i == j;
      } else {
        assert x in st.tasks;
      }
    }
  }

  lemma UpdateTaskKeepsTasksAgreeing(st: Store, caller: Id, id: Id, patch: TaskPatch, logFault: bool)
    requires TasksAgreeWithLists(st)
    ensures TasksAgreeWithLists(UpdateTask(st, caller, id, patch, logFault).store)
  {
    var r := UpdateTask(st, caller, id, patch, logFault);
    if r.status.IsSuccess() {
      forall t, l | t in r.store.tasks && l in r.store.lists && t.list == l.id
        ensures t.board == l.board
      {
        var i :| 0 <= i < |r.store.tasks| && r.store.tasks[i] == t;
        assert st.tasks[i] in st.tasks;
      }
    }
  }

  lemma MoveTaskKeepsTasksAgreeing(st: Store, caller: Id, id: Id, listId: Option<Id>, position: Option<int>, logFault: bool)
    requires TasksAgreeWithLists(st) && ListIdsUnique(st)
    ensures TasksAgreeWithLists(MoveTask(st, caller, id, listId, position, logFault).store)
  {
    var r := MoveTask(st, caller, id, listId, position, logFault);
    if r.status.IsSuccess() {
      var target := FindList(st, listId.value).value;
      forall t, l | t in r.store.tasks && l in r.store.lists && t.list == l.id
        ensures t.board == l.board
      {
        var i :| 0 <= i < |r.store.tasks| && r.store.tasks[i] == t;
        if st.tasks[i].id == id {
          var j :| 0 <= j < |st.lists| && st.lists[j] == l;
          var k :| 0 <= k < |st.lists| && st.lists[k] == target;
        } else {
          assert st.tasks[i] in st.tasks;
        }
      }
    }
  }

  lemma DeleteTaskKeepsTasksAgreeing(st: Store, caller: Id, id: Id, logFault: bool)
    requires TasksAgreeWithLists(st)
    ensures TasksAgreeWithLists(DeleteTask(st, caller, id, logFault).store)
  {
  }
}
