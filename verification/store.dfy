/** The backend's persistent state as one immutable value, the response
    shape of the route handlers, the access gate shared by every route and
    the best-effort activity logger. The document store's natural order is
    insertion order: each collection is a sequence. */
module Store {
  import opened Wrappers
  import opened Seqs
  import opened Text
  import opened Schema

  /** All boards, lists, tasks and activities; `nextId` is the next fresh
      document id and `clock` the next timestamp (the model's stand-in for
      `Date.now`, advanced by every write). */
  datatype Store = Store(
    boards: seq<Board>, lists: seq<List>, tasks: seq<Task>,
    activities: seq<Activity>, nextId: nat, clock: int)

  /** The HTTP status of a handler's response. */
  datatype Status = Ok | Created | BadRequest | Forbidden | NotFound | ServerError {
    function Code(): nat {
      match this
      case Ok => 200
      case Created => 201
      case BadRequest => 400
      case Forbidden => 403
      case NotFound => 404
      case ServerError => 500
    }

    predicate IsSuccess() {
      Ok? || Created?
    }
  }

  /** A handler's result: the store after the request, the status, and the
      JSON body on success. */
  datatype Reply<T> = Reply(store: Store, status: Status, body: Option<T>)

  /** An error response; nothing was written. */
  function Fail<T>(st: Store, status: Status): (r: Reply<T>)
    requires !status.IsSuccess()
    ensures r.store == st && !r.status.IsSuccess() && r.body.None?
  {
    Reply(st, status, None)
  }

  function FindBoard(st: Store, id: Id): (r: Option<Board>)
    ensures r.Some? ==> r.value in st.boards && r.value.id == id
    ensures r.None? ==> forall i :: 0 <= i < |st.boards| ==> st.boards[i].id != id
  {
    FindWhere(st.boards, (b: Board) => b.id == id)
  }

  function FindList(st: Store, id: Id): (r: Option<List>)
    ensures r.Some? ==> r.value in st.lists && r.value.id == id
    ensures r.None? ==> forall i :: 0 <= i < |st.lists| ==> st.lists[i].id != id
  {
    FindWhere(st.lists, (l: List) => l.id == id)
  }

  function FindTask(st: Store, id: Id): (r: Option<Task>)
    ensures r.Some? ==> r.value in st.tasks && r.value.id == id
    ensures r.None? ==> forall i :: 0 <= i < |st.tasks| ==> st.tasks[i].id != id
  {
    FindWhere(st.tasks, (t: Task) => t.id == id)
  }

  /** The access rule every route repeats: the caller owns the board or is
      one of its members. */
  predicate HasAccess(b: Board, user: Id) {
    b.owner == user || user in b.members
  }

  /** The gate of the board routes: 404 when the board is absent, then 403
      when the caller has no access. */
  function Gate(st: Store, boardId: Id, user: Id): (r: Result<Board, Status>)
    ensures FindBoard(st, boardId).None? ==> r == Failure(NotFound)
    ensures FindBoard(st, boardId).Some? && !HasAccess(FindBoard(st, boardId).value, user)
            ==> r == Failure(Forbidden)
    ensures r.Success? <==> FindBoard(st, boardId).Some? && HasAccess(FindBoard(st, boardId).value, user)
    ensures r.Success? ==> r.value == FindBoard(st, boardId).value
  {
    match FindBoard(st, boardId)
    case None => Failure(NotFound)
    case Some(b) => if HasAccess(b, user) then Success(b) else Failure(Forbidden)
  }

  /** The gate of the list and task routes, which look the board up through
      the list's or task's `board` reference: a dangling reference makes
      `board.owner` throw, a 500; otherwise 403 without access. */
  function GateByRef(st: Store, boardId: Id, user: Id): (r: Result<Board, Status>)
    ensures FindBoard(st, boardId).None? ==> r == Failure(ServerError)
    ensures FindBoard(st, boardId).Some? && !HasAccess(FindBoard(st, boardId).value, user)
            ==> r == Failure(Forbidden)
    ensures r.Success? <==> FindBoard(st, boardId).Some? && HasAccess(FindBoard(st, boardId).value, user)
    ensures r.Success? ==> r.value == FindBoard(st, boardId).value
  {
    match FindBoard(st, boardId)
    case None => Failure(ServerError)
    case Some(b) => if HasAccess(b, user) then Success(b) else Failure(Forbidden)
  }

  /** `after` is `before` with every board whose id is `id` replaced by `b`:
      the store's update of one document, nothing else touched. */
  ghost predicate BoardReplaced(before: seq<Board>, after: seq<Board>, id: Id, b: Board) {
    |after| == |before|
    && forall i :: 0 <= i < |before| ==> after[i] == if before[i].id == id then b else before[i]
  }

  ghost predicate ListReplaced(before: seq<List>, after: seq<List>, id: Id, l: List) {
    |after| == |before|
    && forall i :: 0 <= i < |before| ==> after[i] == if before[i].id == id then l else before[i]
  }

  ghost predicate TaskReplaced(before: seq<Task>, after: seq<Task>, id: Id, t: Task) {
    |after| == |before|
    && forall i :: 0 <= i < |before| ==> after[i] == if before[i].id == id then t else before[i]
  }

  /** Every board lists its owner among its members. */
  ghost predicate OwnersAreMembers(st: Store) {
    forall b :: b in st.boards ==> b.owner in b.members
  }

  /** Every task's denormalised `board` equals the `board` of its list. */
  ghost predicate TasksAgreeWithLists(st: Store) {
    forall t, l :: t in st.tasks && l in st.lists && t.list == l.id ==> t.board == l.board
  }

  /** The title `PUT /boards/:id` and `PUT /lists/:id` write: the request
      sanitizer trims a given title, and one that is empty after trimming is
      falsy and leaves the previous title in place. */
  function UpdatedTitle(prev: string, requested: Option<string>): (t: string)
    ensures requested.None? ==> t == prev
    ensures requested.Some? && AllSpace(requested.value) ==> t == prev
    ensures requested.Some? && !AllSpace(requested.value) ==> t == Trim(requested.value) && t != ""
  {
    if requested.Some? then
      TrimEmptyIff(requested.value);
      if Trim(requested.value) != "" then Trim(requested.value) else prev
    else prev
  }

  /** `req.io` as the route handlers see it: the server registers the socket
      server with `app.set('io', io)` but never sets `req.io`, so it is
      always undefined. */
  const RouteIo: bool := false

  /** The result of `logActivity`: the store, and the `activity-logged`
      broadcast to room `board-<board>` when one was sent. */
  datatype Logged = Logged(store: Store, broadcast: Option<Activity>)

  /** `logActivity`: appends one activity when `Activity.create` succeeds,
      and broadcasts it when `io` is set. `fault` stands for a failure of
      the store's write; a write failure or a schema rejection is caught and
      only reported on the console, so the caller never sees an error and
      nothing but the activity log, the id counter and the clock can
      change. */
  function LogActivity(st: Store, board: Id, user: Id, action: Action, entity: Entity,
                       entityId: Id, details: Details, fault: bool, io: bool): (r: Logged)
    ensures r.store.boards == st.boards && r.store.lists == st.lists && r.store.tasks == st.tasks
    ensures fault ==> r.store == st && r.broadcast.None?
    ensures !fault ==>
      r.store.activities == st.activities
        + [Activity(st.nextId, board, user, action, entity, entityId, details, st.clock)]
    ensures r.broadcast.Some? <==> io && !fault
  {
    var a := Activity(st.nextId, board, user, action, entity, entityId, details, st.clock);
    if fault then Logged(st, None)
    else
      var st' := st.(activities := st.activities + [a], nextId := st.nextId + 1, clock := st.clock + 1);
      Logged(st', if io then Some(a) else None)
  }

  /** No route handler's activity is ever broadcast. */
  lemma RoutesNeverBroadcast(st: Store, board: Id, user: Id, action: Action, entity: Entity,
                             entityId: Id, details: Details, fault: bool)
    ensures LogActivity(st, board, user, action, entity, entityId, details, fault, RouteIo).broadcast.None?
  {
  }

  /** The activities that refer to `board`. */
  function ActivitiesOf(acts: seq<Activity>, board: Id): (r: seq<Activity>)
    ensures forall i :: 0 <= i < |r| ==> r[i].board == board && r[i] in acts
    ensures forall i :: 0 <= i < |acts| && acts[i].board == board ==> acts[i] in r
    ensures forall a :: multiset(r)[a] == if a.board == board then multiset(acts)[a] else 0
  {
    FilterMultiset(acts, OfBoard(board));
    Filter(acts, OfBoard(board))
  }

  /** `{ board }` as a query on activities. */
  function OfBoard(board: Id): Activity -> bool {
    (a: Activity) => a.board == board
  }
}
