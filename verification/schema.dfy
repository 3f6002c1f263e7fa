/** The four document schemas of the backend: field constraints, defaults
    and the pre-save hooks of Board, List, Task and Activity. A schema
    violation makes `save` reject the document; this module states which
    documents are accepted and what the hooks do to them. Required
    references (`board`, `list`, `owner`, `user`, `createdBy`) are
    non-optional `Id` fields, so they cannot be missing. */
module Schema {
  import opened Wrappers
  import opened Text

  /** A document id (the store's ObjectId). */
  type Id = nat

  const BoardTitleMax: nat := 100
  const BoardDescriptionMax: nat := 500
  const ListTitleMax: nat := 100
  const TaskTitleMax: nat := 200
  const TaskDescriptionMax: nat := 2000
  const LabelTextMax: nat := 50
  const DefaultBackground: string := "#0079bf"

  /** The ten background colours the board-creation dialog offers. */
  const Palette: seq<string> := [
    "#0079bf", "#d29034", "#519839", "#b04632", "#89609e",
    "#cd5a91", "#4bbf6b", "#00aecc", "#838c91", "#172b4d"
  ]

  datatype Board = Board(
    id: Id, title: string, description: string, owner: Id,
    members: seq<Id>, background: string, updatedAt: int)

  datatype List = List(id: Id, title: string, board: Id, position: int, updatedAt: int)

  datatype Label = Label(color: Option<string>, text: Option<string>)

  datatype Task = Task(
    id: Id, title: string, description: string, list: Id, board: Id,
    assignedTo: seq<Id>, position: int, labels: seq<Label>,
    dueDate: Option<int>, completed: bool, createdBy: Id, updatedAt: int)

  /** The free-form `details` payload of an activity; `NoDetails` is the
      schema default `{}`. */
  datatype Details = NoDetails | TitleDetails(title: string) | MoveDetails(title: string, fromList: Id, toList: Id)

  /** The activity kinds of the `action` enum. */
  datatype Action =
    | BoardCreated | BoardUpdated | BoardDeleted
    | ListCreated | ListUpdated | ListDeleted
    | TaskCreated | TaskUpdated | TaskDeleted | TaskMoved
    | MemberAdded | MemberRemoved
  {
    /** The name stored in the document and sent to clients. */
    function Name(): string {
      match this
      case BoardCreated => "board_created"
      case BoardUpdated => "board_updated"
      case BoardDeleted => "board_deleted"
      case ListCreated => "list_created"
      case ListUpdated => "list_updated"
      case ListDeleted => "list_deleted"
      case TaskCreated => "task_created"
      case TaskUpdated => "task_updated"
      case TaskDeleted => "task_deleted"
      case TaskMoved => "task_moved"
      case MemberAdded => "member_added"
      case MemberRemoved => "member_removed"
    }
  }

  /** The entity types of the `entity` enum. */
  datatype Entity = BoardEntity | ListEntity | TaskEntity | MemberEntity {
    function Name(): string {
      match this
      case BoardEntity => "board"
      case ListEntity => "list"
      case TaskEntity => "task"
      case MemberEntity => "member"
    }
  }

  datatype Activity = Activity(
    id: Id, board: Id, user: Id, action: Action, entity: Entity,
    entityId: Id, details: Details, createdAt: int)

  /** The enum validator of `action`: the schema admits a name exactly when
      it is one of the twelve listed, and `None` stands for the rejection. */
  function ParseAction(name: string): (r: Option<Action>)
    ensures r.Some? ==> r.value.Name() == name
  {
    if name == "board_created" then Some(BoardCreated)
    else if name == "board_updated" then Some(BoardUpdated)
    else if name == "board_deleted" then Some(BoardDeleted)
    else if name == "list_created" then Some(ListCreated)
    else if name == "list_updated" then Some(ListUpdated)
    else if name == "list_deleted" then Some(ListDeleted)
    else if name == "task_created" then Some(TaskCreated)
    else if name == "task_updated" then Some(TaskUpdated)
    else if name == "task_deleted" then Some(TaskDeleted)
    else if name == "task_moved" then Some(TaskMoved)
    else if name == "member_added" then Some(MemberAdded)
    else if name == "member_removed" then Some(MemberRemoved)
    else None
  }

  /** The enum validator of `entity`. */
  function ParseEntity(name: string): (r: Option<Entity>)
    ensures r.Some? ==> r.value.Name() == name
  {
    if name == "board" then Some(BoardEntity)
    else if name == "list" then Some(ListEntity)
    else if name == "task" then Some(TaskEntity)
    else if name == "member" then Some(MemberEntity)
    else None
  }

  // ---------------------------------------------------------------- Board

  /** A board as `new Board({...})` builds it: the title goes through the
      `trim` setter and absent optional fields take their defaults. */
  function NewBoard(id: Id, title: string, description: Option<string>, owner: Id,
                    members: seq<Id>, background: Option<string>, now: int): (b: Board)
    ensures b.title == Trim(title) && b.owner == owner && b.members == members
    ensures description.None? ==> b.description == ""
    ensures background.None? ==> b.background == DefaultBackground
    ensures description.Some? ==> b.description == description.value
    ensures background.Some? ==> b.background == background.value
  {
    Board(id, Trim(title), description.GetOr(""), owner, members,
          background.GetOr(DefaultBackground), now)
  }

  /** The `match` validator of a colour field: an empty string is not
      tested against the pattern and passes; any other string must be a
      hex colour. */
  predicate ColourAdmitted(s: string) {
    s == "" || IsHexColour(s)
  }

  /** The Board schema's validators. Lengths are JavaScript lengths. */
  predicate ValidBoard(b: Board) {
    1 <= Utf16Length(b.title) <= BoardTitleMax
    && Utf16Length(b.description) <= BoardDescriptionMax
    && ColourAdmitted(b.background)
  }

  /** The two pre-save hooks: refresh `updatedAt`, and append the owner to
      `members` when it is missing. */
  function BoardPreSave(b: Board, now: int): (r: Board)
    ensures r.owner in r.members
    ensures b.owner in b.members ==> r.members == b.members
    ensures |b.members| <= |r.members| <= |b.members| + 1 && r.members[..|b.members|] == b.members
    ensures r.updatedAt == now
    ensures r.(members := b.members, updatedAt := b.updatedAt) == b
  {
    var ms := if b.owner in b.members then b.members else b.members + [b.owner];
    b.(members := ms, updatedAt := now)
  }

  /** `board.save()`: validation first, then the hooks; `None` when a
      validator rejects the document. */
  function SaveBoard(b: Board, now: int): (r: Option<Board>)
    ensures r.Some? <==> (1 <= Utf16Length(b.title) <= 100 && Utf16Length(b.description) <= 500
                          && (b.background == "" || IsHexColour(b.background)))
    ensures r.Some? ==> r.value.owner in r.value.members && r.value.updatedAt == now
    ensures r.Some? ==> r.value.(members := b.members, updatedAt := b.updatedAt) == b
  {
    if ValidBoard(b) then Some(BoardPreSave(b, now)) else None
  }

  /** A board built from request fields is accepted exactly when its trimmed
      title has 1 to 100 UTF-16 units, its description at most 500 and its
      background (by default `#0079bf`) is empty or a six-digit hex
      colour. */
  lemma NewBoardAccepted(id: Id, title: string, description: Option<string>, owner: Id,
                         members: seq<Id>, background: Option<string>, now: int)
    ensures SaveBoard(NewBoard(id, title, description, owner, members, background, now), now).Some?
        <==> (1 <= Utf16Length(Trim(title)) <= 100
              && (description.None? || Utf16Length(description.value) <= 500)
              && (background.None? || background.value == "" || IsHexColour(background.value)))
  {
  }

  /** A title of blanks is rejected: it trims to the empty string. */
  lemma BlankBoardTitleRejected(id: Id, title: string, description: Option<string>, owner: Id,
                                members: seq<Id>, background: Option<string>, now: int)
    requires AllSpace(title)
    ensures SaveBoard(NewBoard(id, title, description, owner, members, background, now), now).None?
  {
    TrimEmptyIff(title);
  }

  /** Every palette colour, and the default, satisfies the background
      pattern. */
  lemma PaletteColoursValid()
    ensures IsHexColour(DefaultBackground)
    ensures forall i :: 0 <= i < |Palette| ==> IsHexColour(Palette[i])
  {
  }

  // ----------------------------------------------------------------- List

  predicate ValidList(l: List) {
    1 <= Utf16Length(l.title) <= ListTitleMax && l.position >= 0
  }

  /** `list.save()`: validation, then the `updatedAt` hook. */
  function SaveList(l: List, now: int): (r: Option<List>)
    ensures r.Some? <==> (1 <= Utf16Length(l.title) <= 100 && l.position >= 0)
    ensures r.Some? ==> r.value == l.(updatedAt := now)
  {
    if ValidList(l) then Some(l.(updatedAt := now)) else None
  }

  /** Titles are measured in UTF-16 units: 51 emoji make a 102-unit title,
      over the limit of 100. */
  lemma AstralListTitleRejected(l: List, now: int)
    requires |l.title| == 51
    requires forall i :: 0 <= i < |l.title| ==> l.title[i] as int >= 0x1_0000
    ensures SaveList(l, now).None?
  {
    Utf16LengthAstral(l.title);
  }

  // ----------------------------------------------------------------- Task

  predicate ValidLabel(lb: Label) {
    (lb.color.None? || ColourAdmitted(lb.color.value))
    && (lb.text.None? || Utf16Length(lb.text.value) <= LabelTextMax)
  }

  predicate ValidTask(t: Task) {
    1 <= Utf16Length(t.title) <= TaskTitleMax
    && Utf16Length(t.description) <= TaskDescriptionMax
    && t.position >= 0
    && forall i :: 0 <= i < |t.labels| ==> ValidLabel(t.labels[i])
  }

  /** A task as `new Task({...})` builds it: trimmed title, description
      defaulting to `''`, `completed` defaulting to false; an absent `dueDate`
      is the default `null`. */
  function NewTask(id: Id, title: string, description: Option<string>, list: Id, board: Id,
                   assignedTo: seq<Id>, position: int, labels: seq<Label>,
                   dueDate: Option<int>, createdBy: Id, now: int): (t: Task)
    ensures t.title == Trim(title) && t.list == list && t.board == board
    ensures description.None? ==> t.description == ""
    ensures description.Some? ==> t.description == description.value
    ensures !t.completed && t.dueDate == dueDate
    ensures t.position == position && t.labels == labels && t.assignedTo == assignedTo
  {
    Task(id, Trim(title), description.GetOr(""), list, board, assignedTo, position,
         labels, dueDate, false, createdBy, now)
  }

  /** `task.save()`: validation, then the `updatedAt` hook. */
  function SaveTask(t: Task, now: int): (r: Option<Task>)
    ensures r.Some? <==> (1 <= Utf16Length(t.title) <= 200 && Utf16Length(t.description) <= 2000
                          && t.position >= 0
                          && forall i :: 0 <= i < |t.labels| ==>
                               && (t.labels[i].color.None? || t.labels[i].color.value == ""
                                   || IsHexColour(t.labels[i].color.value))
                               && (t.labels[i].text.None? || Utf16Length(t.labels[i].text.value) <= 50))
    ensures r.Some? ==> r.value == t.(updatedAt := now)
  {
    if ValidTask(t) then Some(t.(updatedAt := now)) else None
  }

  /** A label with a non-empty colour outside the pattern, or text over 50
      UTF-16 units, makes the whole task unsaveable. */
  lemma BadLabelRejectsTask(t: Task, i: nat, now: int)
    requires i < |t.labels|
    requires (t.labels[i].color.Some? && t.labels[i].color.value != "" && !IsHexColour(t.labels[i].color.value))
          || (t.labels[i].text.Some? && Utf16Length(t.labels[i].text.value) > 50)
    ensures SaveTask(t, now).None?
  {
  }

  /** A label whose colour is the empty string does not stop a saveable
      task from saving. */
  lemma EmptyColourLabelSaves(t: Task, text: Option<string>, now: int)
    requires SaveTask(t, now).Some?
    requires text.None? || Utf16Length(text.value) <= 50
    ensures SaveTask(t.(labels := t.labels + [Label(Some(""), text)]), now).Some?
  {
    var u := t.(labels := t.labels + [Label(Some(""), text)]);
    assert forall i :: 0 <= i < |u.labels| ==> ValidLabel(u.labels[i]) by {
      forall i | 0 <= i < |u.labels|
        ensures ValidLabel(u.labels[i])
      {
        if i < |t.labels| { assert u.labels[i] == t.labels[i]; }
      }
    }
  }

  // ------------------------------------------------------------- Activity

  /** Every action a handler logs is admitted by the enum: the validator
      reads each kind's name back as that kind, so `Activity.create` never
      rejects what the routes pass it. */
  lemma ActionNamesAdmitted(k: Action)
    ensures ParseAction(k.Name()) == Some(k)
  {
  }

  lemma EntityNamesAdmitted(e: Entity)
    ensures ParseEntity(e.Name()) == Some(e)
  {
  }

  /** A name outside the enum is rejected. */
  lemma UnknownActionRejected(name: string)
    requires forall k: Action :: k.Name() != name
    ensures ParseAction(name).None?
  {
  }

  /** The twelve names are pairwise different, so a stored name identifies
      its kind. */
  lemma ActionNamesInjective(j: Action, k: Action)
    requires j.Name() == k.Name()
    ensures j == k
  {
    ActionNamesAdmitted(j);
    ActionNamesAdmitted(k);
  }
}
