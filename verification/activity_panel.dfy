/** The activity panel: how old an entry is, in the coarsest unit that
    fits, the label and icon of each action, and the fixed page size of the
    feed it requests. */
module ActivityPanel {
  import opened Wrappers
  import opened Seqs
  import opened Text
  import opened Schema
  import opened Store
  import opened BoardRoutes

  const MinuteMs: int := 60000
  const HourMs: int := 3600000
  const DayMs: int := 86400000

  /** The age an entry is shown with. */
  datatype Age = JustNow | MinutesAgo(n: nat) | HoursAgo(n: nat) | DaysAgo(n: nat) | OnDate

  /** `formatTime` on the difference `now - timestamp` in milliseconds. The
      source's `Math.floor` is floor division; Dafny's `/` by a positive
      divisor is the same, negative differences included. */
  function FormatTime(diffMs: int): (r: Age)
    ensures r == JustNow <==> diffMs < MinuteMs
    ensures r.MinutesAgo? <==> MinuteMs <= diffMs < HourMs
    ensures r.HoursAgo? <==> HourMs <= diffMs < DayMs
    ensures r.DaysAgo? <==> DayMs <= diffMs < 7 * DayMs
    ensures r == OnDate <==> diffMs >= 7 * DayMs
    ensures r.MinutesAgo? ==> 1 <= r.n < 60 && r.n * MinuteMs <= diffMs < (r.n + 1) * MinuteMs
    ensures r.HoursAgo? ==> 1 <= r.n < 24 && r.n * HourMs <= diffMs < (r.n + 1) * HourMs
    ensures r.DaysAgo? ==> 1 <= r.n < 7 && r.n * DayMs <= diffMs < (r.n + 1) * DayMs
  {
    var mins := diffMs / 60000;
    var hours := diffMs / 3600000;
    var days := diffMs / 86400000;
    if mins < 1 then JustNow
    else if mins < 60 then MinutesAgo(mins)
    else if hours < 24 then HoursAgo(hours)
    else if days < 7 then DaysAgo(days)
    else OnDate
  }

  /** The text of an age; `date` is the locale's rendering of the timestamp. */
  function AgeText(a: Age, date: string): (r: string)
    ensures a.JustNow? ==> r == "just now"
    ensures a.MinutesAgo? ==> r == Decimal(a.n) + "m ago"
    ensures a.HoursAgo? ==> r == Decimal(a.n) + "h ago"
    ensures a.DaysAgo? ==> r == Decimal(a.n) + "d ago"
    ensures a.OnDate? ==> r == date
  {
    match a
    case JustNow => "just now"
    case MinutesAgo(n) => Decimal(n) + "m ago"
    case HoursAgo(n) => Decimal(n) + "h ago"
    case DaysAgo(n) => Decimal(n) + "d ago"
    case OnDate => date
  }

  /** How coarse an age's unit is. */
  function Coarseness(a: Age): nat {
    match a
    case JustNow => 0
    case MinutesAgo(_) => 1
    case HoursAgo(_) => 2
    case DaysAgo(_) => 3
    case OnDate => 4
  }

  /** An older entry never shows a finer unit than a newer one, and in the
      same unit never a smaller count. */
  lemma FormatTimeMonotone(a: int, b: int)
    requires a <= b
    ensures Coarseness(FormatTime(a)) <= Coarseness(FormatTime(b))
    ensures FormatTime(a).MinutesAgo? && FormatTime(b).MinutesAgo? ==> FormatTime(a).n <= FormatTime(b).n
    ensures FormatTime(a).HoursAgo? && FormatTime(b).HoursAgo? ==> FormatTime(a).n <= FormatTime(b).n
    ensures FormatTime(a).DaysAgo? && FormatTime(b).DaysAgo? ==> FormatTime(a).n <= FormatTime(b).n
  {
  }

  /** The label of each action kind. */
  function Label(a: Action): string {
    match a
    case BoardCreated => "Created board"
    case BoardUpdated => "Updated board"
    case BoardDeleted => "Deleted board"
    case ListCreated => "Created list"
    case ListUpdated => "Updated list"
    case ListDeleted => "Deleted list"
    case TaskCreated => "Created task"
    case TaskUpdated => "Updated task"
    case TaskDeleted => "Deleted task"
    case TaskMoved => "Moved task"
    case MemberAdded => "Added member"
    case MemberRemoved => "Removed member"
  }

  /** `getActionLabel`: a known action name gets its label, any other
      string is shown as it is. */
  function ActionLabel(name: string): (r: string)
    ensures ParseAction(name).Some? ==> r == Label(ParseAction(name).value)
    ensures ParseAction(name).None? ==> r == name
  {
    match ParseAction(name)
    case Some(a) => Label(a)
    case None => name
  }

  /** Every one of the twelve actions gets its own label, never its raw
      name, and no two share one. */
  lemma ActionLabelsDistinct(a: Action, b: Action)
    ensures ActionLabel(a.Name()) == Label(a) != a.Name()
    ensures a != b ==> ActionLabel(a.Name()) != ActionLabel(b.Name())
  {
    ActionNamesAdmitted(a);
    ActionNamesAdmitted(b);
  }

  /** `getActionIcon`: the icon of each action, with a bullet for any other
      string. Edits share a pencil, deletions a bin. */
  function ActionIcon(name: string): (r: string)
    ensures ParseAction(name).None? ==> r == "•"
  {
    match ParseAction(name)
    case None => "•"
    case Some(a) =>
      match a
      case BoardCreated => "\U{1F4CB}"
      case BoardUpdated => "✏️"
      case BoardDeleted => "\U{1F5D1}️"
      case ListCreated => "\U{1F4DD}"
      case ListUpdated => "✏️"
      case ListDeleted => "\U{1F5D1}️"
      case TaskCreated => "✨"
      case TaskUpdated => "\U{1F4DD}"
      case TaskDeleted => "❌"
      case TaskMoved => "\U{1F504}"
      case MemberAdded => "\U{1F464}"
      case MemberRemoved => "\U{1F465}"
  }

  /** Every known action has an icon of its own kind, never the bullet. */
  lemma KnownActionsHaveIcons(a: Action)
    ensures ActionIcon(a.Name()) != "•"
  {
    ActionNamesAdmitted(a);
  }

  /** The feed asks for pages of twenty. */
  const FeedLimit: int := 20

  /** The feed the panel loads: the board's activities route at the panel's
      current page with the fixed page size. A served page holds at most
      twenty entries, all of that board: page n is the n-th run of twenty in
      newest-first order. */
  function LoadFeed(st: Store, caller: Id, boardId: Id, currentPage: int): (r: Reply<ActivityPage>)
    ensures r.status == Ok ==>
      && r.body.Some?
      && |r.body.value.activities| <= 20
      && currentPage >= 1
      && r.body.value.activities
         == SkipLimit(SortBy(ActivitiesOf(st.activities, boardId), NewestFirst), (currentPage - 1) * 20, 20)
      && r.body.value.totalPages.Some?
      && (forall i :: 0 <= i < |r.body.value.activities| ==> r.body.value.activities[i].board == boardId)
  {
    Activities(st, caller, boardId, currentPage, FeedLimit)
  }
}
