/** The assignee picker: a search box whose results can be toggled into a
    selection, chips that remove a selected user, and a result list that
    hides users already selected. Users are matched by id alone. */
module UserSelector {
  import opened Wrappers
  import opened Seqs
  import opened Schema

  datatype User = User(id: Id, username: string)

  /** `selectedUsers.some(u => u._id === userId)`. */
  predicate IsSelected(selected: seq<User>, userId: Id) {
    exists i :: 0 <= i < |selected| && selected[i].id == userId
  }

  /** `u => u._id !== userId`. */
  function NotUser(userId: Id): User -> bool {
    (u: User) => u.id != userId
  }

  /** `removeUser`: every entry with that id goes, the rest stay in order. */
  function RemoveUser(selected: seq<User>, userId: Id): (r: seq<User>)
    ensures forall u :: u in r <==> u in selected && u.id != userId
    ensures forall u :: multiset(r)[u] == if u.id == userId then 0 else multiset(selected)[u]
    ensures !IsSelected(r, userId)
    ensures !IsSelected(selected, userId) ==> r == selected
  {
    FilterMembers(selected, NotUser(userId));
    FilterMultiset(selected, NotUser(userId));
    var r := Filter(selected, NotUser(userId));
    assert !IsSelected(selected, userId) ==> r == selected by {
      if !IsSelected(selected, userId) {
        FilterAll(selected, NotUser(userId));
      }
    }
    r
  }

  /** `toggleUser`: a selected user is removed (every entry with its id);
      an unselected one is appended at the end. */
  function ToggleUser(selected: seq<User>, user: User): (r: seq<User>)
    ensures IsSelected(selected, user.id) ==> r == RemoveUser(selected, user.id)
    ensures !IsSelected(selected, user.id) ==> r == selected + [user]
    ensures IsSelected(r, user.id) <==> !IsSelected(selected, user.id)
  {
    if IsSelected(selected, user.id) then RemoveUser(selected, user.id)
    else
      assert (selected + [user])[|selected|].id == user.id;
      selected + [user]
  }

  /** Removal goes entry by entry and keeps the order: it distributes over
      concatenation, and a single entry stays exactly when its id differs. */
  lemma RemoveUserAppend(a: seq<User>, b: seq<User>, u: User, userId: Id)
    ensures RemoveUser(a + b, userId) == RemoveUser(a, userId) + RemoveUser(b, userId)
    ensures RemoveUser([u], userId) == if u.id == userId then [] else [u]
  {
    FilterAppend(a, b, NotUser(userId));
    assert [u][1..] == [];
  }

  /** Toggling an unselected user twice gives back the original selection. */
  lemma {:induction false} ToggleTwiceRestores(selected: seq<User>, user: User)
    requires !IsSelected(selected, user.id)
    ensures ToggleUser(ToggleUser(selected, user), user) == selected
  {
    FilterAppend(selected, [user], NotUser(user.id));
    FilterAll(selected, NotUser(user.id));
    assert Filter([user], NotUser(user.id)) == [] by {
      FilterNone([user], NotUser(user.id));
    }
  }

  /** `availableUsers`: the search results not yet selected, in result
      order. */
  function AvailableUsers(results: seq<User>, selected: seq<User>): (r: seq<User>)
    ensures forall u :: u in r <==> u in results && !IsSelected(selected, u.id)
    ensures forall u :: multiset(r)[u] == if IsSelected(selected, u.id) then 0 else multiset(results)[u]
    ensures forall i :: 0 <= i < |r| ==> !IsSelected(selected, r[i].id)
  {
    FilterMembers(results, Unselected(selected));
    FilterMultiset(results, Unselected(selected));
    Filter(results, Unselected(selected))
  }

  /** `u => !selectedUsers.some(s => s._id === u._id)`. */
  function Unselected(selected: seq<User>): User -> bool {
    (u: User) => !IsSelected(selected, u.id)
  }

  /** The available users keep the result order: the filter distributes over
      concatenation, and a single result is shown exactly when it is not
      selected. */
  lemma AvailableUsersAppend(a: seq<User>, b: seq<User>, u: User, selected: seq<User>)
    ensures AvailableUsers(a + b, selected) == AvailableUsers(a, selected) + AvailableUsers(b, selected)
    ensures AvailableUsers([u], selected) == if IsSelected(selected, u.id) then [] else [u]
  {
    FilterAppend(a, b, Unselected(selected));
    assert [u][1..] == [];
  }

  /** What a change of the search term does: an empty term clears the
      results and issues no search; any other term issues a search (after
      the debounce). */
  datatype SearchStep = ClearResults | Search(term: string)

  function OnTermChange(term: string): (r: SearchStep)
    ensures r == ClearResults <==> |term| == 0
    ensures r.Search? ==> r.term == term
  {
    if |term| < 1 then ClearResults else Search(term)
  }

  /** The results after a search: the users the response lists, or none when
      the request failed or the response had no user list. */
  function SearchResults(response: Option<Option<seq<User>>>): (r: seq<User>)
    ensures response.None? || response.value.None? ==> r == []
    ensures response.Some? && response.value.Some? ==> r == response.value.value
  {
    match response
    case Some(Some(users)) => users
    case _ => []
  }
}
