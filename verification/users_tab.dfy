/** The users tab: the project's requirement users, plus the pages and
    functionalities the "Add Requirement User" dialog offers as checkboxes. */
module UsersTab {
  import opened Wrappers
  import opened Types
  import opened Api
  import opened ListOps
  import opened EntityLoad

  datatype UsersState = UsersState(entities: Entities, loading: bool, showAddModal: bool)

  const Initial := UsersState(Entities([], [], []), true, false)

  /** One load of the tab; the spinner goes away whatever happened. */
  function LoadData(
    s: UsersState,
    usersRes: Result<seq<RequirementUser>>,
    pagesRes: Result<seq<Page>>,
    fetch: Fetch): (r: UsersState)
    ensures !r.loading && r.showAddModal == s.showAddModal
    ensures r.entities == LoadEntities(s.entities, usersRes, pagesRes, fetch)
  {
    s.(entities := LoadEntities(s.entities, usersRes, pagesRes, fetch), loading := false)
  }

  /** A first load that fails part-way: users and pages are shown, but the
      functionality checkboxes stay empty. */
  lemma PartialFirstLoad(usersRes: Result<seq<RequirementUser>>, pagesRes: Result<seq<Page>>, fetch: Fetch)
    requires usersRes.Success? && pagesRes.Success? && !AllFetched(pagesRes.value, fetch)
    ensures var r := LoadData(Initial, usersRes, pagesRes, fetch);
            r.entities.users == usersRes.value && r.entities.pages == pagesRes.value &&
            r.entities.functionalities == []
  {
  }

  /** A user came back from the dialog: it is listed last and the dialog closes. */
  function HandleUserCreated(s: UsersState, user: RequirementUser): (r: UsersState)
    ensures |r.entities.users| == |s.entities.users| + 1
    ensures r.entities.users[..|s.entities.users|] == s.entities.users
    ensures r.entities.users[|s.entities.users|] == user
    ensures !r.showAddModal
    ensures r.entities.(users := s.entities.users) == s.entities && r.loading == s.loading
  {
    s.(entities := s.entities.(users := s.entities.users + [user]), showAddModal := false)
  }

  /** The delete button of a user, after the confirmation dialog. */
  function HandleDeleteUser(s: UsersState, userId: int, confirmed: bool, outcome: Outcome): (r: Handled<UsersState>)
    ensures r.request.Some? <==> confirmed
    ensures confirmed ==> r.request == Some(DeleteUser(userId))
    ensures confirmed && outcome.Pass? ==>
              r.state == s.(entities := s.entities.(users := RemoveKey(s.entities.users, UserKey, userId)))
    ensures !(confirmed && outcome.Pass?) ==> r.state == s
  {
    if !confirmed then
      Handled(s, None)
    else if outcome.Pass? then
      Handled(s.(entities := s.entities.(users := RemoveKey(s.entities.users, UserKey, userId))), Some(DeleteUser(userId)))
    else
      Handled(s, Some(DeleteUser(userId)))
  }

  /** After a successful delete no user has the id, and every other user is
      still listed. */
  lemma DeletedUserGone(s: UsersState, userId: int, u: RequirementUser)
    ensures var r := HandleDeleteUser(s, userId, true, Pass).state;
            u in r.entities.users <==> u in s.entities.users && u.id != userId
  {
    RemoveKeyMembers(s.entities.users, UserKey, userId, u);
  }

  /** Creating a user with a fresh id and deleting it again restores the tab. */
  lemma CreateThenDeleteUser(s: UsersState, user: RequirementUser)
    requires forall i :: 0 <= i < |s.entities.users| ==> s.entities.users[i].id != user.id
    ensures HandleDeleteUser(HandleUserCreated(s, user), user.id, true, Pass).state ==
              s.(showAddModal := false)
  {
    RemoveKeyAppended(s.entities.users, user, UserKey, user.id);
  }
}
