/**
 * The add-user dialog: it validates the trimmed name and email, gives the new
 * user the next id after the largest one in the store, hands the record to the
 * dashboard, resets its fields and closes.
 */
module AddUserModal {
  import opened Wrappers
  import opened Text
  import opened Users
  import opened Dashboard

  const RequiredMessage := "Name and email are required"
  const DefaultRole := "Recruiter"
  const DefaultStatus := "Active"

  /** The largest of a non-empty list of ids. */
  function MaxOf(ids: seq<int>): (m: int)
    requires ids != []
    ensures m in ids
    ensures forall x :: x in ids ==> x <= m
  {
    if |ids| == 1 then ids[0]
    else
      var rest := MaxOf(ids[1..]);
      assert ids == [ids[0]] + ids[1..];
      if ids[0] >= rest then ids[0] else rest
  }

  /** One more than the largest id in the store, taking 0 as the largest id of an empty store. */
  function NextId(users: seq<User>): (next: int)
    ensures users == [] ==> next == 1
    ensures forall u :: u in users ==> u.id < next
    ensures users != [] ==> exists u :: u in users && next == u.id + 1
  {
    if |users| > 0 then
      var maxId := MaxOf(Ids(users));
      IdsOfMembers(users);
      maxId + 1
    else 1
  }

  /**
   * The record `handleSubmit` builds from the form fields, or the alert it
   * raises when the trimmed name or email is empty.
   */
  function NewUser(users: seq<User>, name: string, email: string, role: string, status: string)
    : (r: Result<User, string>)
    ensures r.Failure? <==> Trim(name) == "" || Trim(email) == ""
    ensures r.Failure? ==> r.error == RequiredMessage
    ensures r.Success? ==> r.value.name == Trim(name) != "" && r.value.email == Trim(email) != ""
    ensures r.Success? ==> r.value.role == role && r.value.status == status
    ensures r.Success? ==> r.value.id == NextId(users) && forall u :: u in users ==> u.id < r.value.id
  {
    if Trim(name) == "" || Trim(email) == "" then Failure(RequiredMessage)
    else Success(User(NextId(users), Trim(name), Trim(email), role, status))
  }

  /** Appending the record `handleSubmit` builds keeps the store's ids unique. */
  lemma NewUserKeepsIdsUnique(users: seq<User>, name: string, email: string, role: string, status: string)
    requires UniqueIds(users)
    requires NewUser(users, name, email, role, status).Success?
    ensures UniqueIds(users + [NewUser(users, name, email, role, status).value])
  {
    var u := NewUser(users, name, email, role, status).value;
    var after := users + [u];
    forall i, j | 0 <= i < j < |after|
      ensures after[i].id != after[j].id
    {
      if j == |users| {
        assert after[i] in users;
      }
    }
  }

  /** The dialog's form fields; `owner` is the dashboard that supplies `users`, `onAddUser` and `onClose`. */
  class Form {
    const owner: Dashboard
    var name: string
    var email: string
    var role: string
    var status: string

    /** The fields as the dialog first shows them and as a successful submit leaves them. */
    predicate IsReset()
      reads this
    {
      name == "" && email == "" && role == DefaultRole && status == DefaultStatus
    }

    constructor (owner: Dashboard)
      ensures this.owner == owner && IsReset()
    {
      this.owner := owner;
      name := "";
      email := "";
      role := DefaultRole;
      status := DefaultStatus;
    }

    /**
     * `handleSubmit`, callable while the dialog is open. A blank trimmed name
     * or email raises the alert and changes nothing; otherwise the new record
     * is appended to the store, the fields are reset and the dialog closes.
     */
    method HandleSubmit() returns (alert: Option<string>)
      requires owner.isAddModalOpen
      modifies this, owner
      ensures var result := NewUser(old(owner.users), old(name), old(email), old(role), old(status));
              && (alert == if result.Failure? then Some(RequiredMessage) else None)
              && (result.Failure? ==> unchanged(this) && unchanged(owner))
              && (result.Success? ==>
                    owner.users == old(owner.users) + [result.value] && IsReset() && !owner.isAddModalOpen)
      ensures old(UniqueIds(owner.users)) ==> UniqueIds(owner.users)
    {
      var result := NewUser(owner.users, name, email, role, status);
      if result.Failure? {
        return Some(result.error);
      }
      if UniqueIds(owner.users) {
        NewUserKeepsIdsUnique(owner.users, name, email, role, status);
      }
      owner.HandleAddUser(result.value);
      name := "";
      email := "";
      role := DefaultRole;
      status := DefaultStatus;
      owner.CloseAddUserModal();
      alert := None;
    }
  }
}
