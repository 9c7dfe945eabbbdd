/**
 * The user record shared by every component, the partial record that holds an
 * unsaved row edit, and the store-wide uniqueness of ids.
 */
module Users {
  import opened Wrappers
  import opened Seqs

  /** `{id, name, email, role, status}`; role and status are the strings the selects offer. */
  datatype User = User(id: int, name: string, email: string, role: string, status: string)

  /** The columns declared with `enableEditing: true`; the id column is not one of them. */
  datatype Field = Name | Email | Role | Status

  /**
   * A JavaScript object holding some of a user's keys: the table's `editFormData`.
   * `None` is a key the object does not have.
   */
  datatype Draft = Draft(
    id: Option<int>,
    name: Option<string>,
    email: Option<string>,
    role: Option<string>,
    status: Option<string>)

  /** `{}` */
  const EmptyDraft := Draft(None, None, None, None, None)

  /** The draft Edit starts from: a shallow copy holding every key of `u`. */
  function CopyOf(u: User): (d: Draft)
    ensures Complete(d) && d.id == Some(u.id)
  {
    Draft(Some(u.id), Some(u.name), Some(u.email), Some(u.role), Some(u.status))
  }

  predicate Complete(d: Draft)
  {
    d.id.Some? && d.name.Some? && d.email.Some? && d.role.Some? && d.status.Some?
  }

  /** Object spread of `d` over `item`: every key `d` holds overrides the record's value. */
  function Merge(item: User, d: Draft): (r: User)
  {
    User(
      d.id.GetOr(item.id),
      d.name.GetOr(item.name),
      d.email.GetOr(item.email),
      d.role.GetOr(item.role),
      d.status.GetOr(item.status))
  }

  /** A copy of the draft with the one key `field` set to `value`. */
  function SetField(d: Draft, field: Field, value: string): (r: Draft)
  {
    match field
    case Name => d.(name := Some(value))
    case Email => d.(email := Some(value))
    case Role => d.(role := Some(value))
    case Status => d.(status := Some(value))
  }

  /** The ids of the store, position by position. */
  function Ids(users: seq<User>): (ids: seq<int>)
    ensures |ids| == |users|
    ensures forall i :: 0 <= i < |users| ==> ids[i] == users[i].id
  {
    var idOf := (u: User) => u.id;
    MapAt(users, idOf);
    Map(users, idOf)
  }

  /** The id list holds exactly the ids of the stored records. */
  lemma IdsOfMembers(users: seq<User>)
    ensures forall u :: u in users ==> u.id in Ids(users)
    ensures forall id :: id in Ids(users) ==> exists u :: u in users && u.id == id
  {
    forall u | u in users
      ensures u.id in Ids(users)
    {
      var i :| 0 <= i < |users| && users[i] == u;
      assert Ids(users)[i] == u.id;
    }
    forall id | id in Ids(users)
      ensures exists u :: u in users && u.id == id
    {
      var i :| 0 <= i < |users| && Ids(users)[i] == id;
      assert users[i] in users;
    }
  }

  /** No two records of the store share an id. */
  predicate UniqueIds(users: seq<User>)
  {
    forall i, j :: 0 <= i < j < |users| ==> users[i].id != users[j].id
  }

  /** Merging a copy of `u` into any record yields `u`; merging `{}` changes nothing. */
  lemma MergeDrafts(item: User, u: User)
    ensures Merge(item, CopyOf(u)) == u
    ensures Merge(item, EmptyDraft) == item
  {
  }

  /** Setting a field only writes that field's key and keeps the draft complete. */
  lemma SetFieldKeepsOthers(d: Draft, field: Field, value: string)
    ensures SetField(d, field, value).id == d.id
    ensures Complete(d) ==> Complete(SetField(d, field, value))
  {
  }

  /** Dropping records never makes two remaining ids equal. */
  lemma SubsequenceKeepsUniqueIds(r: seq<User>, s: seq<User>)
    requires IsSubsequence(r, s) && UniqueIds(s)
    ensures UniqueIds(r)
  {
    var idx :| Embeds(idx, r, s);
    forall i, j | 0 <= i < j < |r|
      ensures r[i].id != r[j].id
    {
      assert idx[i] < idx[j];
      assert r[i] == s[idx[i]] && r[j] == s[idx[j]];
    }
  }

  /** Ids stay unique when every id is kept in place. */
  lemma SameIdsKeepUniqueIds(r: seq<User>, s: seq<User>)
    requires Ids(r) == Ids(s) && UniqueIds(s)
    ensures UniqueIds(r)
  {
    forall i, j | 0 <= i < j < |r|
      ensures r[i].id != r[j].id
    {
      assert r[i].id == Ids(r)[i] == Ids(s)[i] == s[i].id;
      assert r[j].id == Ids(r)[j] == Ids(s)[j] == s[j].id;
    }
  }
}
