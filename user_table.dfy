/**
 * The user table's view-model: the name/role filter, the page count, and the
 * row-edit session (Edit, Cancel, Save, Delete and field input) that writes
 * back into the dashboard's store through `setData`.
 */
module UserTable {
  import opened Wrappers
  import opened Seqs
  import opened Text
  import opened Users
  import opened Dashboard

  /** Rows per page. */
  const PageSize: nat := 5

  /** The lower-cased name contains the lower-cased search term. */
  predicate MatchesName(u: User, searchTerm: string)
  {
    Includes(Lower(u.name), Lower(searchTerm))
  }

  /** No role selected (the empty string), or the user's role is the selected one. */
  predicate MatchesRole(u: User, selectedRole: string)
  {
    selectedRole == "" || u.role == selectedRole
  }

  /** The predicate `filteredData` keeps users by. */
  function Keeps(searchTerm: string, selectedRole: string): User -> bool
  {
    (u: User) => MatchesName(u, searchTerm) && MatchesRole(u, selectedRole)
  }

  /** `filteredData` */
  function FilteredData(data: seq<User>, searchTerm: string, selectedRole: string): seq<User>
  {
    Filter(data, Keeps(searchTerm, selectedRole))
  }

  /**
   * A user is kept exactly when the lower-cased name contains the lower-cased
   * search term and the role matches; kept users stay in their order, and
   * every occurrence of a kept user is kept.
   */
  lemma FilteredDataSpec(data: seq<User>, searchTerm: string, selectedRole: string)
    ensures forall u :: u in FilteredData(data, searchTerm, selectedRole) <==>
                          u in data && MatchesName(u, searchTerm) && MatchesRole(u, selectedRole)
    ensures IsSubsequence(FilteredData(data, searchTerm, selectedRole), data)
    ensures forall u :: multiset(FilteredData(data, searchTerm, selectedRole))[u] ==
                          if MatchesName(u, searchTerm) && MatchesRole(u, selectedRole) then multiset(data)[u] else 0
  {
    FilterMembership(data, Keeps(searchTerm, selectedRole));
    FilterIsSubsequence(data, Keeps(searchTerm, selectedRole));
    FilterMultiset(data, Keeps(searchTerm, selectedRole));
  }

  /** With no search term and no role selected every user is shown, in order. */
  lemma NoFilterShowsAll(data: seq<User>)
    ensures FilteredData(data, "", "") == data
  {
    forall u | u in data
      ensures Keeps("", "")(u)
    {
      IncludesEmpty(Lower(u.name));
    }
    FilterKeepsAll(data, Keeps("", ""));
  }

  /** The role test on its own. */
  function HasRole(selectedRole: string): User -> bool
  {
    (u: User) => MatchesRole(u, selectedRole)
  }

  /** An empty search term leaves only the role filter at work. */
  lemma EmptySearchFiltersByRoleOnly(data: seq<User>, selectedRole: string)
    ensures FilteredData(data, "", selectedRole) == Filter(data, HasRole(selectedRole))
  {
    forall u | u in data
      ensures Keeps("", selectedRole)(u) == HasRole(selectedRole)(u)
    {
      IncludesEmpty(Lower(u.name));
    }
    FilterAgreeing(data, Keeps("", selectedRole), HasRole(selectedRole));
  }

  /** The page count: the fewest pages of five rows that hold every filtered row. */
  function PageCount(filteredLength: nat): (pages: nat)
    ensures pages * PageSize >= filteredLength
    ensures pages == 0 || (pages - 1) * PageSize < filteredLength
    ensures pages == 0 <==> filteredLength == 0
  {
    (filteredLength + PageSize - 1) / PageSize
  }

  /** More rows never need fewer pages. */
  lemma PageCountMonotone(m: nat, n: nat)
    requires m <= n
    ensures PageCount(m) <= PageCount(n)
  {
  }

  /** What Save does to one record: the record being edited takes the draft's keys. */
  function SaveItem(editingRowId: Option<int>, draft: Draft): User -> User
  {
    (item: User) => if Some(item.id) == editingRowId then Merge(item, draft) else item
  }

  /** The store after Save, record by record. */
  function SaveEdit(data: seq<User>, editingRowId: Option<int>, draft: Draft): seq<User>
  {
    Map(data, SaveItem(editingRowId, draft))
  }

  /** Save keeps length and order, rewrites each record with the edited id and no other. */
  lemma SaveEditSpec(data: seq<User>, editingRowId: Option<int>, draft: Draft)
    ensures |SaveEdit(data, editingRowId, draft)| == |data|
    ensures forall i :: 0 <= i < |data| && Some(data[i].id) == editingRowId ==>
                          SaveEdit(data, editingRowId, draft)[i] == Merge(data[i], draft)
    ensures forall i :: 0 <= i < |data| && Some(data[i].id) != editingRowId ==>
                          SaveEdit(data, editingRowId, draft)[i] == data[i]
  {
    MapAt(data, SaveItem(editingRowId, draft));
  }

  /**
   * A draft that holds no id, or the edited row's own id, leaves every id in
   * place, so ids that were unique stay unique.
   */
  lemma SaveEditKeepsIds(data: seq<User>, editingRowId: Option<int>, draft: Draft)
    requires draft.id == None || draft.id == editingRowId
    ensures Ids(SaveEdit(data, editingRowId, draft)) == Ids(data)
    ensures UniqueIds(data) ==> UniqueIds(SaveEdit(data, editingRowId, draft))
  {
    var saved := SaveEdit(data, editingRowId, draft);
    SaveEditSpec(data, editingRowId, draft);
    assert forall i :: 0 <= i < |data| ==> Ids(saved)[i] == Ids(data)[i];
    if UniqueIds(data) {
      SameIdsKeepUniqueIds(saved, data);
    }
  }

  /** Saving an unchanged copy of a stored row, right after Edit, leaves the store as it was. */
  lemma SaveUnchangedCopy(data: seq<User>, row: User)
    requires row in data && UniqueIds(data)
    ensures SaveEdit(data, Some(row.id), CopyOf(row)) == data
  {
    var saved := SaveEdit(data, Some(row.id), CopyOf(row));
    SaveEditSpec(data, Some(row.id), CopyOf(row));
    var k :| 0 <= k < |data| && data[k] == row;
    forall i | 0 <= i < |data|
      ensures saved[i] == data[i]
    {
      if data[i].id == row.id {
        assert i == k;
      }
    }
  }

  /** The records a confirmed Delete keeps: those whose id differs. */
  function IdIsNot(id: int): User -> bool
  {
    (item: User) => item.id != id
  }

  /** The store after a confirmed Delete. */
  function RemoveById(data: seq<User>, id: int): seq<User>
  {
    Filter(data, IdIsNot(id))
  }

  /**
   * Delete drops every record holding the id and nothing else, keeps the
   * order of the rest, and so keeps ids unique.
   */
  lemma RemoveByIdSpec(data: seq<User>, id: int)
    ensures forall u :: u in RemoveById(data, id) <==> u in data && u.id != id
    ensures forall u :: multiset(RemoveById(data, id))[u] == if u.id != id then multiset(data)[u] else 0
    ensures IsSubsequence(RemoveById(data, id), data)
    ensures UniqueIds(data) ==> UniqueIds(RemoveById(data, id))
  {
    FilterMembership(data, IdIsNot(id));
    FilterMultiset(data, IdIsNot(id));
    FilterIsSubsequence(data, IdIsNot(id));
    if UniqueIds(data) {
      SubsequenceKeepsUniqueIds(RemoveById(data, id), data);
    }
  }

  /**
   * The table component's own state. `owner` is the dashboard whose `users`
   * the table receives as `data` and replaces through `setData`.
   */
  class TableState {
    const owner: Dashboard
    var searchTerm: string
    var selectedRole: string
    var editingRowId: Option<int>
    var editFormData: Draft

    /** Idle: no row and `{}`; Editing: a row id and a full draft of that row, with that id. */
    ghost predicate Valid()
      reads this
    {
      match editingRowId
      case None => editFormData == EmptyDraft
      case Some(id) => Complete(editFormData) && editFormData.id == Some(id)
    }

    constructor (owner: Dashboard)
      ensures Valid() && this.owner == owner
      ensures searchTerm == "" && selectedRole == ""
      ensures editingRowId == None && editFormData == EmptyDraft
    {
      this.owner := owner;
      searchTerm := "";
      selectedRole := "";
      editingRowId := None;
      editFormData := EmptyDraft;
    }

    /** The rows the table shows (before the table library sorts and pages them). */
    function Rows(): seq<User>
      reads this, owner
    {
      FilteredData(owner.users, searchTerm, selectedRole)
    }

    /**
     * The table's page count over the shown rows: filtering never needs more
     * pages than the whole store, and there are no pages exactly when no user
     * passes the filter.
     */
    function PageTotal(): (pages: nat)
      reads this, owner
      ensures pages == PageCount(|Rows()|)
      ensures pages <= PageCount(|owner.users|)
      ensures pages == 0 <==> forall u :: u in owner.users ==> !(MatchesName(u, searchTerm) && MatchesRole(u, selectedRole))
    {
      FilteredDataSpec(owner.users, searchTerm, selectedRole);
      PageCountMonotone(|Rows()|, |owner.users|);
      PageCount(|Rows()|)
    }

    method SetSearchTerm(term: string)
      modifies this`searchTerm
      ensures searchTerm == term
    {
      searchTerm := term;
    }

    method SetSelectedRole(role: string)
      modifies this`selectedRole
      ensures selectedRole == role
    {
      selectedRole := role;
    }

    /** `onEditClick`: start editing `row` with a copy of all its keys (this also switches away from another row). */
    method OnEditClick(row: User)
      requires Valid()
      modifies this`editingRowId, this`editFormData
      ensures Valid()
      ensures editingRowId == Some(row.id) && editFormData == CopyOf(row)
    {
      editingRowId := Some(row.id);
      editFormData := CopyOf(row);
    }

    /** `onCancelClick`: back to Idle, the draft discarded and the store untouched. */
    method OnCancelClick()
      requires Valid()
      modifies this`editingRowId, this`editFormData
      ensures Valid()
      ensures editingRowId == None && editFormData == EmptyDraft
    {
      editingRowId := None;
      editFormData := EmptyDraft;
    }

    /** `handleInputChange(field, value)`: only the named key of the draft changes. */
    method HandleInputChange(field: Field, value: string)
      requires Valid() && editingRowId.Some?
      modifies this`editFormData
      ensures Valid()
      ensures editFormData == SetField(old(editFormData), field, value)
    {
      editFormData := SetField(editFormData, field, value);
    }

    /**
     * `onSaveClick`: the edited record takes the draft's keys, every other
     * record and every id stays as it was, and the session returns to Idle.
     */
    method OnSaveClick()
      requires Valid()
      modifies this`editingRowId, this`editFormData, owner`users
      ensures Valid()
      ensures owner.users == SaveEdit(old(owner.users), old(editingRowId), old(editFormData))
      ensures Ids(owner.users) == Ids(old(owner.users))
      ensures old(UniqueIds(owner.users)) ==> UniqueIds(owner.users)
      ensures editingRowId == None && editFormData == EmptyDraft
    {
      SaveEditKeepsIds(owner.users, editingRowId, editFormData);
      owner.users := SaveEdit(owner.users, editingRowId, editFormData);
      editingRowId := None;
      editFormData := EmptyDraft;
    }

    /**
     * `onDeleteClick` for the row with id `rowId`, `confirmed` being the
     * answer to the confirmation prompt: on yes the row's id leaves the store
     * and, if that row was being edited, the session returns to Idle; on no
     * nothing changes.
     */
    method OnDeleteClick(rowId: int, confirmed: bool)
      requires Valid()
      modifies this`editingRowId, this`editFormData, owner`users
      ensures Valid()
      ensures owner.users == if confirmed then RemoveById(old(owner.users), rowId) else old(owner.users)
      ensures old(UniqueIds(owner.users)) ==> UniqueIds(owner.users)
      ensures if confirmed && old(editingRowId) == Some(rowId)
              then editingRowId == None && editFormData == EmptyDraft
              else editingRowId == old(editingRowId) && editFormData == old(editFormData)
    {
      if confirmed {
        RemoveByIdSpec(owner.users, rowId);
        owner.users := RemoveById(owner.users, rowId);
        if editingRowId == Some(rowId) {
          editingRowId := None;
          editFormData := EmptyDraft;
        }
      }
    }
  }
}
