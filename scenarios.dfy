/**
 * Concrete walks through the dashboard, written as lemmas over the pure
 * functions and as client methods that drive the component classes.
 */
module Scenarios {
  import opened Wrappers
  import opened Seqs
  import opened Text
  import opened Users
  import opened Dashboard
  import opened UserTable
  import opened AddUserModal

  const Ann := User(1, "Ann", "ann@example.com", "Admin", "Active")
  const Ben := User(2, "Ben", "ben@example.com", "User", "Pending")

  /** Searching "an" matches "Ann" case-insensitively and not "Ben". */
  lemma SearchIsCaseInsensitiveSubstring()
    ensures FilteredData([Ann, Ben], "an", "") == [Ann]
  {
    assert Lower("Ann") == "ann";
    assert Lower("Ben") == "ben";
    assert Lower("an") == "an";
    assert "an" <= "ann"[0..];
    assert MatchesName(Ann, "an");
    assert Keeps("an", "")(Ann) && !Keeps("an", "")(Ben);
    assert [Ann, Ben][1..] == [Ben] && [Ben][1..] == [];
    assert Filter([Ben], Keeps("an", "")) == [];
    assert !MatchesName(Ben, "an") by {
      forall i | 0 <= i <= 3
        ensures !("an" <= "ben"[i..])
      {
        assert "ben"[i..] == if i == 0 then "ben" else if i == 1 then "en" else if i == 2 then "n" else "";
      }
    }
  }

  /** The first user of an empty store gets id 1; ids 1, 3, 5 are followed by 6. */
  lemma NewIdsFollowTheLargest()
    ensures NextId([]) == 1
    ensures NextId([Ann.(id := 1), Ann.(id := 3), Ann.(id := 5)]) == 6
  {
    var users := [Ann.(id := 1), Ann.(id := 3), Ann.(id := 5)];
    assert Ids(users) == [1, 3, 5];
    assert MaxOf([1, 3, 5]) == 5;
  }

  /** Deleting the user with the largest id and then adding one hands that id out again. */
  lemma DeletedLargestIdIsReused()
    ensures RemoveById([Ann, Ben], 2) == [Ann]
    ensures NextId(RemoveById([Ann, Ben], 2)) == 2
  {
    assert IdIsNot(2)(Ann) && !IdIsNot(2)(Ben);
    assert [Ann, Ben][1..] == [Ben] && [Ben][1..] == [];
    assert Filter([Ben], IdIsNot(2)) == [];
    assert Ids([Ann]) == [1];
  }

  lemma TrimStartDropsLeadingBlank()
    ensures TrimStart(" Cy ") == "Cy "
  {
    assert IsWhitespace(' ') && !IsWhitespace('C');
    assert " Cy "[0] == ' ' && " Cy "[1..] == "Cy ";
    assert "Cy "[0] == 'C';
  }

  lemma TrimEndDropsTrailingBlank()
    ensures TrimEnd("Cy ") == "Cy"
  {
    assert "Cy "[..2] == "Cy";
  }

  /** Submitting " Cy " and "c@x.com" to an empty store creates user 1 named "Cy". */
  lemma FirstUserGetsIdOne()
    ensures NewUser([], " Cy ", "c@x.com", "Recruiter", "Active") == Success(User(1, "Cy", "c@x.com", "Recruiter", "Active"))
  {
    TrimStartDropsLeadingBlank();
    TrimEndDropsTrailingBlank();
    assert Trim(" Cy ") == "Cy";
    assert TrimStart("c@x.com") == "c@x.com";
    assert TrimEnd("c@x.com") == "c@x.com";
  }

  /** A name made of blanks trims to nothing. */
  lemma BlanksTrimToNothing()
    ensures Trim("  ") == ""
  {
    assert "  "[1..] == " " && " "[1..] == "";
  }

  /** On an empty store, any name and email that are not blank create user 1 from their trimmed values. */
  method CreateInEmptyStore(name: string, email: string)
    requires Trim(name) != "" && Trim(email) != ""
  {
    var dashboard := new Dashboard([]);
    dashboard.OpenAddUserModal();
    var form := new Form(dashboard);
    form.name, form.email := name, email;
    var alert := form.HandleSubmit();
    assert alert == None;
    assert dashboard.users == [User(1, Trim(name), Trim(email), DefaultRole, DefaultStatus)];
    assert form.IsReset() && !dashboard.isAddModalOpen;
  }

  /** A blank name is turned away with the alert, and the store, the form and the dialog stay as they were. */
  method BlankNameIsRejected(name: string)
    requires Trim(name) == ""
  {
    var dashboard := new Dashboard([Ann]);
    dashboard.OpenAddUserModal();
    var form := new Form(dashboard);
    form.name, form.email := name, "c@x.com";
    var alert := form.HandleSubmit();
    assert alert == Some(RequiredMessage);
    assert dashboard.users == [Ann] && dashboard.isAddModalOpen && form.name == name;
  }

  method CancelKeepsStore()
  {
    var dashboard := new Dashboard([Ann, Ben]);
    var table := new TableState(dashboard);
    table.OnEditClick(Ben);
    table.HandleInputChange(Role, "Admin");
    table.OnCancelClick();
    assert dashboard.users == [Ann, Ben] && dashboard.users[1].role == "User";
    assert table.editingRowId == None;
  }

  method SaveCommitsDraft()
  {
    var dashboard := new Dashboard([Ann, Ben]);
    var table := new TableState(dashboard);
    table.OnEditClick(Ben);
    table.HandleInputChange(Status, "Inactive");
    table.OnSaveClick();
    SaveEditSpec([Ann, Ben], Some(2), SetField(CopyOf(Ben), Status, "Inactive"));
    assert dashboard.users == [Ann, Ben.(status := "Inactive")];
    assert table.editingRowId == None;
  }

  /**
   * The delete handler run on the row being edited. The rendered table offers
   * no Delete button on that row, so this walks the handler alone, not a
   * sequence of clicks.
   */
  method DeleteEditedRowEndsSession()
  {
    var dashboard := new Dashboard([Ann, Ben]);
    var table := new TableState(dashboard);
    table.OnEditClick(Ben);
    table.OnDeleteClick(2, false);
    assert dashboard.users == [Ann, Ben] && table.editingRowId == Some(2);
    table.OnDeleteClick(2, true);
    DeletedLargestIdIsReused();
    assert dashboard.users == [Ann];
    assert table.editingRowId == None && table.editFormData == EmptyDraft;
  }
}
