/** The create-group sidebar: a bounded, ordered selection of user ids and
    the group name, with the validation in front of `onGroupCreate`. */
module GroupSidebar {
  import opened Wrappers
  import opened Seqs
  import opened Text

  /** The most ids the sidebar lets the user select. */
  const MaxUsers: nat := 50

  /** A selection the sidebar can hold: no id twice, at most `MaxUsers`. */
  ghost predicate WellFormed(selected: seq<string>)
  {
    |selected| <= MaxUsers && forall i, j :: 0 <= i < j < |selected| ==> selected[i] != selected[j]
  }

  /** The selection with every copy of `id` removed, the others kept in order. */
  function Without(selected: seq<string>, id: string): (r: seq<string>)
    ensures id !in r
    ensures IsSubsequence(r, selected)
    ensures forall x :: x in selected && x != id ==> x in r
  {
    Filter(selected, (x: string) => x != id)
  }

  /** One click on a user row: deselect when selected, append when there is
      room, otherwise leave the selection as it is (the source alerts). */
  function Toggle(selected: seq<string>, id: string): (r: seq<string>)
    ensures id in selected ==> r == Without(selected, id)
    ensures id !in selected && |selected| < MaxUsers ==> r == selected + [id]
    ensures id !in selected && |selected| >= MaxUsers ==> r == selected
  {
    if id in selected then Without(selected, id)
    else if |selected| < MaxUsers then selected + [id]
    else selected
  }

  /** Removing an id that is not selected changes nothing. */
  lemma {:induction false} WithoutAbsent(selected: seq<string>, id: string)
    requires id !in selected
    ensures Without(selected, id) == selected
  {
    if selected != [] {
      assert Without(selected, id) == [selected[0]] + Without(selected[1..], id);
      WithoutAbsent(selected[1..], id);
    }
  }

  /** Removing an id from a duplicate-free selection drops exactly that one
      position. */
  lemma {:induction false} WithoutUnique(selected: seq<string>, k: nat)
    requires k < |selected|
    requires forall i, j :: 0 <= i < j < |selected| ==> selected[i] != selected[j]
    ensures Without(selected, selected[k]) == selected[..k] + selected[k + 1..]
  {
    var id := selected[k];
    if k == 0 {
      assert Without(selected, id) == Without(selected[1..], id);
      assert id !in selected[1..];
      WithoutAbsent(selected[1..], id);
    } else {
      var rest := selected[1..];
      assert Without(selected, id) == [selected[0]] + Without(rest, id);
      assert rest[k - 1] == id;
      WithoutUnique(rest, k - 1);
      assert selected[..k] == [selected[0]] + rest[..k - 1];
      assert selected[k + 1..] == rest[k..];
    }
  }

  /** Every click keeps the selection free of duplicates and within the cap. */
  lemma ToggleKeepsWellFormed(selected: seq<string>, id: string)
    requires WellFormed(selected)
    ensures WellFormed(Toggle(selected, id))
  {
    if id in selected {
      var k :| 0 <= k < |selected| && selected[k] == id;
      WithoutUnique(selected, k);
    }
  }

  /** Clicking an unselected user twice, below the cap, restores the
      selection. */
  lemma ToggleTwiceRestores(selected: seq<string>, id: string)
    requires WellFormed(selected) && id !in selected && |selected| < MaxUsers
    ensures Toggle(Toggle(selected, id), id) == selected
  {
    var once := selected + [id];
    assert once[|selected|] == id;
    WithoutUnique(once, |selected|);
    assert once[..|selected|] == selected;
  }

  /** "Create Group" is accepted with at least two users and a name that is
      not blank. */
  predicate CanCreate(selected: seq<string>, groupName: string)
  {
    |selected| >= 2 && Trim(groupName) != ""
  }

  lemma CanCreateIffNamed(selected: seq<string>, groupName: string)
    ensures CanCreate(selected, groupName) <==>
      |selected| >= 2 && exists i :: 0 <= i < |groupName| && !IsSpace(groupName[i])
  {
    TrimEmptyIffBlank(groupName);
  }

  /** The text of the create button. */
  function ButtonLabel(count: nat): (r: string)
    ensures count == 0 ==> r == "Create Group"
    ensures count == 1 ==> r == "Create Group with 1 User"
    ensures count > 1 ==> r == "Create Group with " + Decimal(count) + " Users"
  {
    if count > 0 then
      if count == 1 then "Create Group with " + Decimal(count) + " User"
      else "Create Group with " + Decimal(count) + " Users"
    else "Create Group"
  }

  /** The button tells different selection sizes apart. */
  lemma ButtonLabelInjective(n: nat, m: nat)
    requires ButtonLabel(n) == ButtonLabel(m)
    ensures n == m
  {
    if n > 1 && m > 1 {
      var text := ButtonLabel(n);
      var start := |"Create Group with "|;
      assert text[start..|text| - 6] == Decimal(n);
      assert text[start..|text| - 6] == Decimal(m);
      DecimalInjective(n, m);
    }
  }

  /** The parent callbacks the sidebar invokes, with their arguments. */
  datatype ParentCall = GroupCreate(name: string, members: seq<string>) | CloseSidebar

  class GroupSidebarPanel {
    var selectedUsers: seq<string>
    var groupName: string

    ghost predicate Valid()
      reads this
    {
      WellFormed(selectedUsers)
    }

    constructor ()
      ensures Valid() && selectedUsers == [] && groupName == ""
    {
      selectedUsers := [];
      groupName := "";
    }

    /** The name field's `onChange`. */
    method SetGroupName(value: string)
      modifies this
      ensures groupName == value && selectedUsers == old(selectedUsers)
    {
      groupName := value;
    }

    /** `capped` is true when the click was refused at the cap. */
    method HandleSelectUser(id: string) returns (capped: bool)
      requires Valid()
      modifies this
      ensures Valid()
      ensures selectedUsers == Toggle(old(selectedUsers), id)
      ensures capped <==> id !in old(selectedUsers) && |old(selectedUsers)| >= MaxUsers
      ensures groupName == old(groupName)
    {
      ToggleKeepsWellFormed(selectedUsers, id);
      capped := false;
      if id in selectedUsers {
        selectedUsers := Without(selectedUsers, id);
      } else if |selectedUsers| < MaxUsers {
        selectedUsers := selectedUsers + [id];
      } else {
        capped := true;
      }
    }

    /** On success calls `onGroupCreate` with the name and selection, then
        `onClose`, and clears both; on failure calls nothing and changes
        nothing (the source alerts). */
    method HandleCreateGroup() returns (calls: seq<ParentCall>)
      requires Valid()
      modifies this
      ensures Valid()
      ensures calls != [] <==> CanCreate(old(selectedUsers), old(groupName))
      ensures calls != [] ==>
                calls == [GroupCreate(old(groupName), old(selectedUsers)), CloseSidebar] &&
                groupName == "" && selectedUsers == []
      ensures calls == [] ==> groupName == old(groupName) && selectedUsers == old(selectedUsers)
    {
      if |selectedUsers| >= 2 && Trim(groupName) != "" {
        calls := [GroupCreate(groupName, selectedUsers), CloseSidebar];
        groupName := "";
        selectedUsers := [];
      } else {
        calls := [];
      }
    }
  }
}
