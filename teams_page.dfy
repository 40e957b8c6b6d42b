/** The teams page (`pages/teams.tsx`): the employee selection used for bulk
    deletion, the edit-mode flag, the two mutually exclusive "add" panels, and
    which screen the page shows. */
module TeamsPage {
  import opened Types
  import opened Sequences

  /** `ids.filter(x => x !== id)`. */
  function Without(ids: seq<Id>, id: Id): (r: seq<Id>)
    ensures id !in r
    ensures forall x :: x != id ==> multiset(r)[x] == multiset(ids)[x]
  {
    if ids == [] then []
    else
      assert ids == [ids[0]] + ids[1..];
      (if ids[0] == id then [] else [ids[0]]) + Without(ids[1..], id)
  }

  /** Unchecking keeps the other selected ids in their order. */
  lemma {:induction false} WithoutKeepsOrder(ids: seq<Id>, id: Id)
    ensures IsSubsequence(Without(ids, id), ids)
  {
    if ids != [] {
      WithoutKeepsOrder(ids[1..], id);
      var rest := Without(ids[1..], id);
      if ids[0] == id {
        assert Without(ids, id) == rest;
        SubsequenceSkip(rest, ids);
      } else {
        assert Without(ids, id)[1..] == rest;
      }
    }
  }

  lemma {:induction false} WithoutAppend(ids: seq<Id>, extra: seq<Id>, id: Id)
    ensures Without(ids + extra, id) == Without(ids, id) + Without(extra, id)
  {
    if ids != [] {
      WithoutAppend(ids[1..], extra, id);
      assert (ids + extra)[0] == ids[0];
      assert (ids + extra)[1..] == ids[1..] + extra;
    } else {
      assert ids + extra == extra;
    }
  }

  /** The updater `handleEmployeeSelect` passes to `setSelectedEmployees`:
      checking appends the id, unchecking drops every occurrence of it. */
  function SelectionUpdate(prev: seq<Id>, id: Id, checked: bool): (r: seq<Id>)
    ensures checked ==> multiset(r) == multiset(prev) + multiset{id}
    ensures !checked ==> multiset(r) == multiset(prev)[id := 0]
  {
    if checked then prev + [id] else Without(prev, id)
  }

  /** `selectedEmployees.includes(employee.id)`: the checkbox of an employee. */
  function IsChecked(selected: seq<Id>, id: Id): (r: bool)
    ensures r <==> multiset(selected)[id] > 0
  {
    id in selected
  }

  /** A checkbox event changes only the clicked employee's checkbox, and
      leaves it in the state the event asked for. */
  lemma CheckboxFollowsSelection(prev: seq<Id>, id: Id, checked: bool, other: Id)
    ensures IsChecked(SelectionUpdate(prev, id, checked), id) == checked
    ensures other != id ==> (IsChecked(SelectionUpdate(prev, id, checked), other) <==> IsChecked(prev, other))
  {
    if !checked && other != id {
      assert multiset(Without(prev, id))[other] == multiset(prev)[other];
    }
  }

  /** Checking twice puts the id in twice; one uncheck then removes both, and
      leaves the selection as unchecking would have left it before. */
  lemma CheckTwiceThenUncheck(prev: seq<Id>, id: Id)
    ensures multiset(SelectionUpdate(SelectionUpdate(prev, id, true), id, true))[id] == multiset(prev)[id] + 2
    ensures SelectionUpdate(SelectionUpdate(SelectionUpdate(prev, id, true), id, true), id, false) == Without(prev, id)
  {
    var twice := SelectionUpdate(SelectionUpdate(prev, id, true), id, true);
    assert twice == prev + [id, id];
    assert multiset(twice) == multiset(prev) + multiset{id, id};
    WithoutAppend(prev, [id, id], id);
    assert Without([id, id], id) == [] by {
      assert Without([id, id], id) == Without([id], id);
      assert [id][1..] == [];
    }
  }

  /** `isLoading`: either query still loading, or a bulk delete in flight. */
  predicate IsLoading(teamsLoading: bool, employeesLoading: bool, deletePending: bool)
  {
    teamsLoading || employeesLoading || deletePending
  }

  /** The spinner shows exactly while either query loads or a bulk delete is
      in flight; otherwise the panels and the team count decide. */
  lemma SpinnerWhileLoading(teamsLoading: bool, employeesLoading: bool, deletePending: bool,
                            showAddTeam: bool, showAddEmployee: bool, teamCount: nat)
    ensures ScreenOf(IsLoading(teamsLoading, employeesLoading, deletePending), showAddTeam, showAddEmployee, teamCount) == Spinner
      <==> teamsLoading || employeesLoading || deletePending
    ensures !teamsLoading && !employeesLoading && !deletePending ==>
      ScreenOf(IsLoading(teamsLoading, employeesLoading, deletePending), showAddTeam, showAddEmployee, teamCount) ==
      ScreenOf(false, showAddTeam, showAddEmployee, teamCount)
  {
  }

  /** What the body of the page shows. */
  datatype Screen = Spinner | TeamForm | EmployeeForm | TeamList | NoTeams

  function ScreenOf(loading: bool, showAddTeam: bool, showAddEmployee: bool, teamCount: nat): (r: Screen)
    ensures r == Spinner <==> loading
    ensures r == TeamForm <==> !loading && showAddTeam
    ensures r == EmployeeForm <==> !loading && !showAddTeam && showAddEmployee
    ensures r == TeamList <==> !loading && !showAddTeam && !showAddEmployee && teamCount > 0
    ensures r == NoTeams <==> !loading && !showAddTeam && !showAddEmployee && teamCount == 0
  {
    if loading then Spinner
    else if showAddTeam then TeamForm
    else if showAddEmployee then EmployeeForm
    else if teamCount > 0 then TeamList
    else NoTeams
  }

  /** With the two panels never open together, a loaded page shows the add
      form of whichever panel is open, and the list (or the empty notice)
      exactly when neither is. */
  lemma ScreenFollowsPanels(showAddTeam: bool, showAddEmployee: bool, teamCount: nat)
    requires !(showAddTeam && showAddEmployee)
    ensures ScreenOf(false, showAddTeam, showAddEmployee, teamCount) == TeamForm <==> showAddTeam
    ensures ScreenOf(false, showAddTeam, showAddEmployee, teamCount) == EmployeeForm <==> showAddEmployee
    ensures ScreenOf(false, showAddTeam, showAddEmployee, teamCount) in {TeamList, NoTeams} <==>
      !showAddTeam && !showAddEmployee
  {
  }

  /** The page's state. `deleteFailed` stands for the bulk-delete mutation's
      `error`, which the page shows in an alert. */
  class Page {
    var selected: seq<Id>
    var isEditMode: bool
    var showAddTeam: bool
    var showAddEmployee: bool
    var deleteFailed: bool

    /** The two "add" panels are never open together. */
    predicate Valid()
      reads this
    {
      !(showAddTeam && showAddEmployee)
    }

    constructor ()
      ensures Valid()
      ensures selected == [] && !isEditMode && !showAddTeam && !showAddEmployee && !deleteFailed
    {
      selected := [];
      isEditMode := false;
      showAddTeam := false;
      showAddEmployee := false;
      deleteFailed := false;
    }

    /** `handleEmployeeSelect`. */
    method SelectEmployee(id: Id, checked: bool)
      requires Valid()
      modifies this
      ensures Valid()
      ensures selected == SelectionUpdate(old(selected), id, checked)
      ensures isEditMode == old(isEditMode) && showAddTeam == old(showAddTeam)
      ensures showAddEmployee == old(showAddEmployee) && deleteFailed == old(deleteFailed)
    {
      selected := SelectionUpdate(selected, id, checked);
    }

    /** `handleDeleteSelected`, with the remote outcome as a parameter. With
        nothing selected no request is made; otherwise the whole selection is
        sent, and it is cleared only when the deletion succeeds. */
    method DeleteSelected(succeeds: bool) returns (sent: Option<seq<Id>>)
      requires Valid()
      modifies this
      ensures Valid()
      ensures old(selected) == [] ==> sent == None && deleteFailed == old(deleteFailed)
      ensures old(selected) != [] ==> sent == Some(old(selected)) && deleteFailed == !succeeds
      ensures selected == if old(selected) != [] && succeeds then [] else old(selected)
      ensures isEditMode == old(isEditMode) && showAddTeam == old(showAddTeam)
      ensures showAddEmployee == old(showAddEmployee)
    {
      if |selected| == 0 {
        return None;
      }
      sent := Some(selected);
      if succeeds {
        deleteFailed := false;
        selected := [];
      } else {
        deleteFailed := true;
      }
    }

    /** `toggleEditMode`. */
    method ToggleEditMode()
      requires Valid()
      modifies this
      ensures Valid()
      ensures isEditMode == !old(isEditMode)
      ensures selected == old(selected) && showAddTeam == old(showAddTeam)
      ensures showAddEmployee == old(showAddEmployee) && deleteFailed == old(deleteFailed)
    {
      isEditMode := !isEditMode;
    }

    /** `handleAddTeamClick`. */
    method AddTeamClick()
      modifies this
      ensures Valid() && showAddTeam && !showAddEmployee
      ensures selected == old(selected) && isEditMode == old(isEditMode) && deleteFailed == old(deleteFailed)
    {
      showAddTeam := true;
      showAddEmployee := false;
    }

    /** `handleAddEmployeeClick`. */
    method AddEmployeeClick()
      modifies this
      ensures Valid() && showAddEmployee && !showAddTeam
      ensures selected == old(selected) && isEditMode == old(isEditMode) && deleteFailed == old(deleteFailed)
    {
      showAddEmployee := true;
      showAddTeam := false;
    }

    /** `handleBackToList`, also the forms' `onSuccess` callback. */
    method BackToList()
      modifies this
      ensures Valid() && !showAddTeam && !showAddEmployee
      ensures selected == old(selected) && isEditMode == old(isEditMode) && deleteFailed == old(deleteFailed)
    {
      showAddTeam := false;
      showAddEmployee := false;
    }
  }
}
