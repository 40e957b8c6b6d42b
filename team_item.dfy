/** One node of the rendered team forest (`TeamItem`): its accordion and
    dialog state, and the values it derives for display. */
module TeamItem {
  import opened Types

  /** An employee sub-list opens by itself when it has one to three entries,
      and so only when the node shows an employee chip. */
  function AutoExpand(count: nat): (r: bool)
    ensures r <==> count in {1, 2, 3}
    ensures r ==> EmployeeChip(count).Some?
  {
    count > 0 && count < 4
  }

  /** `isFormerEmployee`: the end date is set, reads as a date, and lies
      strictly before `now`. `parse` stands for `new Date(text)`; a comparison
      with an Invalid Date is false. */
  function IsFormerEmployee(e: Employee, now: int, parse: string -> Moment): (r: bool)
    ensures !Truthy(e.endDate) ==> !r
    ensures r ==> parse(e.endDate.value).At? && parse(e.endDate.value).time < now
    ensures Truthy(e.endDate) && parse(e.endDate.value).At? ==> (r <==> parse(e.endDate.value).time < now)
  {
    if !Truthy(e.endDate) then false
    else match parse(e.endDate.value)
      case At(t) => t < now
      case InvalidDate => false
  }

  /** Once an employee reads as former, it stays former as time goes on; an
      employee whose end date is the current instant is not former yet. */
  lemma FormerStaysFormer(e: Employee, now: int, later: int, parse: string -> Moment)
    requires now <= later
    ensures IsFormerEmployee(e, now, parse) ==> IsFormerEmployee(e, later, parse)
    ensures Truthy(e.endDate) && parse(e.endDate.value) == At(now) ==> !IsFormerEmployee(e, now, parse)
    ensures Truthy(e.endDate) && parse(e.endDate.value) == At(now) ==> IsFormerEmployee(e, now + 1, parse)
  {
  }

  /** `formatDate`: "N/A" for a null or empty date; otherwise the local date
      text of the parsed date (`local` stands for `toLocaleDateString`), which
      for an unreadable date is "Invalid Date". */
  function FormatDate(date: Option<string>, parse: string -> Moment, local: int -> string): (r: string)
    ensures !Truthy(date) ==> r == "N/A"
    ensures Truthy(date) && parse(date.value).InvalidDate? ==> r == "Invalid Date"
    ensures Truthy(date) && parse(date.value).At? ==> r == local(parse(date.value).time)
  {
    if !Truthy(date) then "N/A"
    else match parse(date.value)
      case At(t) => local(t)
      case InvalidDate => "Invalid Date"
  }

  /** The decimal text of a count, as a template string renders it. */
  function Decimal(n: nat): (r: string)
    ensures |r| > 0 && forall k :: 0 <= k < |r| ==> '0' <= r[k] <= '9'
    ensures n > 0 ==> r[0] != '0'
  {
    if n < 10 then [Digit(n)] else Decimal(n / 10) + [Digit(n % 10)]
  }

  function Digit(d: nat): char
    requires d < 10
  {
    "0123456789"[d]
  }

  /** The value of a string of decimal digits. */
  function DigitsValue(s: string): nat
    requires forall k :: 0 <= k < |s| ==> '0' <= s[k] <= '9'
  {
    if s == [] then 0 else DigitsValue(s[..|s| - 1]) * 10 + (s[|s| - 1] - '0') as nat
  }

  /** The count a chip shows reads back as the count. */
  lemma {:induction false} DecimalRoundTrip(n: nat)
    ensures DigitsValue(Decimal(n)) == n
  {
    if n >= 10 {
      DecimalRoundTrip(n / 10);
      var s := Decimal(n);
      assert s[..|s| - 1] == Decimal(n / 10);
    }
  }

  /** `${count} ${count === 1 ? singular : plural}`. */
  function ChipLabel(count: nat, singular: string, plural: string): string
  {
    Decimal(count) + " " + (if count == 1 then singular else plural)
  }

  /** The employee-count chip: only when there are employees, saying
      "zamestnanec" for one and "zamestnanci" otherwise. */
  function EmployeeChip(count: nat): (r: Option<string>)
    ensures r.Some? <==> count > 0
    ensures r.Some? ==> r.value == Decimal(count) + " " + (if count == 1 then "zamestnanec" else "zamestnanci")
  {
    if count > 0 then Some(ChipLabel(count, "zamestnanec", "zamestnanci")) else None
  }

  /** The subteam chip: only when the node has children, saying "tím" for
      one and "tímy" otherwise. */
  function SubteamChip(t: Team): (r: Option<string>)
    ensures r.Some? <==> |t.children| > 0
    ensures r.Some? ==> r.value == Decimal(|t.children|) + " " + (if |t.children| == 1 then "tím" else "tímy")
  {
    if |t.children| > 0 then Some(ChipLabel(|t.children|, "tím", "tímy")) else None
  }

  /** A chip label is the count in decimal, a space, and the singular noun
      exactly when the count is one. */
  lemma ChipLabelReads(count: nat, singular: string, plural: string)
    ensures var text := ChipLabel(count, singular, plural);
      var digits := Decimal(count);
      text[..|digits|] == digits && DigitsValue(digits) == count && text[|digits|] == ' ' &&
      text[|digits| + 1..] == if count == 1 then singular else plural
  {
    DecimalRoundTrip(count);
  }

  /** The state of one rendered node. `seenCount` is the employee count the
      expand effect last ran with (`None` before the first render). */
  class ItemState {
    var expanded: bool
    var employeesExpanded: bool
    var editEmployeeId: Option<Id>
    var isEditDialogOpen: bool
    var isEditTeamDialogOpen: bool
    var seenCount: Option<nat>

    /** The employee dialog is open exactly while an employee is chosen for editing. */
    predicate Valid()
      reads this
    {
      isEditDialogOpen <==> editEmployeeId.Some?
    }

    constructor ()
      ensures Valid()
      ensures !expanded && !employeesExpanded && !isEditDialogOpen && !isEditTeamDialogOpen
      ensures editEmployeeId == None && seenCount == None
    {
      expanded := false;
      employeesExpanded := false;
      editEmployeeId := None;
      isEditDialogOpen := false;
      isEditTeamDialogOpen := false;
      seenCount := None;
    }

    /** A render with `count` employees runs the expand effect when the count
        differs from the one it last ran with; otherwise the user's choice stays. */
    method Render(count: nat)
      requires Valid()
      modifies this
      ensures Valid()
      ensures employeesExpanded == if old(seenCount) == Some(count) then old(employeesExpanded) else AutoExpand(count)
      ensures seenCount == Some(count)
      ensures expanded == old(expanded) && editEmployeeId == old(editEmployeeId)
      ensures isEditDialogOpen == old(isEditDialogOpen) && isEditTeamDialogOpen == old(isEditTeamDialogOpen)
    {
      if seenCount != Some(count) {
        employeesExpanded := AutoExpand(count);
        seenCount := Some(count);
      }
    }

    /** `handleChange`: the team accordion. */
    method ToggleTeam()
      requires Valid()
      modifies this
      ensures Valid() && expanded == !old(expanded)
      ensures employeesExpanded == old(employeesExpanded) && editEmployeeId == old(editEmployeeId)
      ensures isEditDialogOpen == old(isEditDialogOpen) && isEditTeamDialogOpen == old(isEditTeamDialogOpen)
      ensures seenCount == old(seenCount)
    {
      expanded := !expanded;
    }

    /** `handleEmployeesAccordionChange`: the employee sub-list accordion. */
    method ToggleEmployees()
      requires Valid()
      modifies this
      ensures Valid() && employeesExpanded == !old(employeesExpanded)
      ensures expanded == old(expanded) && editEmployeeId == old(editEmployeeId)
      ensures isEditDialogOpen == old(isEditDialogOpen) && isEditTeamDialogOpen == old(isEditTeamDialogOpen)
      ensures seenCount == old(seenCount)
    {
      employeesExpanded := !employeesExpanded;
    }

    /** `handleEditEmployee`. */
    method EditEmployee(id: Id)
      modifies this
      ensures Valid() && editEmployeeId == Some(id) && isEditDialogOpen
      ensures expanded == old(expanded) && employeesExpanded == old(employeesExpanded)
      ensures isEditTeamDialogOpen == old(isEditTeamDialogOpen) && seenCount == old(seenCount)
    {
      editEmployeeId := Some(id);
      isEditDialogOpen := true;
    }

    /** `handleCloseEditDialog`. */
    method CloseEditDialog()
      modifies this
      ensures Valid() && editEmployeeId == None && !isEditDialogOpen
      ensures expanded == old(expanded) && employeesExpanded == old(employeesExpanded)
      ensures isEditTeamDialogOpen == old(isEditTeamDialogOpen) && seenCount == old(seenCount)
    {
      isEditDialogOpen := false;
      editEmployeeId := None;
    }

    /** `handleEditTeam`. */
    method EditTeam()
      requires Valid()
      modifies this
      ensures Valid() && isEditTeamDialogOpen
      ensures expanded == old(expanded) && employeesExpanded == old(employeesExpanded)
      ensures editEmployeeId == old(editEmployeeId) && isEditDialogOpen == old(isEditDialogOpen)
      ensures seenCount == old(seenCount)
    {
      isEditTeamDialogOpen := true;
    }

    /** `handleCloseTeamEditDialog`. */
    method CloseTeamEditDialog()
      requires Valid()
      modifies this
      ensures Valid() && !isEditTeamDialogOpen
      ensures expanded == old(expanded) && employeesExpanded == old(employeesExpanded)
      ensures editEmployeeId == old(editEmployeeId) && isEditDialogOpen == old(isEditDialogOpen)
      ensures seenCount == old(seenCount)
    {
      isEditTeamDialogOpen := false;
    }
  }

  /** Scenario: a node with two employees opens its list on the first render,
      one with five does not. */
  method AutoExpandScenario() returns (two: bool, five: bool)
    ensures two && !five
  {
    var a := new ItemState();
    a.Render(2);
    var b := new ItemState();
    b.Render(5);
    two, five := a.employeesExpanded, b.employeesExpanded;
  }
}
