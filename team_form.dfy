/** The team form (`TeamAdd`), used both to add a team and, in the edit
    dialog, to change one. */
module TeamForm {
  import opened Types
  import opened Sequences
  import opened FormFeedback

  /** The form's fields: the name and the chosen parent id ("" for none). */
  datatype Values = Values(name: string, parentTeam: string)

  /** The request body: `{ name, parent_team_id }`, `None` standing for `null`. */
  datatype Payload = Payload(name: string, parentTeamId: Option<Id>)

  /** The fields the form starts from, and returns to on reset. */
  function InitialValues(initialData: Option<Team>): (r: Values)
    ensures initialData.None? ==> r == Values("", "")
    ensures initialData.Some? ==> r.name == initialData.value.name
    ensures initialData.Some? ==> r.parentTeam == OrEmpty(initialData.value.parentTeamId)
  {
    if initialData.None? then Values("", "")
    else Values(initialData.value.name, OrEmpty(initialData.value.parentTeamId))
  }

  /** The schema: the name is required and the parent optional, so a form
      passes exactly when its payload would carry a name. */
  function IsValid(v: Values): (r: bool)
    ensures r <==> PayloadOf(v).name != ""
  {
    v.name != ""
  }

  /** `{ name: formData.name, parent_team_id: formData.parentTeam || null }`. */
  function PayloadOf(v: Values): (r: Payload)
    ensures r.name == v.name
    ensures r.parentTeamId.None? <==> v.parentTeam == ""
    ensures r.parentTeamId.Some? ==> r.parentTeamId.value == v.parentTeam
  {
    Payload(v.name, NonEmpty(v.parentTeam))
  }

  /** Submitting the edit form untouched sends the team's own name and parent
      back to the team's id; an empty-string parent goes back as `null`. */
  lemma UntouchedEditResubmits(t: Team)
    requires t.name != ""
    ensures IsValid(InitialValues(Some(t)))
    ensures Dispatch(true, Some(t.id), PayloadOf(InitialValues(Some(t)))) ==
      Update(t.id, Payload(t.name, if Truthy(t.parentTeamId) then t.parentTeamId else None))
  {
  }

  /** The parent choices: every team but the one being edited, in order
      (`teams.filter(t => t.id !== initialData?.id)`). */
  function ParentOptions(teams: seq<Team>, editing: Option<Team>): (r: seq<Team>)
    ensures editing.Some? ==> forall t :: t in r ==> t.id != editing.value.id
    ensures editing.None? ==> r == teams
    ensures forall t :: t in r <==> t in teams && (editing.None? || t.id != editing.value.id)
    ensures forall t :: multiset(r)[t] == if editing.None? || t.id != editing.value.id then multiset(teams)[t] else 0
  {
    if teams == [] then []
    else
      assert teams == [teams[0]] + teams[1..];
      (if editing.Some? && teams[0].id == editing.value.id then [] else [teams[0]]) + ParentOptions(teams[1..], editing)
  }

  lemma {:induction false} ParentOptionsKeepOrder(teams: seq<Team>, editing: Option<Team>)
    ensures IsSubsequence(ParentOptions(teams, editing), teams)
  {
    if teams != [] {
      ParentOptionsKeepOrder(teams[1..], editing);
      var rest := ParentOptions(teams[1..], editing);
      if editing.Some? && teams[0].id == editing.value.id {
        assert ParentOptions(teams, editing) == rest;
        SubsequenceSkip(rest, teams);
      } else {
        assert ParentOptions(teams, editing)[1..] == rest;
      }
    }
  }

  /** The banner texts, which depend only on the mode. */
  function ErrorText(isEditMode: bool): string
  {
    if isEditMode then "Error updating team" else "Error adding team"
  }

  function SuccessText(isEditMode: bool): string
  {
    if isEditMode then "Team Updated" else "Team Added"
  }

  /** The four banner texts differ, so a banner tells which request ran and
      how it ended. */
  lemma BannerTextsDiffer()
    ensures ErrorText(false) != ErrorText(true) && SuccessText(false) != SuccessText(true)
    ensures forall m, n :: ErrorText(m) != SuccessText(n)
  {
  }

  class Form {
    const isEditMode: bool
    const initialData: Option<Team>
    const feedback: Feedback
    var values: Values

    predicate Valid()
      reads this, feedback
    {
      feedback.Valid()
    }

    constructor (isEditMode: bool, initialData: Option<Team>)
      ensures Valid() && fresh(feedback)
      ensures this.isEditMode == isEditMode && this.initialData == initialData
      ensures values == InitialValues(initialData)
      ensures !feedback.success && !feedback.formError && feedback.timers == []
      ensures !feedback.createPending && !feedback.updatePending
    {
      this.isEditMode := isEditMode;
      this.initialData := initialData;
      feedback := new Feedback();
      values := InitialValues(initialData);
    }

    /** The user edits the fields. */
    method Edit(v: Values)
      requires Valid()
      modifies this
      ensures Valid() && values == v
    {
      values := v;
    }

    function InitialId(): Option<Id>
      reads this
    {
      if initialData.Some? then Some(initialData.value.id) else None
    }

    /** `onSubmit`. Nothing is sent while the button is disabled (`isPending`)
        or while the schema rejects the fields; otherwise the payload goes to
        an update of `initialData.id` in edit mode and to a create otherwise. */
    method Submit() returns (sent: Option<Request<Payload>>)
      requires Valid()
      modifies feedback
      ensures Valid()
      ensures sent.Some? <==>
        !old(IsPending(isEditMode, feedback.createPending, feedback.updatePending)) && IsValid(values)
      ensures sent.Some? ==> sent.value == Dispatch(isEditMode, InitialId(), PayloadOf(values))
      ensures sent.Some? ==> feedback.Pending(MutationOf(sent.value))
      ensures sent.Some? && MutationOf(sent.value) == CreateMutation ==> feedback.updatePending == old(feedback.updatePending)
      ensures sent.Some? && MutationOf(sent.value) == UpdateMutation ==> feedback.createPending == old(feedback.createPending)
      ensures sent.None? ==> feedback.createPending == old(feedback.createPending)
      ensures sent.None? ==> feedback.updatePending == old(feedback.updatePending)
      ensures feedback.success == old(feedback.success) && feedback.formError == old(feedback.formError)
      ensures feedback.timers == old(feedback.timers)
    {
      if IsPending(isEditMode, feedback.createPending, feedback.updatePending) || !IsValid(values) {
        return None;
      }
      var request := Dispatch(isEditMode, InitialId(), PayloadOf(values));
      feedback.Begin(MutationOf(request));
      sent := Some(request);
    }

    /** The mutation `m` settles; a successful create resets the fields to
        their initial values, a successful update keeps them. */
    method Settle(m: Mutation, ok: bool)
      requires Valid()
      modifies this, feedback
      ensures Valid()
      ensures values == if old(feedback.Pending(m)) && ok && m == CreateMutation then InitialValues(initialData) else old(values)
      ensures !old(feedback.Pending(m)) ==> (feedback.success == old(feedback.success) &&
        feedback.formError == old(feedback.formError) && feedback.timers == old(feedback.timers))
      ensures old(feedback.Pending(m)) && ok ==> (feedback.success &&
        feedback.formError == old(feedback.formError) && feedback.timers == old(feedback.timers) + [SuccessTimer])
      ensures old(feedback.Pending(m)) && !ok ==> (feedback.formError &&
        feedback.success == old(feedback.success) && feedback.timers == old(feedback.timers) + [ErrorTimer])
      ensures !feedback.Pending(m)
      ensures m == CreateMutation ==> feedback.updatePending == old(feedback.updatePending)
      ensures m == UpdateMutation ==> feedback.createPending == old(feedback.createPending)
    {
      var reset := feedback.Settle(m, ok);
      if reset {
        values := InitialValues(initialData);
      }
    }
  }

  /** Scenario: adding a team with no parent sends a create with a `null`
      parent, shows "Team Added" until the timer fires, and the timer then
      hands control back to the caller through `onSuccess`. */
  method AddTeamScenario(name: string) returns (sent: Option<Request<Payload>>, shown: seq<string>,
                                                callsOnSuccess: bool, after: seq<string>, cleared: Values)
    requires name != ""
    ensures sent == Some(Create(Payload(name, None)))
    ensures shown == ["Team Added"]
    ensures callsOnSuccess && after == []
    ensures cleared == Values("", "")
  {
    var form := new Form(false, None);
    form.Edit(Values(name, ""));
    sent := form.Submit();
    form.Settle(CreateMutation, true);
    shown := form.feedback.Banners(ErrorText(form.isEditMode), SuccessText(form.isEditMode));
    cleared := form.values;
    callsOnSuccess := form.feedback.TimerFires(true);
    after := form.feedback.Banners(ErrorText(form.isEditMode), SuccessText(form.isEditMode));
  }
}
