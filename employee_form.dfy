/** The employee form (`EmployeeAdd`), used both to add an employee and, in
    the edit dialog, to change one. */
module EmployeeForm {
  import opened Types
  import opened FormFeedback

  /** The form's fields. The team is an id ("" for none); a date field is
      unset (`None`) or holds a `Date`, which may be an Invalid Date. */
  datatype Values = Values(
    name: string,
    surname: string,
    position: string,
    team: string,
    startDate: Option<Moment>,
    endDate: Option<Moment>)

  /** The request body. `teamId == None` stands for `undefined`, a date
      `None` for `null`; dates travel as ISO-8601 text. */
  datatype Payload = Payload(
    name: string,
    surname: string,
    position: string,
    teamId: Option<Id>,
    startDate: Option<string>,
    endDate: Option<string>)

  datatype Field = NameField | SurnameField | StartDateField | EndDateField

  /** A stored date as the form holds it: unset when null or empty, otherwise
      `new Date(text)`. */
  function DateValue(text: Option<string>, parse: string -> Moment): (r: Option<Moment>)
    ensures r.None? <==> !Truthy(text)
    ensures r.Some? ==> r.value == parse(text.value)
  {
    if Truthy(text) then Some(parse(text.value)) else None
  }

  /** The fields the form starts from, and returns to on reset. */
  function InitialValues(initialData: Option<Employee>, parse: string -> Moment): (r: Values)
    ensures initialData.None? ==> r == Values("", "", "", "", None, None)
    ensures initialData.Some? ==> var e := initialData.value;
      r.name == e.name && r.surname == e.surname && r.position == e.position && r.team == e.teamId &&
      r.startDate == DateValue(e.startDate, parse) && r.endDate == DateValue(e.endDate, parse)
  {
    if initialData.None? then Values("", "", "", "", None, None)
    else
      var e := initialData.value;
      Values(e.name, e.surname, e.position, e.teamId, DateValue(e.startDate, parse), DateValue(e.endDate, parse))
  }

  /** The end-date rule as the schema states it, `date().min(ref("startDate"))`:
      the end date must compare `>=` with the start date, and a comparison
      with an unset or Invalid start date is false. */
  predicate EndDateAcceptedAsWritten(start: Option<Moment>, end: int)
  {
    start.Some? && start.value.At? && end >= start.value.time
  }

  /** The rule as intended: with no start date any end date is accepted;
      otherwise, as written, the start date must read as a date and the end
      date may not precede it. */
  predicate EndDateAccepted(start: Option<Moment>, end: int)
  {
    start.None? || (start.value.At? && end >= start.value.time)
  }

  /** As written, an end date with no start date is rejected with the message
      "End date can't be before start date", though nothing precedes it. */
  lemma EndWithoutStartRejectedAsWritten(end: int)
    ensures !EndDateAcceptedAsWritten(None, end)
    ensures EndDateAccepted(None, end)
  {
  }

  /** The two rules agree whenever the start date is set, readable or not; an
      end date equal to the start date is accepted, an earlier one is not. */
  lemma EndDateRuleAgreesWithStart(start: int, end: int)
    ensures EndDateAccepted(Some(At(start)), end) == EndDateAcceptedAsWritten(Some(At(start)), end)
    ensures EndDateAccepted(Some(InvalidDate), end) == EndDateAcceptedAsWritten(Some(InvalidDate), end)
    ensures !EndDateAccepted(Some(InvalidDate), end)
    ensures EndDateAccepted(Some(At(start)), start)
    ensures end < start ==> !EndDateAccepted(Some(At(start)), end)
  {
  }

  /** The fields the schema rejects: a missing name or surname, a date that is
      not a date, and an end date before the start date. */
  function FieldErrors(v: Values): (r: set<Field>)
    ensures NameField in r <==> v.name == ""
    ensures SurnameField in r <==> v.surname == ""
    ensures StartDateField in r <==> v.startDate == Some(InvalidDate)
    ensures EndDateField in r <==>
      v.endDate == Some(InvalidDate) || (v.endDate.Some? && v.endDate.value.At? && !EndDateAccepted(v.startDate, v.endDate.value.time))
  {
    (if v.name == "" then {NameField} else {}) +
    (if v.surname == "" then {SurnameField} else {}) +
    (if v.startDate == Some(InvalidDate) then {StartDateField} else {}) +
    (if v.endDate == Some(InvalidDate) ||
        (v.endDate.Some? && v.endDate.value.At? && !EndDateAccepted(v.startDate, v.endDate.value.time))
     then {EndDateField} else {})
  }

  /** Fields that pass the schema hold readable dates, so the payload can be built. */
  predicate ReadableDates(v: Values)
  {
    v.startDate != Some(InvalidDate) && v.endDate != Some(InvalidDate)
  }

  lemma AcceptedFieldsHaveReadableDates(v: Values)
    ensures FieldErrors(v) == {} ==> ReadableDates(v) && v.name != "" && v.surname != ""
  {
    assert StartDateField !in FieldErrors(v) ==> v.startDate != Some(InvalidDate);
  }

  /** `date ? date.toISOString() : null`; `iso` stands for `toISOString`. */
  function DateText(d: Option<Moment>, iso: int -> string): (r: Option<string>)
    requires d != Some(InvalidDate)
    ensures r.None? <==> d.None?
    ensures r.Some? ==> r.value == iso(d.value.time)
  {
    if d.None? then None else Some(iso(d.value.time))
  }

  /** The payload mapping of `onSubmit`. */
  function PayloadOf(v: Values, iso: int -> string): (r: Payload)
    requires ReadableDates(v)
    ensures r.name == v.name && r.surname == v.surname && r.position == v.position
    ensures r.teamId.None? <==> v.team == ""
    ensures r.teamId.Some? ==> r.teamId.value == v.team
    ensures r.startDate == DateText(v.startDate, iso) && r.endDate == DateText(v.endDate, iso)
  {
    Payload(v.name, v.surname, v.position, NonEmpty(v.team), DateText(v.startDate, iso), DateText(v.endDate, iso))
  }

  /** Submitting the edit form of a stored employee untouched sends its own
      fields back to its id: an empty team as `undefined`, each date re-read
      and written out as ISO text, a missing date as `null`. The end-date
      rule as written lets such a form through only when the employee has a
      start date as well. */
  lemma UntouchedEditResubmits(e: Employee, parse: string -> Moment, iso: int -> string)
    requires e.name != "" && e.surname != ""
    requires Truthy(e.startDate) ==> parse(e.startDate.value).At?
    requires Truthy(e.endDate) ==> parse(e.endDate.value).At?
    requires Truthy(e.startDate) && Truthy(e.endDate) ==>
      parse(e.startDate.value).time <= parse(e.endDate.value).time
    ensures FieldErrors(InitialValues(Some(e), parse)) == {}
    ensures Truthy(e.endDate) ==>
      (EndDateAcceptedAsWritten(InitialValues(Some(e), parse).startDate, parse(e.endDate.value).time) <==>
        Truthy(e.startDate))
    ensures Dispatch(true, Some(e.id), PayloadOf(InitialValues(Some(e), parse), iso)) ==
      Update(e.id, Payload(e.name, e.surname, e.position, NonEmpty(e.teamId),
        if Truthy(e.startDate) then Some(iso(parse(e.startDate.value).time)) else None,
        if Truthy(e.endDate) then Some(iso(parse(e.endDate.value).time)) else None))
  {
    var v := InitialValues(Some(e), parse);
    assert FieldErrors(v) == {} by {
      forall f ensures f !in FieldErrors(v) {
      }
    }
  }

  /** Scenario: a start date after the end date is an end-date error; equal
      dates are accepted. */
  lemma EndBeforeStartScenario(name: string, surname: string, start: int, end: int)
    requires name != "" && surname != ""
    ensures end < start ==> FieldErrors(Values(name, surname, "", "", Some(At(start)), Some(At(end)))) == {EndDateField}
    ensures FieldErrors(Values(name, surname, "", "", Some(At(start)), Some(At(start)))) == {}
  {
    var bad := Values(name, surname, "", "", Some(At(start)), Some(At(end)));
    if end < start {
      assert EndDateField in FieldErrors(bad);
      assert FieldErrors(bad) == {EndDateField} by {
        forall f | f in FieldErrors(bad) ensures f == EndDateField {
        }
      }
    }
    var good := Values(name, surname, "", "", Some(At(start)), Some(At(start)));
    assert FieldErrors(good) == {} by {
      forall f ensures f !in FieldErrors(good) {
      }
    }
  }

  /** The banner texts, which depend only on the mode. */
  function ErrorText(isEditMode: bool): string
  {
    if isEditMode then "Error updating employee" else "Error adding employee"
  }

  function SuccessText(isEditMode: bool): string
  {
    if isEditMode then "Employee Updated" else "Employee Added"
  }

  /** The four banner texts differ, so a banner tells which request ran and
      how it ended. */
  lemma BannerTextsDiffer()
    ensures ErrorText(false) != ErrorText(true) && SuccessText(false) != SuccessText(true)
    ensures forall m, n :: ErrorText(m) != SuccessText(n)
  {
  }

  class Form {
    const isEditMode: bool
    const initialData: Option<Employee>
    const parse: string -> Moment
    const iso: int -> string
    const feedback: Feedback
    var values: Values

    predicate Valid()
      reads this, feedback
    {
      feedback.Valid()
    }

    constructor (isEditMode: bool, initialData: Option<Employee>, parse: string -> Moment, iso: int -> string)
      ensures Valid() && fresh(feedback)
      ensures this.isEditMode == isEditMode && this.initialData == initialData
      ensures this.parse == parse && this.iso == iso
      ensures values == InitialValues(initialData, parse)
      ensures !feedback.success && !feedback.formError && feedback.timers == []
      ensures !feedback.createPending && !feedback.updatePending
    {
      this.isEditMode := isEditMode;
      this.initialData := initialData;
      this.parse := parse;
      this.iso := iso;
      feedback := new Feedback();
      values := InitialValues(initialData, parse);
    }

    /** The user edits the fields. */
    method Edit(v: Values)
      requires Valid()
      modifies this
      ensures Valid() && values == v
    {
      values := v;
    }

    function InitialId(): Option<Id>
      reads this
    {
      if initialData.Some? then Some(initialData.value.id) else None
    }

    /** `onSubmit`. Nothing is sent while the button is disabled or while a
        field is rejected (the errors are shown beside the fields); otherwise
        the payload goes to an update of `initialData.id` in edit mode and to
        a create otherwise. */
    method Submit() returns (sent: Option<Request<Payload>>, errors: set<Field>)
      requires Valid()
      modifies feedback
      ensures Valid()
      ensures errors == FieldErrors(values)
      ensures sent.Some? <==>
        !old(IsPending(isEditMode, feedback.createPending, feedback.updatePending)) && errors == {}
      ensures sent.Some? ==> ((ReadableDates(values) &&
        sent.value == Dispatch(isEditMode, InitialId(), PayloadOf(values, iso))))
      ensures sent.Some? ==> feedback.Pending(MutationOf(sent.value))
      ensures sent.Some? && MutationOf(sent.value) == CreateMutation ==> feedback.updatePending == old(feedback.updatePending)
      ensures sent.Some? && MutationOf(sent.value) == UpdateMutation ==> feedback.createPending == old(feedback.createPending)
      ensures sent.None? ==> feedback.createPending == old(feedback.createPending)
      ensures sent.None? ==> feedback.updatePending == old(feedback.updatePending)
      ensures feedback.success == old(feedback.success) && feedback.formError == old(feedback.formError)
      ensures feedback.timers == old(feedback.timers)
    {
      errors := FieldErrors(values);
      if IsPending(isEditMode, feedback.createPending, feedback.updatePending) || errors != {} {
        return None, errors;
      }
      AcceptedFieldsHaveReadableDates(values);
      var request := Dispatch(isEditMode, InitialId(), PayloadOf(values, iso));
      feedback.Begin(MutationOf(request));
      sent := Some(request);
    }

    /** The mutation `m` settles; a successful create resets the fields to
        their initial values, a successful update keeps them. */
    method Settle(m: Mutation, ok: bool)
      requires Valid()
      modifies this, feedback
      ensures Valid()
      ensures values == if old(feedback.Pending(m)) && ok && m == CreateMutation then InitialValues(initialData, parse) else old(values)
      ensures !old(feedback.Pending(m)) ==> (feedback.success == old(feedback.success) &&
        feedback.formError == old(feedback.formError) && feedback.timers == old(feedback.timers))
      ensures old(feedback.Pending(m)) && ok ==> (feedback.success &&
        feedback.formError == old(feedback.formError) && feedback.timers == old(feedback.timers) + [SuccessTimer])
      ensures old(feedback.Pending(m)) && !ok ==> (feedback.formError &&
        feedback.success == old(feedback.success) && feedback.timers == old(feedback.timers) + [ErrorTimer])
      ensures !feedback.Pending(m)
      ensures m == CreateMutation ==> feedback.updatePending == old(feedback.updatePending)
      ensures m == UpdateMutation ==> feedback.createPending == old(feedback.createPending)
    {
      var reset := feedback.Settle(m, ok);
      if reset {
        values := InitialValues(initialData, parse);
      }
    }
  }

  /** Scenario: the edit dialog of an employee without dates submits the
      stored fields to the employee's id; when the update fails, "Error
      updating employee" shows until its timer fires, and `onSuccess` is not
      called. */
  method UpdateFailsScenario(e: Employee, parse: string -> Moment, iso: int -> string)
    returns (sent: Option<Request<Payload>>, errors: set<Field>, shown: seq<string>, callsOnSuccess: bool, after: seq<string>)
    requires e.name != "" && e.surname != "" && !Truthy(e.startDate) && !Truthy(e.endDate)
    ensures errors == {}
    ensures sent == Some(Update(e.id, Payload(e.name, e.surname, e.position, NonEmpty(e.teamId), None, None)))
    ensures shown == ["Error updating employee"]
    ensures !callsOnSuccess && after == []
  {
    var form := new Form(true, Some(e), parse, iso);
    UntouchedEditResubmits(e, parse, iso);
    sent, errors := form.Submit();
    form.Settle(UpdateMutation, false);
    shown := form.feedback.Banners(ErrorText(form.isEditMode), SuccessText(form.isEditMode));
    callsOnSuccess := form.feedback.TimerFires(true);
    after := form.feedback.Banners(ErrorText(form.isEditMode), SuccessText(form.isEditMode));
  }
}
