/** What the team form and the employee form share: the choice between a
    create and an update request, and the transient success and error flags
    that a two-second timer clears.

    Both forms set `success` or `formError` in the mutation's callbacks and
    start a 2000 ms timer that clears the flag; the success timer then calls
    the caller's `onSuccess`. Every timer has the same delay, so timers fire in
    the order they were started: the pending timers form a queue, and "a timer
    fired" is an explicit event here rather than wall-clock time. */
module FormFeedback {
  import opened Types

  /** A request to the remote service: create a record, or update the one with `id`. */
  datatype Request<P> = Create(payload: P) | Update(id: Id, payload: P)

  /** `isEditMode && initialData ? update(initialData.id, ..) : create(..)`. */
  function Dispatch<P>(isEditMode: bool, initialId: Option<Id>, payload: P): (r: Request<P>)
    ensures r.payload == payload
    ensures r.Update? <==> isEditMode && initialId.Some?
    ensures r.Update? ==> r.id == initialId.value
  {
    if isEditMode && initialId.Some? then Update(initialId.value, payload) else Create(payload)
  }

  /** Which of the form's two mutations a request goes to. */
  datatype Mutation = CreateMutation | UpdateMutation

  function MutationOf<P>(r: Request<P>): Mutation
  {
    if r.Create? then CreateMutation else UpdateMutation
  }

  /** `isPending`: the form looks at the update mutation in edit mode and at
      the create mutation otherwise, whichever one the request went to. */
  predicate IsPending(isEditMode: bool, createPending: bool, updatePending: bool)
  {
    if isEditMode then updatePending else createPending
  }

  /** With initial data, or in create mode, the button watches the mutation
      the request goes to. In edit mode without initial data the request is
      a create, yet the button watches the update mutation. */
  lemma PendingWatchesRequest<P>(isEditMode: bool, initialId: Option<Id>, payload: P,
                                 createPending: bool, updatePending: bool)
    ensures initialId.Some? || !isEditMode ==>
      (IsPending(isEditMode, createPending, updatePending) <==>
        if MutationOf(Dispatch(isEditMode, initialId, payload)) == UpdateMutation then updatePending else createPending)
    ensures isEditMode && initialId.None? ==>
      MutationOf(Dispatch(isEditMode, initialId, payload)) == CreateMutation &&
      (IsPending(isEditMode, createPending, updatePending) <==> updatePending)
  {
  }

  datatype Timer = SuccessTimer | ErrorTimer

  class Feedback {
    var success: bool
    var formError: bool
    var createPending: bool
    var updatePending: bool
    /** Timers started and not yet fired, in firing order. */
    var timers: seq<Timer>

    /** A flag that is up has a timer pending that will take it down. */
    predicate Valid()
      reads this
    {
      (success ==> SuccessTimer in timers) && (formError ==> ErrorTimer in timers)
    }

    constructor ()
      ensures Valid()
      ensures !success && !formError && !createPending && !updatePending && timers == []
    {
      success, formError := false, false;
      createPending, updatePending := false, false;
      timers := [];
    }

    predicate Pending(m: Mutation)
      reads this
    {
      if m == CreateMutation then createPending else updatePending
    }

    /** The banners under a form: the error banner while `formError` is up,
        then the success banner while `success` is up. */
    function Banners(errorText: string, successText: string): (r: seq<string>)
      reads this
      ensures |r| == (if formError then 1 else 0) + (if success then 1 else 0)
      ensures formError ==> r[0] == errorText
      ensures success ==> r[|r| - 1] == successText
    {
      (if formError then [errorText] else []) + (if success then [successText] else [])
    }

    /** `mutation.mutate(..)`: the request is in flight. */
    method Begin(m: Mutation)
      requires Valid()
      modifies this
      ensures Valid() && Pending(m)
      ensures m == CreateMutation ==> updatePending == old(updatePending)
      ensures m == UpdateMutation ==> createPending == old(createPending)
      ensures success == old(success) && formError == old(formError) && timers == old(timers)
    {
      if m == CreateMutation {
        createPending := true;
      } else {
        updatePending := true;
      }
    }

    /** The mutation `m` settles. On success `success` goes up and a success
        timer starts (and `reset` says the form is to be reset, which only a
        create does); on failure `formError` goes up and an error timer starts.
        A mutation with nothing in flight has no callbacks to run. */
    method Settle(m: Mutation, ok: bool) returns (reset: bool)
      requires Valid()
      modifies this
      ensures Valid() && !Pending(m)
      ensures m == CreateMutation ==> updatePending == old(updatePending)
      ensures m == UpdateMutation ==> createPending == old(createPending)
      ensures !old(Pending(m)) ==>
        !reset && success == old(success) && formError == old(formError) && timers == old(timers)
      ensures old(Pending(m)) && ok ==>
        success && formError == old(formError) && timers == old(timers) + [SuccessTimer] &&
        reset == (m == CreateMutation)
      ensures old(Pending(m)) && !ok ==>
        !reset && formError && success == old(success) && timers == old(timers) + [ErrorTimer]
    {
      reset := false;
      if !Pending(m) {
        return;
      }
      if m == CreateMutation {
        createPending := false;
      } else {
        updatePending := false;
      }
      if ok {
        success := true;
        reset := m == CreateMutation;
        timers := timers + [SuccessTimer];
      } else {
        formError := true;
        timers := timers + [ErrorTimer];
      }
    }

    /** The oldest pending timer fires. A success timer takes `success` down
        and calls `onSuccess` when the caller gave one; an error timer takes
        `formError` down. */
    method TimerFires(hasOnSuccess: bool) returns (callsOnSuccess: bool)
      requires Valid()
      modifies this
      ensures Valid()
      ensures old(timers) == [] ==> !callsOnSuccess && timers == [] && success == old(success) && formError == old(formError)
      ensures old(timers) != [] ==> timers == old(timers)[1..]
      ensures old(timers) != [] && old(timers)[0] == SuccessTimer ==>
        !success && formError == old(formError) && callsOnSuccess == hasOnSuccess
      ensures old(timers) != [] && old(timers)[0] == ErrorTimer ==>
        !formError && success == old(success) && !callsOnSuccess
      ensures createPending == old(createPending) && updatePending == old(updatePending)
    {
      callsOnSuccess := false;
      if timers == [] {
        return;
      }
      var t := timers[0];
      timers := timers[1..];
      if t == SuccessTimer {
        success := false;
        callsOnSuccess := hasOnSuccess;
      } else {
        formError := false;
      }
    }
  }
}
