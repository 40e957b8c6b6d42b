/** The two records that flow through the teams page: a team, which may nest
    under a parent team, and an employee, which names the team it belongs to. */
module Types {

  datatype Option<+T> = None | Some(value: T)

  /** Record identifiers are strings chosen by the remote service. */
  type Id = string

  /** A JavaScript `Date` object: a time value in milliseconds, or the
      "Invalid Date" that parsing an unreadable string yields. */
  datatype Moment = At(time: int) | InvalidDate

  /** An employee record as the service returns it. The three dates are the
      service's text; `None` stands for `null`. */
  datatype Employee = Employee(
    id: Id,
    name: string,
    surname: string,
    position: string,
    createdAt: string,
    startDate: Option<string>,
    endDate: Option<string>,
    teamId: Id)

  /** A team. The service returns only `id`, `name` and `parentTeamId`;
      `children` is filled in by the forest builder and `employees` by the
      attachment pass. An absent `children` list is the empty sequence here:
      every consumer treats the two alike. */
  datatype Team = Team(
    id: Id,
    name: string,
    parentTeamId: Option<Id>,
    employees: seq<Employee>,
    children: seq<Team>)

  /** JavaScript truthiness of an optional string: neither `null` nor `""`. */
  predicate Truthy(s: Option<string>)
  {
    s.Some? && s.value != ""
  }

  /** `a || ""` for an optional string. */
  function OrEmpty(s: Option<string>): (r: string)
    ensures r == "" <==> !Truthy(s)
    ensures Truthy(s) ==> r == s.value
  {
    if Truthy(s) then s.value else ""
  }

  /** `s || null` (or `s || undefined`) for a form's string field. */
  function NonEmpty(s: string): (r: Option<string>)
    ensures r.None? <==> s == ""
    ensures r.Some? ==> r.value == s
  {
    if s == "" then None else Some(s)
  }
}
