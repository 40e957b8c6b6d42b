/** The attachment pass of the teams page: every node of the team forest, at
    every depth, gets the employees whose `team_id` is the node's id.

    The page runs it on a deep copy of the forest (`JSON.parse(JSON.stringify(..))`)
    and assigns `employees` on the copy, so the query's forest is never
    changed: on values, the pass is a function from the old forest to a new one. */
module Attach {
  import opened Types
  import opened Sequences

  /** `employees.filter(e => e.team_id === teamId)`. */
  function EmployeesOf(employees: seq<Employee>, teamId: Id): (r: seq<Employee>)
    ensures |r| <= |employees|
    ensures forall e :: e in r <==> e in employees && e.teamId == teamId
  {
    if employees == [] then []
    else (if employees[0].teamId == teamId then [employees[0]] else []) + EmployeesOf(employees[1..], teamId)
  }

  /** The filter keeps every matching employee as often as the input has it,
      and nothing else. */
  lemma {:induction false} EmployeesOfCount(employees: seq<Employee>, teamId: Id, e: Employee)
    ensures multiset(EmployeesOf(employees, teamId))[e] ==
      if e.teamId == teamId then multiset(employees)[e] else 0
  {
    if employees != [] {
      EmployeesOfCount(employees[1..], teamId, e);
      assert employees == [employees[0]] + employees[1..];
    }
  }

  /** The filter keeps the input's relative order. */
  lemma {:induction false} EmployeesOfKeepsOrder(employees: seq<Employee>, teamId: Id)
    ensures IsSubsequence(EmployeesOf(employees, teamId), employees)
  {
    if employees != [] {
      EmployeesOfKeepsOrder(employees[1..], teamId);
      var rest := EmployeesOf(employees[1..], teamId);
      if employees[0].teamId == teamId {
        assert EmployeesOf(employees, teamId)[1..] == rest;
      } else {
        assert EmployeesOf(employees, teamId) == rest;
        SubsequenceSkip(rest, employees);
      }
    }
  }

  /** `addEmployeesToTeam`: set the node's employees, then recurse into its
      children. Only `employees` lists change, at every depth: the node gets
      exactly the employees that name it. */
  function AttachTeam(t: Team, employees: seq<Employee>): (r: Team)
    ensures Shape(r) == Shape(t)
    ensures forall e :: e in r.employees <==> e in employees && e.teamId == t.id
    decreases t
  {
    var r := t.(employees := EmployeesOf(employees, t.id),
                children := seq(|t.children|, k requires 0 <= k < |t.children| => AttachTeam(t.children[k], employees)));
    assert Shape(r).children == Shape(t).children by {
      forall k | 0 <= k < |t.children| ensures Shape(r.children[k]) == Shape(t.children[k]) {
      }
    }
    r
  }

  /** `teamsWithEmployees.map(addEmployeesToTeam)`: one attached tree per
      top-level node, in order, each of the same shape as its input. */
  function AttachAll(teams: seq<Team>, employees: seq<Employee>): (r: seq<Team>)
    ensures |r| == |teams|
    ensures forall k :: 0 <= k < |r| ==>
      Shape(r[k]) == Shape(teams[k]) && r[k].employees == EmployeesOf(employees, teams[k].id)
  {
    seq(|teams|, k requires 0 <= k < |teams| => AttachTeam(teams[k], employees))
  }

  /** The `teams` memo: an empty forest until both the teams and the
      employees have arrived, then the forest with employees attached. */
  function PageForest(teamsData: Option<seq<Team>>, employeesData: Option<seq<Employee>>): (r: seq<Team>)
    ensures teamsData.None? || employeesData.None? ==> r == []
    ensures teamsData.Some? && employeesData.Some? ==>
      |r| == |teamsData.value| &&
      forall k :: 0 <= k < |r| ==>
        (r[k].id == teamsData.value[k].id && r[k].employees == EmployeesOf(employeesData.value, r[k].id))
  {
    if teamsData.None? || employeesData.None? then []
    else AttachAll(teamsData.value, employeesData.value)
  }

  /** The node reached from a forest by following child indices; `None` when
      the path leaves the forest. */
  function NodeAt(forest: seq<Team>, path: seq<nat>): Option<Team>
    decreases path
  {
    if path == [] || path[0] >= |forest| then None
    else if |path| == 1 then Some(forest[path[0]])
    else NodeAt(forest[path[0]].children, path[1..])
  }

  /** The forest with every `employees` list emptied: ids, names, parent ids
      and the order of children. */
  function Shape(t: Team): Team
    decreases t
  {
    t.(employees := [], children := seq(|t.children|, k requires 0 <= k < |t.children| => Shape(t.children[k])))
  }

  /** The pass reaches every node at every depth: the attached forest has a
      node at exactly the paths where the input has one, with the same id,
      name and parent id, and with the employees that name that id. */
  lemma {:induction false} AttachAtEveryDepth(forest: seq<Team>, employees: seq<Employee>, path: seq<nat>)
    ensures NodeAt(AttachAll(forest, employees), path).Some? <==> NodeAt(forest, path).Some?
    ensures NodeAt(forest, path).Some? ==>
      var n, m := NodeAt(forest, path).value, NodeAt(AttachAll(forest, employees), path).value;
      m.id == n.id && m.name == n.name && m.parentTeamId == n.parentTeamId &&
      |m.children| == |n.children| && m.employees == EmployeesOf(employees, n.id)
    decreases path
  {
    if path != [] && path[0] < |forest| && |path| > 1 {
      AttachAtEveryDepth(forest[path[0]].children, employees, path[1..]);
    }
  }

  /** Node ids are distinct across the whole forest: two paths that reach
      nodes with the same id are the same path. */
  ghost predicate DistinctNodeIds(forest: seq<Team>)
  {
    forall p, q ::
      (NodeAt(forest, p).Some? && NodeAt(forest, q).Some? && NodeAt(forest, p).value.id == NodeAt(forest, q).value.id)
      ==> p == q
  }

  /** An employee of the input is listed at a node iff the node's id is its
      `team_id`; so, with distinct node ids, it is listed at one node at most,
      and at none when no node has that id. */
  lemma EmployeeListedOnce(forest: seq<Team>, employees: seq<Employee>, e: Employee, p: seq<nat>, q: seq<nat>)
    requires e in employees
    requires DistinctNodeIds(forest)
    ensures var n := NodeAt(AttachAll(forest, employees), p);
      n.Some? ==> (e in n.value.employees <==> n.value.id == e.teamId)
    ensures var n, m := NodeAt(AttachAll(forest, employees), p), NodeAt(AttachAll(forest, employees), q);
      n.Some? && m.Some? && e in n.value.employees && e in m.value.employees ==> p == q
  {
    AttachAtEveryDepth(forest, employees, p);
    AttachAtEveryDepth(forest, employees, q);
  }
}
