/** The flat-to-forest builder of the teams query (`useGetAllTeams`).

    The source fills an id-to-node map with a copy of every team record, each
    copy starting with empty `children` and `employees`; a second pass then
    pushes each record's copy onto its parent copy's `children`, or onto the
    root list when the parent id is null, empty, or names no team in the input.
    Node copies are identified here by their map key: `children` maps a node's
    id to the ids pushed onto that node's `children` list, in push order. */
module Forest {
  import opened Types

  /** Where the second pass puts a record: the root list or a parent's children. */
  datatype Slot = Root | Under(parent: Id)

  /** The ids of the first `n` records: the keys of the map after `n` steps. */
  function IdsUpTo(teams: seq<Team>, n: nat): set<Id>
    requires n <= |teams|
  {
    if n == 0 then {} else IdsUpTo(teams, n - 1) + {teams[n - 1].id}
  }

  function IdSet(teams: seq<Team>): set<Id>
  {
    IdsUpTo(teams, |teams|)
  }

  lemma {:induction false} IdsUpToMembership(teams: seq<Team>, n: nat, x: Id)
    requires n <= |teams|
    ensures x in IdsUpTo(teams, n) <==> exists k :: 0 <= k < n && teams[k].id == x
  {
    if n > 0 {
      IdsUpToMembership(teams, n - 1, x);
      if x in IdsUpTo(teams, n - 1) {
        var k :| 0 <= k < n - 1 && teams[k].id == x;
        assert 0 <= k < n && teams[k].id == x;
      }
    }
  }

  /** `team.parent_team_id && teamMap.has(team.parent_team_id)`. */
  function SlotOf(ids: set<Id>, t: Team): Slot
  {
    if Truthy(t.parentTeamId) && t.parentTeamId.value in ids then Under(t.parentTeamId.value) else Root
  }

  /** The copy every record gets in the map: its own fields, no children, no employees. */
  function Copy(t: Team): Team
  {
    t.(children := [], employees := [])
  }

  /** The map after the first pass over `n` records; a later record with the
      same id replaces an earlier one, as `Map.set` does. */
  function NodeMap(teams: seq<Team>, n: nat): map<Id, Team>
    requires n <= |teams|
  {
    if n == 0 then map[] else NodeMap(teams, n - 1)[teams[n - 1].id := Copy(teams[n - 1])]
  }

  /** The ids pushed onto slot `s` by the first `n` steps of the second pass. */
  function Placed(teams: seq<Team>, ids: set<Id>, n: nat, s: Slot): seq<Id>
    requires n <= |teams|
  {
    if n == 0 then []
    else Placed(teams, ids, n - 1, s) + (if SlotOf(ids, teams[n - 1]) == s then [teams[n - 1].id] else [])
  }

  /** The indices of the records that the first `n` steps push onto slot `s`. */
  function SlotIndices(teams: seq<Team>, ids: set<Id>, n: nat, s: Slot): seq<nat>
    requires n <= |teams|
  {
    if n == 0 then []
    else SlotIndices(teams, ids, n - 1, s) + (if SlotOf(ids, teams[n - 1]) == s then [n - 1] else [])
  }

  function Roots(teams: seq<Team>): seq<Id>
  {
    Placed(teams, IdSet(teams), |teams|, Root)
  }

  function ChildrenOf(teams: seq<Team>, p: Id): seq<Id>
  {
    Placed(teams, IdSet(teams), |teams|, Under(p))
  }

  predicate DistinctIds(teams: seq<Team>)
  {
    forall i, j :: 0 <= i < j < |teams| ==> teams[i].id != teams[j].id
  }

  /** The builder: the copy pass, then the link pass. */
  method BuildForest(teams: seq<Team>) returns (roots: seq<Id>, nodes: map<Id, Team>, children: map<Id, seq<Id>>)
    ensures nodes == NodeMap(teams, |teams|)
    ensures nodes.Keys == IdSet(teams) && children.Keys == IdSet(teams)
    ensures roots == Roots(teams)
    ensures forall p :: p in children ==> children[p] == ChildrenOf(teams, p)
  {
    nodes, children := CopyPass(teams);
    roots, children := LinkPass(teams, nodes, children);
  }

  /** The first loop: a copy of every record under its id, and an empty
      children list for each. */
  method CopyPass(teams: seq<Team>) returns (nodes: map<Id, Team>, children: map<Id, seq<Id>>)
    ensures nodes == NodeMap(teams, |teams|)
    ensures nodes.Keys == IdSet(teams) && children.Keys == IdSet(teams)
    ensures forall p :: p in children ==> children[p] == []
  {
    nodes, children := map[], map[];
    var i := 0;
    while i < |teams|
      invariant 0 <= i <= |teams|
      invariant nodes == NodeMap(teams, i)
      invariant nodes.Keys == IdsUpTo(teams, i) && children.Keys == nodes.Keys
      invariant forall p :: p in children ==> children[p] == []
    {
      nodes := nodes[teams[i].id := Copy(teams[i])];
      children := children[teams[i].id := []];
      i := i + 1;
    }
  }

  /** The second loop: every record's id is pushed onto its parent's children
      list when the parent id is truthy and in the map, and onto the root list
      otherwise. */
  method LinkPass(teams: seq<Team>, nodes: map<Id, Team>, empty: map<Id, seq<Id>>)
    returns (roots: seq<Id>, children: map<Id, seq<Id>>)
    requires empty.Keys == nodes.Keys
    requires forall p :: p in empty ==> empty[p] == []
    ensures children.Keys == nodes.Keys
    ensures roots == Placed(teams, nodes.Keys, |teams|, Root)
    ensures forall p :: p in children ==> children[p] == Placed(teams, nodes.Keys, |teams|, Under(p))
  {
    ghost var ids := nodes.Keys;
    roots, children := [], empty;
    var i := 0;
    while i < |teams|
      invariant 0 <= i <= |teams|
      invariant children.Keys == ids
      invariant roots == Placed(teams, ids, i, Root)
      invariant forall p :: p in children ==> children[p] == Placed(teams, ids, i, Under(p))
    {
      var t := teams[i];
      PlacedStep(teams, ids, i, Root);
      if Truthy(t.parentTeamId) && t.parentTeamId.value in nodes {
        var p := t.parentTeamId.value;
        assert SlotOf(ids, t) == Under(p);
        children := children[p := children[p] + [t.id]];
      } else {
        assert SlotOf(ids, t) == Root;
        roots := roots + [t.id];
      }
      forall q | q in children ensures children[q] == Placed(teams, ids, i + 1, Under(q)) {
        PlacedStep(teams, ids, i, Under(q));
      }
      i := i + 1;
    }
  }

  /** One step of the second pass appends the record's id to its own slot and
      to no other. */
  lemma PlacedStep(teams: seq<Team>, ids: set<Id>, n: nat, s: Slot)
    requires n < |teams|
    ensures Placed(teams, ids, n + 1, s) ==
      Placed(teams, ids, n, s) + if SlotOf(ids, teams[n]) == s then [teams[n].id] else []
  {
  }

  /** Placement is an order-preserving selection: the ids on slot `s` are the
      ids of the records at `SlotIndices`, in input order ... */
  lemma {:induction false} PlacedSelects(teams: seq<Team>, ids: set<Id>, n: nat, s: Slot)
    requires n <= |teams|
    ensures |Placed(teams, ids, n, s)| == |SlotIndices(teams, ids, n, s)|
    ensures forall k :: 0 <= k < |SlotIndices(teams, ids, n, s)| ==>
      SlotIndices(teams, ids, n, s)[k] < n && Placed(teams, ids, n, s)[k] == teams[SlotIndices(teams, ids, n, s)[k]].id
  {
    if n > 0 {
      PlacedSelects(teams, ids, n - 1, s);
      var placed, idx := Placed(teams, ids, n - 1, s), SlotIndices(teams, ids, n - 1, s);
      if SlotOf(ids, teams[n - 1]) == s {
        assert Placed(teams, ids, n, s) == placed + [teams[n - 1].id];
        assert SlotIndices(teams, ids, n, s) == idx + [n - 1];
      }
    }
  }

  /** ... which are increasing ... */
  lemma {:induction false} SlotIndicesIncrease(teams: seq<Team>, ids: set<Id>, n: nat, s: Slot)
    requires n <= |teams|
    ensures forall k :: 0 <= k < |SlotIndices(teams, ids, n, s)| ==> SlotIndices(teams, ids, n, s)[k] < n
    ensures forall a, b :: 0 <= a < b < |SlotIndices(teams, ids, n, s)| ==>
      SlotIndices(teams, ids, n, s)[a] < SlotIndices(teams, ids, n, s)[b]
  {
    if n > 0 {
      SlotIndicesIncrease(teams, ids, n - 1, s);
      var idx := SlotIndices(teams, ids, n - 1, s);
      assert forall k :: 0 <= k < |idx| ==> idx[k] < n - 1;
      if SlotOf(ids, teams[n - 1]) == s {
        var next := idx + [n - 1];
        assert SlotIndices(teams, ids, n, s) == next;
        forall a, b | 0 <= a < b < |next| ensures next[a] < next[b] {
          assert next[a] == idx[a];
          if b < |idx| {
            assert next[b] == idx[b];
          }
        }
      } else {
        assert SlotIndices(teams, ids, n, s) == idx;
      }
    }
  }

  /** ... and are exactly the records whose slot is `s`. */
  lemma {:induction false} SlotIndicesMembers(teams: seq<Team>, ids: set<Id>, n: nat, s: Slot)
    requires n <= |teams|
    ensures forall i :: 0 <= i < n ==> (i in SlotIndices(teams, ids, n, s) <==> SlotOf(ids, teams[i]) == s)
    ensures forall i :: i in SlotIndices(teams, ids, n, s) ==> i < n
  {
    if n > 0 {
      SlotIndicesMembers(teams, ids, n - 1, s);
      var idx := SlotIndices(teams, ids, n - 1, s);
      if SlotOf(ids, teams[n - 1]) == s {
        assert SlotIndices(teams, ids, n, s) == idx + [n - 1];
      }
    }
  }

  /** With the id of record `i` unique, the first `n` steps push it exactly
      once, onto its own slot, when `i < n`, and not at all otherwise. */
  lemma {:induction false} PlacedCount(teams: seq<Team>, ids: set<Id>, n: nat, i: nat, s: Slot)
    requires n <= |teams| && i < |teams|
    requires forall j :: 0 <= j < |teams| && j != i ==> teams[j].id != teams[i].id
    ensures multiset(Placed(teams, ids, n, s))[teams[i].id] ==
      if i < n && SlotOf(ids, teams[i]) == s then 1 else 0
  {
    if n > 0 {
      PlacedCount(teams, ids, n - 1, i, s);
      var x, y, prev := teams[i].id, teams[n - 1].id, Placed(teams, ids, n - 1, s);
      assert x == y <==> i == n - 1;
      if SlotOf(ids, teams[n - 1]) == s {
        assert Placed(teams, ids, n, s) == prev + [y];
        assert multiset(prev + [y]) == multiset(prev) + multiset{y};
      } else {
        assert Placed(teams, ids, n, s) == prev;
      }
    }
  }

  /** Every input record is pushed exactly once: onto its own slot, and onto no other. */
  lemma PlacedExactlyOnce(teams: seq<Team>, i: nat)
    requires DistinctIds(teams) && i < |teams|
    ensures SlotOf(IdSet(teams), teams[i]) == Root ==> multiset(Roots(teams))[teams[i].id] == 1
    ensures forall p :: SlotOf(IdSet(teams), teams[i]) == Under(p) <==> multiset(ChildrenOf(teams, p))[teams[i].id] == 1
    ensures forall p :: multiset(ChildrenOf(teams, p))[teams[i].id] <= 1
    ensures SlotOf(IdSet(teams), teams[i]) == Root <==> teams[i].id in Roots(teams)
  {
    assert forall j :: 0 <= j < |teams| && j != i ==> teams[j].id != teams[i].id by {
      forall j | 0 <= j < |teams| && j != i ensures teams[j].id != teams[i].id {
        if j < i { assert teams[j].id != teams[i].id; } else { assert teams[i].id != teams[j].id; }
      }
    }
    PlacedCount(teams, IdSet(teams), |teams|, i, Root);
    forall p ensures multiset(ChildrenOf(teams, p))[teams[i].id] == if SlotOf(IdSet(teams), teams[i]) == Under(p) then 1 else 0 {
      PlacedCount(teams, IdSet(teams), |teams|, i, Under(p));
    }
  }

  /** A team is a root iff its parent id is null or empty, or names no team of
      the input; otherwise it is on its parent's children list and not a root. */
  lemma RootIff(teams: seq<Team>, i: nat)
    requires DistinctIds(teams) && i < |teams|
    ensures var t := teams[i];
      t.id in Roots(teams) <==> !Truthy(t.parentTeamId) || forall k :: 0 <= k < |teams| ==> teams[k].id != t.parentTeamId.value
    ensures var t := teams[i];
      Truthy(t.parentTeamId) && (exists k :: 0 <= k < |teams| && teams[k].id == t.parentTeamId.value) ==>
        t.id in ChildrenOf(teams, t.parentTeamId.value) && t.id !in Roots(teams)
  {
    var t := teams[i];
    PlacedExactlyOnce(teams, i);
    if Truthy(t.parentTeamId) {
      IdsUpToMembership(teams, |teams|, t.parentTeamId.value);
    }
  }

  /** Every id on the root list belongs to a record whose parent id is null,
      empty, or absent from the input (no distinctness needed). */
  lemma RootsHaveNoParentInInput(teams: seq<Team>, k: nat)
    requires k < |Roots(teams)|
    ensures exists i :: (0 <= i < |teams| && teams[i].id == Roots(teams)[k] &&
      (!Truthy(teams[i].parentTeamId) || teams[i].parentTeamId.value !in IdSet(teams)))
  {
    PlacedSelects(teams, IdSet(teams), |teams|, Root);
    SlotIndicesMembers(teams, IdSet(teams), |teams|, Root);
    var i := SlotIndices(teams, IdSet(teams), |teams|, Root)[k];
    assert teams[i].id == Roots(teams)[k];
  }

  /** A team that is its own parent, or sits on a cycle of parent references,
      is never a root (given distinct, non-empty ids). */
  lemma CycleMembersAreNotRoots(teams: seq<Team>, cycle: seq<nat>)
    requires DistinctIds(teams)
    requires forall k :: 0 <= k < |cycle| ==> cycle[k] < |teams| && teams[cycle[k]].id != ""
    requires forall k :: 0 <= k < |cycle| ==>
      teams[cycle[k]].parentTeamId == Some(teams[cycle[(k + 1) % |cycle|]].id)
    ensures forall k :: 0 <= k < |cycle| ==> teams[cycle[k]].id !in Roots(teams)
  {
    forall k | 0 <= k < |cycle| ensures teams[cycle[k]].id !in Roots(teams) {
      var next := cycle[(k + 1) % |cycle|];
      assert teams[next].id == teams[cycle[k]].parentTeamId.value;
      RootIff(teams, cycle[k]);
    }
  }

  /** A path of the rendered forest: it starts at a root, and each later id
      is on the children list of the id before it. */
  ghost predicate IsPath(teams: seq<Team>, p: seq<Id>)
  {
    |p| > 0 && p[0] in Roots(teams) &&
    forall k :: 0 <= k < |p| - 1 ==> p[k + 1] in ChildrenOf(teams, p[k])
  }

  /** Every id on a list was pushed there by a record with that id whose slot
      is that list. */
  lemma OnSlotHasRecord(teams: seq<Team>, s: Slot, x: Id)
    requires x in Placed(teams, IdSet(teams), |teams|, s)
    ensures exists i :: 0 <= i < |teams| && teams[i].id == x && SlotOf(IdSet(teams), teams[i]) == s
  {
    var ids := IdSet(teams);
    PlacedSelects(teams, ids, |teams|, s);
    SlotIndicesMembers(teams, ids, |teams|, s);
    var k :| 0 <= k < |Placed(teams, ids, |teams|, s)| && Placed(teams, ids, |teams|, s)[k] == x;
    var i := SlotIndices(teams, ids, |teams|, s)[k];
    assert teams[i].id == x && SlotOf(ids, teams[i]) == s;
  }

  /** With distinct ids, the slot of an id is the slot of its one record. */
  lemma SlotOfId(teams: seq<Team>, s: Slot, x: Id, i: nat)
    requires DistinctIds(teams) && i < |teams| && teams[i].id == x
    requires x in Placed(teams, IdSet(teams), |teams|, s)
    ensures SlotOf(IdSet(teams), teams[i]) == s
  {
    OnSlotHasRecord(teams, s, x);
    var j :| 0 <= j < |teams| && teams[j].id == x && SlotOf(IdSet(teams), teams[j]) == s;
    assert i == j by {
      assert !(i < j) && !(j < i);
    }
  }

  /** No path of the forest reaches a team on a cycle of parent references:
      the page, which renders the forest from its roots, never shows one. */
  lemma {:induction false} CycleMembersUnreachable(teams: seq<Team>, cycle: seq<nat>, p: seq<Id>)
    requires DistinctIds(teams)
    requires forall k :: 0 <= k < |cycle| ==> cycle[k] < |teams| && teams[cycle[k]].id != ""
    requires forall k :: 0 <= k < |cycle| ==>
      teams[cycle[k]].parentTeamId == Some(teams[cycle[(k + 1) % |cycle|]].id)
    requires IsPath(teams, p)
    ensures forall k :: 0 <= k < |cycle| ==> p[|p| - 1] != teams[cycle[k]].id
    decreases |p|
  {
    var last := p[|p| - 1];
    if |p| == 1 {
      CycleMembersAreNotRoots(teams, cycle);
    } else {
      var prefix, q := p[..|p| - 1], p[|p| - 2];
      assert IsPath(teams, prefix) by {
        forall k | 0 <= k < |prefix| - 1 ensures prefix[k + 1] in ChildrenOf(teams, prefix[k]) {
          assert prefix[k] == p[k] && prefix[k + 1] == p[k + 1];
        }
      }
      CycleMembersUnreachable(teams, cycle, prefix);
      assert last in ChildrenOf(teams, q);
      OnSlotHasRecord(teams, Under(q), last);
      var i :| 0 <= i < |teams| && teams[i].id == last && SlotOf(IdSet(teams), teams[i]) == Under(q);
      forall k | 0 <= k < |cycle| ensures last != teams[cycle[k]].id {
        var next := cycle[(k + 1) % |cycle|];
        assert teams[next].id != q;
        IdsUpToMembership(teams, |teams|, teams[next].id);
        assert SlotOf(IdSet(teams), teams[cycle[k]]) == Under(teams[next].id);
        assert i != cycle[k];
        assert teams[i].id != teams[cycle[k]].id by {
          assert i < cycle[k] || cycle[k] < i;
        }
      }
    }
  }

  /** Parent references are well founded: some ranking of the ids drops from
      every record to the parent it is pushed under. */
  predicate RankedParents(teams: seq<Team>, rank: Id -> nat)
  {
    forall i :: 0 <= i < |teams| && SlotOf(IdSet(teams), teams[i]).Under? ==>
      rank(SlotOf(IdSet(teams), teams[i]).parent) < rank(teams[i].id)
  }

  /** Without cycles, every team of the input is reached by a path of the forest. */
  lemma {:induction false} EveryTeamReachable(teams: seq<Team>, rank: Id -> nat, i: nat)
    requires DistinctIds(teams) && RankedParents(teams, rank) && i < |teams|
    ensures exists p :: IsPath(teams, p) && p[|p| - 1] == teams[i].id
    decreases rank(teams[i].id)
  {
    var x := teams[i].id;
    PlacedExactlyOnce(teams, i);
    match SlotOf(IdSet(teams), teams[i])
    case Root =>
      assert IsPath(teams, [x]);
    case Under(q) =>
      IdsUpToMembership(teams, |teams|, q);
      var j :| 0 <= j < |teams| && teams[j].id == q;
      EveryTeamReachable(teams, rank, j);
      var p :| IsPath(teams, p) && p[|p| - 1] == q;
      assert multiset(ChildrenOf(teams, q))[x] == 1;
      var p' := p + [x];
      assert IsPath(teams, p') by {
        forall k | 0 <= k < |p'| - 1 ensures p'[k + 1] in ChildrenOf(teams, p'[k]) {
          if k < |p| - 1 {
            assert p'[k] == p[k] && p'[k + 1] == p[k + 1];
          }
        }
      }
  }

  /** With distinct ids, two paths that end at the same team are the same
      path: a team is reached once at most. */
  lemma {:induction false} PathsUnique(teams: seq<Team>, p: seq<Id>, q: seq<Id>)
    requires DistinctIds(teams)
    requires IsPath(teams, p) && IsPath(teams, q) && p[|p| - 1] == q[|q| - 1]
    ensures p == q
    decreases |p|
  {
    var x := p[|p| - 1];
    var sp := if |p| == 1 then Root else Under(p[|p| - 2]);
    var sq := if |q| == 1 then Root else Under(q[|q| - 2]);
    OnSlotHasRecord(teams, sp, x);
    var i :| 0 <= i < |teams| && teams[i].id == x && SlotOf(IdSet(teams), teams[i]) == sp;
    SlotOfId(teams, sq, x, i);
    if |p| > 1 {
      var p0, q0 := p[..|p| - 1], q[..|q| - 1];
      assert IsPath(teams, p0) by {
        forall k | 0 <= k < |p0| - 1 ensures p0[k + 1] in ChildrenOf(teams, p0[k]) {
          assert p0[k] == p[k] && p0[k + 1] == p[k + 1];
        }
      }
      assert IsPath(teams, q0) by {
        forall k | 0 <= k < |q0| - 1 ensures q0[k + 1] in ChildrenOf(teams, q0[k]) {
          assert q0[k] == q[k] && q0[k + 1] == q[k + 1];
        }
      }
      PathsUnique(teams, p0, q0);
      assert p == p0 + [x] && q == q0 + [x];
    }
  }

  /** The map of copies: one key per input id; for the last record with a
      given id, the copy has that record's fields and no children or employees. */
  lemma {:induction false} NodeMapLastWins(teams: seq<Team>, n: nat, k: nat)
    requires k < n <= |teams|
    requires forall j :: k < j < n ==> teams[j].id != teams[k].id
    ensures NodeMap(teams, n).Keys == IdsUpTo(teams, n) && teams[k].id in NodeMap(teams, n)
    ensures var c := NodeMap(teams, n)[teams[k].id];
      c.id == teams[k].id && c.name == teams[k].name && c.parentTeamId == teams[k].parentTeamId &&
      c.children == [] && c.employees == []
  {
    if k < n - 1 {
      NodeMapLastWins(teams, n - 1, k);
    } else if n > 1 {
      NodeMapKeys(teams, n - 1);
    }
  }

  lemma {:induction false} NodeMapKeys(teams: seq<Team>, n: nat)
    requires n <= |teams|
    ensures NodeMap(teams, n).Keys == IdsUpTo(teams, n)
  {
    if n > 0 {
      NodeMapKeys(teams, n - 1);
    }
  }

  /** Teams A (no parent), B (parent A) and C (parent Z, absent) give roots
      [A, C], and A's children are [B]. */
  lemma ScenarioDanglingParent()
    ensures var teams := [Team("A", "a", None, [], []), Team("B", "b", Some("A"), [], []),
                          Team("C", "c", Some("Z"), [], [])];
      Roots(teams) == ["A", "C"] && ChildrenOf(teams, "A") == ["B"] &&
      ChildrenOf(teams, "B") == [] && ChildrenOf(teams, "C") == []
  {
    var teams := [Team("A", "a", None, [], []), Team("B", "b", Some("A"), [], []),
                  Team("C", "c", Some("Z"), [], [])];
    assert IdsUpTo(teams, 1) == {"A"};
    assert IdsUpTo(teams, 2) == {"A", "B"};
    assert IdSet(teams) == {"A", "B", "C"};
    assert SlotOf(IdSet(teams), teams[0]) == Root;
    assert SlotOf(IdSet(teams), teams[1]) == Under("A");
    assert SlotOf(IdSet(teams), teams[2]) == Root;
    var ids := IdSet(teams);
    forall s: Slot ensures Placed(teams, ids, 3, s) ==
      (if s == Root then ["A"] else []) + (if s == Under("A") then ["B"] else []) + (if s == Root then ["C"] else [])
    {
      assert Placed(teams, ids, 1, s) == if s == Root then ["A"] else [];
      assert Placed(teams, ids, 2, s) == Placed(teams, ids, 1, s) + (if s == Under("A") then ["B"] else []);
    }
  }
}
