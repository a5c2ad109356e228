/**
  Scopes: the string tests on paths answer exactly what a walk over the parent links would, and a
  move changes scopes by exactly the moved subtree.
*/
module OrgScope {
  import opened Wrappers
  import opened OrgPaths
  import opened OrgTree
  import opened OrgInvariant
  import Memberships

  /** The unit and everything below it, by the parent links. */
  function Subtree(units: Units, top: string): set<string>
    requires WellFormed(units)
  {
    set id | id in units && Under(units, top, id)
  }

  function ActiveOnly(units: Units, ids: set<string>): set<string> {
    set id | id in ids && id in units && units[id].active
  }

  /** The context of a unit as it is now. */
  function ContextOf(units: Units, id: string): Context
    requires id in units
  {
    var u := units[id];
    Context(u.company, id, u.level, u.path, u.version)
  }

  // The prefix test

  /** Main result. On well-formed tables the string test holds exactly for the unit and its descendants. */
  lemma {:induction false} PrefixTestIsDescent(units: Units, top: string, id: string)
    requires WellFormed(units) && top in units && id in units
    ensures AtOrBelow(units[id].path, units[top].path) <==> Under(units, top, id)
  {
    TouchedIsUnder(units, top, id);
    if units[id].path == units[top].path {
      PathDeterminesId(units, id, top);
    } else if units[top].path + "/" <= units[id].path {
      BelowSharesCompany(units, top, id);
    }
  }

  lemma {:induction false} IndividualsHaveNoDescendants(units: Units, top: string, id: string)
    requires WellFormed(units) && top in units && units[top].level == Individual && id in units
    ensures Under(units, top, id) <==> id == top
    decreases LevelDepth(units[id].level)
  {
    assert RowOk(units, id);
    if id != top && units[id].parent.Some? {
      IndividualsHaveNoDescendants(units, top, units[id].parent.value);
    }
  }

  /**
    Main result. The scope query of a present context returns the active part of the subtree, except
    for an individual context, where it does so if and only if the unit is still active.
  */
  lemma {:induction false} ScopeIsActiveSubtree(units: Units, top: string)
    requires WellFormed(units) && top in units
    ensures ResolveScope(units, ContextOf(units, top)) == ActiveOnly(units, Subtree(units, top))
            <==> units[top].level != Individual || units[top].active
  {
    var scope := ResolveScope(units, ContextOf(units, top));
    var subtree := Subtree(units, top);
    if units[top].level == Individual {
      forall id | id in units ensures id in subtree <==> id == top {
        IndividualsHaveNoDescendants(units, top, id);
      }
      assert subtree == {top};
      assert top in scope;
      assert units[top].active ==> ActiveOnly(units, subtree) == {top};
    } else {
      forall id | id in units
        ensures id in scope <==> id in ActiveOnly(units, subtree)
      {
        PrefixTestIsDescent(units, top, id);
        if AtOrBelow(units[id].path, units[top].path) {
          BelowSharesCompany(units, top, id);
        }
      }
      assert scope == ActiveOnly(units, subtree);
    }
  }

  // The reference: a walk from the top down

  /** Collect the unit, then walk each of its children. */
  function Walk(units: Units, top: string): set<string>
    requires WellFormed(units) && top in units
    decreases 4 - LevelDepth(units[top].level)
  {
    {top} + set child, id |
      child in units && units[child].parent == Some(top) && id in WalkChild(units, top, child) :: id
  }

  function WalkChild(units: Units, top: string, child: string): set<string>
    requires WellFormed(units) && top in units && child in units && units[child].parent == Some(top)
    decreases 4 - LevelDepth(units[top].level), 0
  {
    assert RowOk(units, child);
    Walk(units, child)
  }

  lemma {:induction false} UnderThroughChild(units: Units, top: string, id: string) returns (child: string)
    requires WellFormed(units) && top in units && id in units && id != top && Under(units, top, id)
    ensures child in units && units[child].parent == Some(top) && Under(units, child, id)
    decreases LevelDepth(units[id].level)
  {
    assert RowOk(units, id);
    var p := units[id].parent.value;
    if p == top {
      child := id;
    } else {
      child := UnderThroughChild(units, top, p);
    }
  }

  lemma {:induction false} UnderIsTransitive(units: Units, top: string, middle: string, id: string)
    requires WellFormed(units) && middle in units && id in units
    requires Under(units, top, middle) && Under(units, middle, id)
    ensures Under(units, top, id)
    decreases LevelDepth(units[id].level)
  {
    assert RowOk(units, id);
    if id != middle {
      UnderIsTransitive(units, top, middle, units[id].parent.value);
    }
  }

  /** Walking down from a unit finds exactly the ids whose parent links lead up to it. */
  lemma {:induction false} WalkIsSubtree(units: Units, top: string)
    requires WellFormed(units) && top in units
    ensures Walk(units, top) == Subtree(units, top)
    decreases 4 - LevelDepth(units[top].level)
  {
    forall child | child in units && units[child].parent == Some(top)
      ensures WalkChild(units, top, child) == Subtree(units, child)
    {
      assert RowOk(units, child);
      WalkIsSubtree(units, child);
    }
    forall id | id in Subtree(units, top) ensures id in Walk(units, top) {
      if id != top {
        var child := UnderThroughChild(units, top, id);
        assert id in WalkChild(units, top, child);
      }
    }
    forall id | id in Walk(units, top) ensures id in Subtree(units, top) {
      if id != top {
        var child :| child in units && units[child].parent == Some(top) && id in WalkChild(units, top, child);
        assert Under(units, top, child);
        UnderIsTransitive(units, top, child, id);
      }
    }
  }

  // Scopes across a move

  lemma {:induction false} UnderOrder(units: Units, a: string, b: string)
    requires WellFormed(units) && a in units && b in units && Under(units, a, b)
    ensures LevelDepth(units[a].level) <= LevelDepth(units[b].level)
    ensures LevelDepth(units[a].level) == LevelDepth(units[b].level) ==> a == b
    decreases LevelDepth(units[b].level)
  {
    assert RowOk(units, b);
    if a != b {
      UnderOrder(units, a, units[b].parent.value);
    }
  }

  /** Who is above `id` after a move, in terms of the table before it. */
  predicate UnderMoved(units: Units, unitId: string, parentId: string, top: string, id: string)
    requires WellFormed(units) && unitId in units && parentId in units && top in units && id in units
  {
    if Under(units, unitId, id) && !Under(units, unitId, top) then Under(units, top, parentId)
    else Under(units, top, id)
  }

  lemma {:induction false} UnderMovedAtUnit(units: Units, unitId: string, parentId: string, top: string)
    requires WellFormed(units) && MoveAllowed(units, unitId, parentId) && top in units
    ensures UnderMoved(units, unitId, parentId, top, unitId)
            <==> top == unitId || UnderMoved(units, unitId, parentId, top, parentId)
  {
    PrefixTestIsDescent(units, unitId, parentId);
    if Under(units, unitId, top) {
      if Under(units, top, parentId) {
        UnderIsTransitive(units, unitId, top, parentId);
      }
      if Under(units, top, unitId) {
        UnderOrder(units, top, unitId);
        UnderOrder(units, unitId, top);
      }
    }
  }

  lemma {:induction false} UnderMovedElsewhere(units: Units, unitId: string, parentId: string, top: string, id: string)
    requires WellFormed(units) && MoveAllowed(units, unitId, parentId) && top in units && id in units && id != unitId
    ensures UnderMoved(units, unitId, parentId, top, id)
            <==> id == top || (units[id].parent.Some? && units[id].parent.value in units
                               && UnderMoved(units, unitId, parentId, top, units[id].parent.value))
  {
    assert RowOk(units, id);
    assert Under(units, unitId, id) <==> units[id].parent.Some? && Under(units, unitId, units[id].parent.value);
  }

  /** The two tables have the same parent links, except that the unit now hangs below `parentId`. */
  predicate Rehung(units: Units, units': Units, unitId: string, parentId: string) {
    && units'.Keys == units.Keys
    && forall id :: id in units ==>
         units'[id].parent == if id == unitId then Some(parentId) else units[id].parent
  }

  lemma {:induction false} MoveRehangs(units: Units, unitId: string, parentId: string)
    requires WellFormed(units) && unitId in units && parentId in units
    ensures Rehung(units, Moved(units, unitId, parentId), unitId, parentId)
  {
    assert RowOk(units, parentId);
  }

  lemma {:induction false} UnderStep(units: Units, top: string, id: string)
    requires WellFormed(units) && id in units
    ensures units[id].parent.Some? ==> units[id].parent.value in units
    ensures Under(units, top, id)
            <==> id == top || (units[id].parent.Some? && Under(units, top, units[id].parent.value))
  {
    assert RowOk(units, id);
  }

  predicate Agree(units: Units, units': Units, unitId: string, parentId: string, top: string, id: string)
    requires WellFormed(units) && WellFormed(units') && id in units && id in units'
    requires unitId in units && parentId in units && top in units
  {
    Under(units', top, id) <==> UnderMoved(units, unitId, parentId, top, id)
  }

  lemma {:induction false} AgreeAtUnit(units: Units, units': Units, unitId: string, parentId: string, top: string)
    requires WellFormed(units) && MoveAllowed(units, unitId, parentId) && top in units
    requires WellFormed(units') && Rehung(units, units', unitId, parentId)
    requires Agree(units, units', unitId, parentId, top, parentId)
    ensures Agree(units, units', unitId, parentId, top, unitId)
  {
    UnderStep(units', top, unitId);
    UnderMovedAtUnit(units, unitId, parentId, top);
  }

  lemma {:induction false} AgreeElsewhere(units: Units, units': Units, unitId: string, parentId: string, top: string,
                                          id: string)
    requires WellFormed(units) && MoveAllowed(units, unitId, parentId) && top in units && id in units && id != unitId
    requires WellFormed(units') && Rehung(units, units', unitId, parentId)
    requires units[id].parent.Some? ==> units[id].parent.value in units
    requires units[id].parent.Some? ==> Agree(units, units', unitId, parentId, top, units[id].parent.value)
    ensures Agree(units, units', unitId, parentId, top, id)
  {
    UnderStep(units', top, id);
    UnderMovedElsewhere(units, unitId, parentId, top, id);
  }

  lemma {:induction false} UnderAfterMove(units: Units, units': Units, unitId: string, parentId: string, top: string,
                                          id: string)
    requires WellFormed(units) && MoveAllowed(units, unitId, parentId) && top in units && id in units
    requires WellFormed(units') && Rehung(units, units', unitId, parentId)
    ensures Agree(units, units', unitId, parentId, top, id)
    decreases LevelDepth(units[id].level)
  {
    assert RowOk(units, id);
    if id == unitId {
      UnderAfterMove(units, units', unitId, parentId, top, parentId);
      AgreeAtUnit(units, units', unitId, parentId, top);
    } else {
      if units[id].parent.Some? {
        UnderAfterMove(units, units', unitId, parentId, top, units[id].parent.value);
      }
      AgreeElsewhere(units, units', unitId, parentId, top, id);
    }
  }

  /**
    Main result. A move changes a subtree only by the moved one: a unit above the new place gains
    it, a unit that was above the old place only loses it, and every other subtree is the same.
  */
  lemma {:induction false} MoveShiftsOneSubtree(units: Units, unitId: string, parentId: string, top: string)
    requires WellFormed(units) && MoveAllowed(units, unitId, parentId) && top in units
    ensures WellFormed(Moved(units, unitId, parentId))
    ensures var before := Subtree(units, top);
            var moved := Subtree(units, unitId);
            Subtree(Moved(units, unitId, parentId), top)
            == if Under(units, unitId, top) then before
               else if Under(units, top, parentId) then before + moved
               else before - moved
  {
    MoveKeepsWellFormed(units, unitId, parentId);
    MoveRehangs(units, unitId, parentId);
    var units' := Moved(units, unitId, parentId);
    forall id | id in units
      ensures Agree(units, units', unitId, parentId, top, id)
    {
      UnderAfterMove(units, units', unitId, parentId, top, id);
    }
  }

  // The context of a request

  /** The check of the resolver: every id on the path is an active unit of the company, and the last one is the unit. */
  predicate PathIsValid(units: Units, unit: Unit) {
    var pathIds := Split(unit.path);
    var ancestors := set id | id in pathIds && id in units && units[id].active && units[id].company == unit.company;
    |ancestors| == |pathIds| && pathIds[|pathIds| - 1] == unit.id
  }

  datatype ContextError = InvalidContext | NotEffective | LevelMismatch | InvalidPath

  function ResolveContext(units: Units, members: Memberships.Table, user: string, organization: string,
                          membershipId: string, now: int): Result<Context, ContextError>
  {
    if membershipId !in members || members[membershipId].user != user
       || members[membershipId].organization != organization || !members[membershipId].active
       || organization !in units || !units[organization].active then Err(InvalidContext)
    else
      var m, unit := members[membershipId], units[organization];
      if !Memberships.Effective(m, now) then Err(NotEffective)
      else if m.level != unit.level then Err(LevelMismatch)
      else if !PathIsValid(units, unit) then Err(InvalidPath)
      else Ok(ContextOf(units, organization))
  }

  lemma {:induction false} DistinctCount(ids: seq<string>)
    requires forall i, j :: 0 <= i < j < |ids| ==> ids[i] != ids[j]
    ensures |set id | id in ids| == |ids|
  {
    var all := set id | id in ids;
    if ids != [] {
      var rest := set id | id in ids[1..];
      DistinctCount(ids[1..]);
      assert ids == [ids[0]] + ids[1..];
      assert all == rest + {ids[0]};
    }
  }

  lemma {:induction false} CountBound(ids: seq<string>, some: set<string>)
    requires forall x :: x in some ==> x in ids
    ensures |some| <= |ids|
    ensures |some| == |ids| ==>
              (forall x :: x in ids ==> x in some) && forall i, j :: 0 <= i < j < |ids| ==> ids[i] != ids[j]
  {
    if ids != [] {
      var first, rest := ids[0], ids[1..];
      CountBound(rest, some - {first});
      if first in some {
        assert some == (some - {first}) + {first};
      } else {
        assert some - {first} == some;
      }
      if |some| == |ids| {
        assert first in some && forall x :: x in rest ==> x in some - {first};
        forall i, j | 0 <= i < j < |ids| ensures ids[i] != ids[j] {
          assert ids[j] == rest[j - 1] && ids[j] in rest;
          assert i > 0 ==> ids[i] == rest[i - 1];
        }
      }
    }
  }

  /** The count of the path check says: the ids on the path are different, and each is an active unit of the company. */
  lemma {:induction false} PathIsValidIff(units: Units, unit: Unit)
    ensures var ids := Split(unit.path);
            PathIsValid(units, unit)
            <==> && ids[|ids| - 1] == unit.id && (forall i, j :: 0 <= i < j < |ids| ==> ids[i] != ids[j])
                 && forall id :: id in ids ==> id in units && units[id].active && units[id].company == unit.company
  {
    var ids := Split(unit.path);
    var ancestors := set id | id in ids && id in units && units[id].active && units[id].company == unit.company;
    CountBound(ids, ancestors);
    if (forall i, j :: 0 <= i < j < |ids| ==> ids[i] != ids[j])
       && forall id :: id in ids ==> id in units && units[id].active && units[id].company == unit.company {
      DistinctCount(ids);
      assert ancestors == set id | id in ids;
    }
  }

  /** The membership is the user's own, in that unit, and active, and the unit is active. */
  predicate Belongs(units: Units, members: Memberships.Table, user: string, organization: string, membershipId: string)
    {
    && membershipId in members && members[membershipId].user == user
    && members[membershipId].organization == organization && members[membershipId].active
    && organization in units && units[organization].active
  }

  predicate Started(m: Memberships.Membership, now: int) {
    m.validFrom.Some? ==> m.validFrom.value <= now
  }

  predicate Ended(m: Memberships.Membership, now: int) {
    m.validTo.Some? && m.validTo.value <= now
  }

  /** Who is granted a context, why anybody else is not, and what the context holds. */
  lemma {:induction false} ContextAnswer(units: Units, members: Memberships.Table, user: string, organization: string,
                                         membershipId: string, now: int)
    requires WellFormed(units)
    ensures var r := ResolveContext(units, members, user, organization, membershipId, now);
            var own := Belongs(units, members, user, organization, membershipId);
            var effective := own && Started(members[membershipId], now) && !Ended(members[membershipId], now);
            && (r == Err(InvalidContext) <==> !own)
            && (r == Err(NotEffective) <==> own && !effective)
            && (r == Err(LevelMismatch) <==> effective && members[membershipId].level != units[organization].level)
            && (r.Ok? <==> effective && members[membershipId].level == units[organization].level)
            && (r.Ok? ==> var u := units[organization];
                          r.value == Context(u.company, organization, u.level, u.path, u.version))
  {
    if organization in units && units[organization].active {
      ActivePathsAreValid(units, organization);
      assert RowOk(units, organization);
    }
  }

  /** Main result. The path check never refuses an active unit of a reachable table. */
  lemma {:induction false} ActivePathsAreValid(units: Units, id: string)
    requires WellFormed(units) && id in units && units[id].active
    ensures PathIsValid(units, units[id])
  {
    var chain := Chain(units, id);
    ChainFacts(units, id);
    forall a | a in chain ensures SlashFree(a) {
      assert RowOk(units, a);
    }
    SplitJoin(chain);
    DistinctCount(chain);
    var ancestors := set a | a in chain && a in units && units[a].active && units[a].company == units[id].company;
    assert ancestors == set a | a in chain;
    assert RowOk(units, id);
  }

  /** So a context is refused only for its membership or an inactive unit, and what it grants is the present subtree. */
  lemma {:induction false} ResolvedContextSeesItsSubtree(units: Units, members: Memberships.Table, user: string,
                                                       organization: string, membershipId: string, now: int)
    requires WellFormed(units)
    ensures var r := ResolveContext(units, members, user, organization, membershipId, now);
            && r != Err(InvalidPath)
            && (r.Ok? ==> organization in units
                          && ResolveScope(units, r.value) == ActiveOnly(units, Subtree(units, organization)))
  {
    if organization in units && units[organization].active {
      ActivePathsAreValid(units, organization);
      ScopeIsActiveSubtree(units, organization);
    }
  }

  /**
    A context that was resolved earlier and whose version still matches sees the present subtree:
    over any run the version pins the path that the scope query uses.
  */
  lemma {:induction false} MatchingVersionSeesPresentSubtree(reqs: seq<Request>, more: seq<Request>, id: string)
    requires AdmissibleRun(map[], reqs + more) && id in Run(map[], reqs)
    requires id in Run(map[], reqs + more) && Run(map[], reqs + more)[id].version == Run(map[], reqs)[id].version
    requires Run(map[], reqs)[id].active
    ensures WellFormed(Run(map[], reqs + more))
    ensures var now := Run(map[], reqs + more);
            ResolveScope(now, ContextOf(Run(map[], reqs), id)) == ActiveOnly(now, Subtree(now, id))
  {
    VersionDeterminesRow(reqs, more, id);
    RunKeepsWellFormed(map[], reqs + more);
    ScopeIsActiveSubtree(Run(map[], reqs + more), id);
  }
}
