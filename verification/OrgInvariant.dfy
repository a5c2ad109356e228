/** Every request keeps the paths, depths, companies and activity of the tree in agreement with its parent links. */
module OrgInvariant {
  import opened Wrappers
  import opened OrgPaths
  import opened OrgTree

  // Paths of well-formed tables

  lemma {:induction false} PathSlashes(units: Units, id: string)
    requires WellFormed(units) && id in units
    ensures CountSlashes(units[id].path) == units[id].depth - 1
    decreases LevelDepth(units[id].level)
  {
    assert RowOk(units, id);
    match units[id].parent
    case None => CountSlashFree(id);
    case Some(p) =>
      PathSlashes(units, p);
      CountChildPath(units[p].path, id);
      assert RowOk(units, p);
  }

  lemma {:induction false} PathDeterminesId(units: Units, a: string, b: string)
    requires WellFormed(units) && a in units && b in units && units[a].path == units[b].path
    ensures a == b
  {
    PathEndsWithId(units, a);
    PathEndsWithId(units, b);
  }

  lemma {:induction false} PathEndsWithId(units: Units, id: string)
    requires WellFormed(units) && id in units
    ensures LastPart(units[id].path) == id
  {
    assert RowOk(units, id);
    match units[id].parent
    case None => SplitSlashFree(id);
    case Some(p) => LastPartOfChild(units[p].path, id);
  }

  lemma {:induction false} NothingBelowSlashFree(id: string, top: string)
    requires SlashFree(id)
    ensures !(top + "/" <= id)
  {
    if |top| < |id| {
      assert id[|top|] in id;
      assert (top + "/")[|top|] == '/';
    }
  }

  /** Being below a path passes from parent to child, and from child to parent except at the top itself. */
  lemma {:induction false} BelowByParent(units: Units, top: string, id: string)
    requires WellFormed(units) && top in units && id in units && id != top
    ensures units[id].parent.Some? ==> units[id].parent.value in units
    ensures units[top].path + "/" <= units[id].path
            <==> units[id].parent.Some? && AtOrBelow(units[units[id].parent.value].path, units[top].path)
  {
    assert RowOk(units, id) && RowOk(units, top);
    match units[id].parent
    case Some(p) => BelowChildPath(units[p].path, id, units[top].path);
    case None => NothingBelowSlashFree(id, units[top].path);
  }

  // A move

  predicate MoveAllowed(units: Units, unitId: string, parentId: string) {
    && unitId in units && parentId in units && unitId != parentId
    && units[parentId].active && units[unitId].parent.Some?
    && ChildLevel(units[parentId].level) == Some(units[unitId].level)
    && units[parentId].company == units[unitId].company
    && !AtOrBelow(units[parentId].path, units[unitId].path)
  }

  /** The rows a move touches: the unit and what is below it. */
  predicate Touched(units: Units, unitId: string, id: string)
    requires unitId in units
  {
    id == unitId || IsRewritten(units, units[unitId], id)
  }

  lemma {:induction false} BelowSharesCompany(units: Units, top: string, id: string)
    requires WellFormed(units) && top in units && id in units && AtOrBelow(units[id].path, units[top].path)
    ensures units[id].company == units[top].company
    decreases LevelDepth(units[id].level)
  {
    assert RowOk(units, id);
    if units[id].path == units[top].path {
      PathDeterminesId(units, id, top);
    } else if id != top {
      BelowByParent(units, top, id);
      BelowSharesCompany(units, top, units[id].parent.value);
    }
  }

  /** A touched row other than the unit has a touched parent, and an untouched row has an untouched parent. */
  lemma {:induction false} TouchedByParent(units: Units, unitId: string, id: string)
    requires WellFormed(units) && unitId in units && id in units && id != unitId
    ensures Touched(units, unitId, id) <==>
            units[id].parent.Some? && Touched(units, unitId, units[id].parent.value)
  {
    assert RowOk(units, id);
    BelowByParent(units, unitId, id);
    if units[id].parent.Some? {
      var p := units[id].parent.value;
      if units[p].path == units[unitId].path {
        PathDeterminesId(units, p, unitId);
      }
    }
  }

  lemma {:induction false} MovedRowIsOk(units: Units, unitId: string, parentId: string, id: string)
    requires WellFormed(units) && MoveAllowed(units, unitId, parentId) && id in units
    ensures RowOk(Moved(units, unitId, parentId), id)
  {
    assert RowOk(units, id);
    if id == unitId {
      assert RowOk(units, parentId) && !Touched(units, unitId, parentId);
    } else {
      TouchedByParent(units, unitId, id);
      if Touched(units, unitId, id) {
        RewrittenRowIsOk(units, unitId, parentId, id);
      }
    }
  }

  lemma {:induction false} RewrittenRowIsOk(units: Units, unitId: string, parentId: string, id: string)
    requires WellFormed(units) && MoveAllowed(units, unitId, parentId)
    requires id != unitId && IsRewritten(units, units[unitId], id)
    requires units[id].parent.Some? && Touched(units, unitId, units[id].parent.value)
    ensures RowOk(Moved(units, unitId, parentId), id)
  {
    assert RowOk(units, id) && RowOk(units, unitId) && RowOk(units, parentId);
    var p := units[id].parent.value;
    RewrittenDepth(units, unitId, parentId, id);
    RewrittenPath(units[unitId].path, MovedUnit(units[unitId], units[parentId]).path, units[p].path, id);
  }

  /** Replacing the prefix of a child's path is appending the child's id to its parent's replaced path. */
  lemma {:induction false} RewrittenPath(old_: string, new_: string, parentPath: string, id: string)
    requires AtOrBelow(parentPath, old_)
    ensures old_ + "/" <= parentPath + "/" + id
    ensures new_ + (parentPath + "/" + id)[|old_|..] == new_ + parentPath[|old_|..] + "/" + id
  {
    var path := parentPath + "/" + id;
    assert path[..|old_|] == parentPath[..|old_|];
    assert path[|old_|..] == parentPath[|old_|..] + "/" + id;
    assert new_ + path[|old_|..] == new_ + parentPath[|old_|..] + "/" + id;
  }

  lemma {:induction false} RewrittenDepth(units: Units, unitId: string, parentId: string, id: string)
    requires WellFormed(units) && MoveAllowed(units, unitId, parentId)
    requires id != unitId && IsRewritten(units, units[unitId], id)
    ensures Moved(units, unitId, parentId)[id].depth == units[id].depth
  {
    var unit, parent := units[unitId], units[parentId];
    var suffix := units[id].path[|unit.path|..];
    assert units[id].path == unit.path + suffix;
    CountConcat(unit.path, suffix);
    PathSlashes(units, id);
    PathSlashes(units, unitId);
    assert RowOk(units, unitId) && RowOk(units, parentId);
  }

  /** Main result for one move: rewriting the strings below the unit is what re-hanging the unit requires. */
  lemma {:induction false} MoveKeepsWellFormed(units: Units, unitId: string, parentId: string)
    requires WellFormed(units) && MoveAllowed(units, unitId, parentId)
    ensures WellFormed(Moved(units, unitId, parentId))
  {
    forall id | id in Moved(units, unitId, parentId) ensures RowOk(Moved(units, unitId, parentId), id) {
      MovedRowIsOk(units, unitId, parentId, id);
    }
  }

  /** The cycle branch cannot fire: the levels already exclude it. */
  lemma {:induction false} CycleIsImpossible(units: Units, unitId: string, parentId: string)
    requires WellFormed(units) && unitId in units && parentId in units
    requires ChildLevel(units[parentId].level) == Some(units[unitId].level)
    ensures !AtOrBelow(units[parentId].path, units[unitId].path)
  {
    var unit, parent := units[unitId], units[parentId];
    PathSlashes(units, unitId);
    PathSlashes(units, parentId);
    assert RowOk(units, unitId) && RowOk(units, parentId);
    if unit.path + "/" <= parent.path {
      var rest := parent.path[|unit.path|..];
      assert parent.path == unit.path + rest;
      CountConcat(unit.path, rest);
    }
  }

  lemma {:induction false} CycleNeverReported(units: Units, unitId: string, parentId: string, version: int)
    requires WellFormed(units)
    ensures MoveUnit(units, unitId, parentId, version) != Err(Cycle)
  {
    if unitId in units && parentId in units && ChildLevel(units[parentId].level) == Some(units[unitId].level) {
      CycleIsImpossible(units, unitId, parentId);
    }
  }

  // The other requests

  lemma {:induction false} CreateKeepsWellFormed(units: Units, newId: string, name: string, level: Level,
                                                 parentId: Option<string>, sortOrder: int)
    requires WellFormed(units) && newId !in units && newId != "" && SlashFree(newId)
    ensures CreateUnit(units, newId, name, level, parentId, sortOrder).Ok? ==>
              WellFormed(CreateUnit(units, newId, name, level, parentId, sortOrder).value)
  {
    var r := CreateUnit(units, newId, name, level, parentId, sortOrder);
    if r.Ok? {
      forall id | id in r.value ensures RowOk(r.value, id) {
        if id != newId {
          assert RowOk(units, id);
        } else if parentId.Some? {
          assert RowOk(units, parentId.value);
        }
      }
    }
  }

  lemma {:induction false} UpdateKeepsWellFormed(units: Units, id: string, name: string, sortOrder: int, version: int)
    requires WellFormed(units)
    ensures UpdateUnit(units, id, name, sortOrder, version).Ok? ==>
              WellFormed(UpdateUnit(units, id, name, sortOrder, version).value)
  {
    var r := UpdateUnit(units, id, name, sortOrder, version);
    if r.Ok? {
      forall other | other in r.value ensures RowOk(r.value, other) {
        assert RowOk(units, other);
      }
    }
  }

  lemma {:induction false} DisableKeepsWellFormed(units: Units, id: string, hasMembers: bool)
    requires WellFormed(units)
    ensures DisableUnit(units, id, hasMembers).Ok? ==> WellFormed(DisableUnit(units, id, hasMembers).value)
  {
    var r := DisableUnit(units, id, hasMembers);
    if r.Ok? {
      forall other | other in r.value ensures RowOk(r.value, other) {
        assert RowOk(units, other);
      }
    }
  }

  lemma {:induction false} MoveUnitKeepsWellFormed(units: Units, unitId: string, parentId: string, version: int)
    requires WellFormed(units)
    ensures MoveUnit(units, unitId, parentId, version).Ok? ==>
              MoveAllowed(units, unitId, parentId) && WellFormed(MoveUnit(units, unitId, parentId, version).value)
  {
    if MoveUnit(units, unitId, parentId, version).Ok? {
      assert RowOk(units, unitId) && RowOk(units, parentId);
      MoveKeepsWellFormed(units, unitId, parentId);
    }
  }

  lemma {:induction false} RequestKeepsWellFormed(units: Units, req: Request)
    requires WellFormed(units) && Admissible(units, req)
    ensures WellFormed(After(units, req))
  {
    match req
    case Create(_, newId, name, level, parentId, sortOrder) =>
      CreateKeepsWellFormed(units, newId, name, level, parentId, sortOrder);
    case Update(_, id, name, sortOrder, version) => UpdateKeepsWellFormed(units, id, name, sortOrder, version);
    case Move(_, id, parentId, version) => MoveUnitKeepsWellFormed(units, id, parentId, version);
    case Disable(_, id, hasMembers) => DisableKeepsWellFormed(units, id, hasMembers);
  }

  lemma {:induction false} RunKeepsWellFormed(units: Units, reqs: seq<Request>)
    requires WellFormed(units) && AdmissibleRun(units, reqs)
    ensures WellFormed(Run(units, reqs))
    decreases |reqs|
  {
    if reqs != [] {
      RequestKeepsWellFormed(units, reqs[0]);
      RunKeepsWellFormed(After(units, reqs[0]), reqs[1..]);
    }
  }

  // What the invariant says of a reachable table

  lemma {:induction false} ChainFacts(units: Units, id: string)
    requires WellFormed(units) && id in units
    ensures units[id].path == Join(Chain(units, id))
    ensures units[id].company == Chain(units, id)[0]
    ensures units[id].depth == |Chain(units, id)| == LevelDepth(units[id].level)
    ensures forall a :: a in Chain(units, id) ==>
              a in units && units[a].company == units[id].company && (units[id].active ==> units[a].active)
    ensures forall i, j :: 0 <= i < j < |Chain(units, id)| ==> Chain(units, id)[i] != Chain(units, id)[j]
    decreases LevelDepth(units[id].level)
  {
    assert RowOk(units, id);
    if units[id].parent.Some? {
      var p := units[id].parent.value;
      ChainFacts(units, p);
      JoinSnoc(Chain(units, p), id);
      ChainLevels(units, p);
    }
  }

  /** The levels rise by one along a chain, so no id occurs twice. */
  lemma {:induction false} ChainLevels(units: Units, id: string)
    requires WellFormed(units) && id in units
    ensures forall a :: a in Chain(units, id) ==>
             a in units && LevelDepth(units[a].level) <= LevelDepth(units[id].level)
    decreases LevelDepth(units[id].level)
  {
    assert RowOk(units, id);
    if units[id].parent.Some? {
      ChainLevels(units, units[id].parent.value);
    }
  }

  /**
    Main result. In every table that requests can produce, each unit's path is the '/'-join of the
    ids on its parent links, its company is the first of them, its depth is their number and its
    level's depth, no id occurs twice among them, and the ancestors of an active unit are active.
  */
  lemma {:induction false} ReachableTablesAgree(reqs: seq<Request>, id: string)
    requires AdmissibleRun(map[], reqs) && id in Run(map[], reqs)
    ensures WellFormed(Run(map[], reqs))
    ensures var units := Run(map[], reqs);
            var chain := Chain(units, id);
            && units[id].path == Join(chain)
            && units[id].company == chain[0]
            && units[id].depth == |chain| == LevelDepth(units[id].level)
            && (forall i, j :: 0 <= i < j < |chain| ==> chain[i] != chain[j])
            && (units[id].active ==> forall a :: a in chain ==> a in units && units[a].active)
  {
    RunKeepsWellFormed(map[], reqs);
    ChainFacts(Run(map[], reqs), id);
  }

  // Versions

  /** The rows a move bumps are the unit and its descendants, each by one; every other row is the same. */
  lemma {:induction false} MoveBumpsTheSubtree(units: Units, unitId: string, parentId: string, id: string)
    requires WellFormed(units) && MoveAllowed(units, unitId, parentId) && id in units
    ensures var row := Moved(units, unitId, parentId)[id];
            if Under(units, unitId, id) then row.version == units[id].version + 1 else row == units[id]
  {
    TouchedIsUnder(units, unitId, id);
  }

  lemma {:induction false} TouchedIsUnder(units: Units, unitId: string, id: string)
    requires WellFormed(units) && unitId in units && id in units
    ensures Touched(units, unitId, id) <==> Under(units, unitId, id)
    decreases LevelDepth(units[id].level)
  {
    assert RowOk(units, id);
    if id != unitId {
      TouchedByParent(units, unitId, id);
      if units[id].parent.Some? {
        TouchedIsUnder(units, unitId, units[id].parent.value);
      }
    }
  }

  /** A row only changes together with its version, and versions never go down. */
  predicate Pinned(before: Units, after: Units) {
    forall id :: id in before ==>
      id in after && before[id].version <= after[id].version
      && (before[id].version == after[id].version ==> after[id] == before[id])
  }

  lemma {:induction false} RequestPins(units: Units, req: Request)
    requires Admissible(units, req)
    ensures Pinned(units, After(units, req))
  {
  }

  lemma {:induction false} RunPins(units: Units, reqs: seq<Request>)
    requires AdmissibleRun(units, reqs)
    ensures Pinned(units, Run(units, reqs))
    decreases |reqs|
  {
    if reqs != [] {
      RequestPins(units, reqs[0]);
      RunPins(After(units, reqs[0]), reqs[1..]);
      var middle, last := After(units, reqs[0]), Run(units, reqs);
      forall id | id in units
        ensures id in last && units[id].version <= last[id].version
                && (units[id].version == last[id].version ==> last[id] == units[id])
      {
        assert id in middle;
      }
    }
  }

  lemma {:induction false} RunSplits(units: Units, first: seq<Request>, second: seq<Request>)
    requires AdmissibleRun(units, first + second)
    ensures AdmissibleRun(units, first) && AdmissibleRun(Run(units, first), second)
    ensures Run(units, first + second) == Run(Run(units, first), second)
    decreases |first|
  {
    if first == [] {
      assert first + second == second;
    } else {
      assert (first + second)[1..] == first[1..] + second;
      RunSplits(After(units, first[0]), first[1..], second);
    }
  }

  /**
    Main result. Over any run, a unit whose version is still the one a context token was minted
    with has the same path, parent and activity as it had then: a matching version means a
    present path.
  */
  lemma {:induction false} VersionDeterminesRow(reqs: seq<Request>, more: seq<Request>, id: string)
    requires AdmissibleRun(map[], reqs + more) && id in Run(map[], reqs)
    ensures id in Run(map[], reqs + more)
    ensures var then_, now := Run(map[], reqs)[id], Run(map[], reqs + more)[id];
            && then_.version <= now.version
            && (then_.version == now.version ==> now == then_)
  {
    RunSplits(map[], reqs, more);
    RunPins(Run(map[], reqs), more);
  }
}
