/** The services that change the tree in place, one row after the other. */
module OrgService {
  import opened Wrappers
  import opened OrgPaths
  import opened OrgTree
  import opened OrgInvariant

  /** `SELECT ... WHERE company_id = ... AND path LIKE 'old/%'`. */
  function Descendants(rows: Units, unit: Unit): (ids: set<string>)
    ensures forall id :: id in ids <==> IsRewritten(rows, unit, id)
  {
    set id | id in rows && rows[id].company == unit.company && unit.path + "/" <= rows[id].path
  }

  /** The unit has been moved, and of the rows below it those in `done` have been rewritten. */
  function PartlyMoved(before: Units, unitId: string, parentId: string, done: set<string>): Units
    requires unitId in before && parentId in before
  {
    var unit, parent := before[unitId], before[parentId];
    map id | id in before ::
      if id == unitId then MovedUnit(unit, parent)
      else if id in done && IsRewritten(before, unit, id) then Rewritten(unit, parent, before[id])
      else before[id]
  }

  lemma {:induction false} OnlyUnitMoved(before: Units, unitId: string, parentId: string)
    requires unitId in before && parentId in before
    ensures PartlyMoved(before, unitId, parentId, {}) == before[unitId := MovedUnit(before[unitId], before[parentId])]
  {
  }

  lemma {:induction false} FullyMoved(before: Units, unitId: string, parentId: string, done: set<string>)
    requires unitId in before && parentId in before
    requires forall id :: IsRewritten(before, before[unitId], id) ==> id in done
    ensures PartlyMoved(before, unitId, parentId, done) == Moved(before, unitId, parentId)
  {
  }

  class OrganizationRows {
    var rows: Units

    constructor ()
      ensures rows == map[] && WellFormed(rows)
    {
      rows := map[];
    }

    method CreateOrganizationUnit(newId: string, name: string, level: Level, parentId: Option<string>, sortOrder: int)
      returns (r: Result<string, OrgError>)
      requires WellFormed(rows) && newId !in rows && newId != "" && SlashFree(newId)
      modifies this
      ensures WellFormed(rows)
      ensures match CreateUnit(old(rows), newId, name, level, parentId, sortOrder)
              case Ok(rows') => r == Ok(newId) && rows == rows'
              case Err(e) => r == Err(e) && rows == old(rows)
    {
      CreateKeepsWellFormed(rows, newId, name, level, parentId, sortOrder);
      if name == "" {
        return Err(NameRequired);
      }
      var company, path := newId, newId;
      if level == Company {
        if parentId.Some? {
          return Err(InvalidParent);
        }
      } else {
        if parentId.None? || parentId.value == "" {
          return Err(ParentRequired);
        }
        var p := parentId.value;
        if p !in rows || !rows[p].active || ChildLevel(rows[p].level) != Some(level) {
          return Err(InvalidHierarchy);
        }
        company, path := rows[p].company, rows[p].path + "/" + newId;
      }
      if NameTaken(rows, newId, company, parentId, name) {
        return Err(NameConflict);
      }
      rows := rows[newId := Unit(newId, name, level, parentId, company, path, LevelDepth(level), true, sortOrder, 1)];
      return Ok(newId);
    }

    /**
      The unit first, then every row whose path starts with the old one; `old` and new prefix are read before
      the first write.
    */
    method MoveOrganizationUnit(unitId: string, parentId: string, version: int) returns (r: Result<string, OrgError>)
      requires WellFormed(rows)
      modifies this
      ensures WellFormed(rows)
      ensures match MoveUnit(old(rows), unitId, parentId, version)
              case Ok(rows') => r == Ok(unitId) && rows == rows'
              case Err(e) => r == Err(e) && rows == old(rows)
    {
      MoveUnitKeepsWellFormed(rows, unitId, parentId, version);
      if unitId !in rows || parentId !in rows || !rows[parentId].active {
        return Err(NotFound);
      }
      var unit, parent := rows[unitId], rows[parentId];
      if unit.version != version {
        return Err(VersionConflict);
      }
      if unit.level == Company || ChildLevel(parent.level) != Some(unit.level) {
        return Err(InvalidHierarchy);
      }
      if parent.company != unit.company {
        return Err(CrossCompanyMove);
      }
      if AtOrBelow(parent.path, unit.path) {
        return Err(Cycle);
      }
      if NameTaken(rows, unitId, unit.company, Some(parentId), unit.name) {
        return Err(NameConflict);
      }
      assert RowOk(rows, unitId) && RowOk(rows, parentId);
      MoveSubtree(unitId, parentId);
      return Ok(unitId);
    }

    method MoveSubtree(unitId: string, parentId: string)
      requires unitId in rows && parentId in rows
      modifies this
      ensures rows == Moved(old(rows), unitId, parentId)
    {
      ghost var before := rows;
      var unit, parent := rows[unitId], rows[parentId];
      var todo := Descendants(rows, unit);
      ghost var done := {};
      OnlyUnitMoved(before, unitId, parentId);
      rows := rows[unitId := MovedUnit(unit, parent)];
      while todo != {}
        invariant done !! todo && done + todo == Descendants(before, unit)
        invariant rows == PartlyMoved(before, unitId, parentId, done)
        decreases |todo|
      {
        var id :| id in todo;
        RewriteRow(before, unit, unitId, parentId, done, id);
        todo, done := todo - {id}, done + {id};
      }
      FullyMoved(before, unitId, parentId, done);
    }

    method RewriteRow(ghost before: Units, unit: Unit, unitId: string, ghost parentId: string, ghost done: set<string>,
                      id: string)
      requires unitId in before && parentId in before && rows == PartlyMoved(before, unitId, parentId, done)
      requires unit == before[unitId] && IsRewritten(before, unit, id) && id !in done
      modifies this
      ensures rows == PartlyMoved(before, unitId, parentId, done + {id})
    {
      var moved, row := rows[unitId], rows[id];
      var suffix := row.path[|unit.path|..];
      rows := rows[id := row.(path := moved.path + suffix, depth := moved.depth + CountSlashes(suffix),
                              version := row.version + 1)];
    }

    method UpdateOrganizationUnit(id: string, name: string, sortOrder: int, version: int)
      returns (r: Result<string, OrgError>)
      requires WellFormed(rows)
      modifies this
      ensures WellFormed(rows)
      ensures match UpdateUnit(old(rows), id, name, sortOrder, version)
              case Ok(rows') => r == Ok(id) && rows == rows'
              case Err(e) => r == Err(e) && rows == old(rows)
    {
      UpdateKeepsWellFormed(rows, id, name, sortOrder, version);
      if id !in rows || rows[id].version != version {
        return Err(VersionConflict);
      }
      if name == "" {
        return Err(NameRequired);
      }
      if NameTaken(rows, id, rows[id].company, rows[id].parent, name) {
        return Err(NameConflict);
      }
      var row := rows[id].(name := name, sortOrder := sortOrder);
      row := row.(version := row.version + 1);
      rows := rows[id := row];
      return Ok(id);
    }

    method DisableOrganizationUnit(id: string, hasMembers: bool) returns (r: Result<string, OrgError>)
      requires WellFormed(rows)
      modifies this
      ensures WellFormed(rows)
      ensures match DisableUnit(old(rows), id, hasMembers)
              case Ok(rows') => r == Ok(id) && rows == rows'
              case Err(e) => r == Err(e) && rows == old(rows)
    {
      DisableKeepsWellFormed(rows, id, hasMembers);
      var children := set child | child in rows && rows[child].parent == Some(id) && rows[child].active;
      if exists child :: child in children {
        var child :| child in children;
        assert rows[child].active && rows[child].parent == Some(id);
        return Err(HasChildrenOrMembers);
      }
      assert !exists child :: child in rows && rows[child].parent == Some(id) && rows[child].active by {
        assert forall child :: child in rows && rows[child].parent == Some(id) && rows[child].active ==>
                child in children;
      }
      if hasMembers {
        return Err(HasChildrenOrMembers);
      }
      if id !in rows {
        return Err(OutsideScope);
      }
      var row := rows[id].(active := false);
      rows := rows[id := row.(version := row.version + 1)];
      return Ok(id);
    }
  }
}
