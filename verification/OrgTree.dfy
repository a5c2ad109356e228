/**
  The four-level organization tree as the database stores it: every unit has a link to its
  parent and, for fast scope queries, the path of ids from its company down to itself.
*/
module OrgTree {
  import opened Wrappers
  import opened OrgPaths

  datatype Level = Company | Department | Group | Individual

  datatype Unit = Unit(
    id: string,
    name: string,
    level: Level,
    parent: Option<string>,
    company: string,
    path: string,
    depth: int,
    active: bool,
    sortOrder: int,
    version: int)

  type Units = map<string, Unit>

  datatype OrgError =
    | ContextRequired
    | OutsideScope
    | NameRequired
    | InvalidParent
    | ParentRequired
    | InvalidHierarchy
    | NotFound
    | VersionConflict
    | CrossCompanyMove
    | Cycle
    | HasChildrenOrMembers
    | NameConflict

  function LevelDepth(level: Level): int {
    match level
    case Company => 1
    case Department => 2
    case Group => 3
    case Individual => 4
  }

  function ChildLevel(level: Level): Option<Level> {
    match level
    case Company => Some(Department)
    case Department => Some(Group)
    case Group => Some(Individual)
    case Individual => None
  }

  /** The identity a request acts with, as it was resolved at some earlier time. */
  datatype Context = Context(company: string, organization: string, level: Level, path: string, version: int)

  /** The ids a context may see. An individual sees its own unit, whether or not that is still active. */
  function ResolveScope(units: Units, ctx: Context): set<string> {
    if ctx.level == Individual then {ctx.organization}
    else set id | id in units && units[id].company == ctx.company && units[id].active
                  && AtOrBelow(units[id].path, ctx.path)
  }

  // The services. Each returns the new table, or the error that leaves the table as it is.

  /** Company names are unique; other names are unique among the children of one parent. */
  predicate NameTaken(units: Units, self: string, company: string, parent: Option<string>, name: string) {
    exists id :: id in units && id != self && units[id].name == name
                 && (match parent
                     case None => units[id].level == Company
                     case Some(p) => units[id].parent == Some(p) && units[id].company == company)
  }

  /** `newId` is the new unit's id and `name` is already stripped. */
  function CreateUnit(units: Units, newId: string, name: string, level: Level, parentId: Option<string>, sortOrder: int)
    : Result<Units, OrgError>
  {
    if name == "" then Err(NameRequired)
    else if level == Company then
      if parentId.Some? then Err(InvalidParent)
      else if NameTaken(units, newId, newId, None, name) then Err(NameConflict)
      else Ok(units[newId := Unit(newId, name, level, None, newId, newId, 1, true, sortOrder, 1)])
    else if parentId.None? || parentId.value == "" then Err(ParentRequired)
    else if parentId.value !in units || !units[parentId.value].active
            || ChildLevel(units[parentId.value].level) != Some(level) then Err(InvalidHierarchy)
    else
      var parent := units[parentId.value];
      if NameTaken(units, newId, parent.company, parentId, name) then Err(NameConflict)
      else Ok(units[newId := Unit(newId, name, level, parentId, parent.company, parent.path + "/" + newId,
                                  LevelDepth(level), true, sortOrder, 1)])
  }

  function UpdateUnit(units: Units, id: string, name: string, sortOrder: int, version: int): Result<Units, OrgError> {
    if id !in units || units[id].version != version then Err(VersionConflict)
    else if name == "" then Err(NameRequired)
    else if NameTaken(units, id, units[id].company, units[id].parent, name) then Err(NameConflict)
    else Ok(units[id := units[id].(name := name, sortOrder := sortOrder, version := version + 1)])
  }

  function DisableUnit(units: Units, id: string, hasMembers: bool): Result<Units, OrgError> {
    if (exists child :: child in units && units[child].parent == Some(id) && units[child].active) || hasMembers
    then Err(HasChildrenOrMembers)
    else if id !in units then Err(OutsideScope)
    else Ok(units[id := units[id].(active := false, version := units[id].version + 1)])
  }

  /** The rows whose path the move rewrites. */
  predicate IsRewritten(units: Units, unit: Unit, id: string) {
    id in units && units[id].company == unit.company && unit.path + "/" <= units[id].path
  }

  function MovedUnit(unit: Unit, parent: Unit): Unit {
    unit.(parent := Some(parent.id), path := parent.path + "/" + unit.id, depth := parent.depth + 1,
          version := unit.version + 1)
  }

  /** The old prefix is cut off and the new one put in its place. */
  function Rewritten(unit: Unit, parent: Unit, descendant: Unit): Unit
    requires unit.path + "/" <= descendant.path
  {
    var suffix := descendant.path[|unit.path|..];
    descendant.(path := MovedUnit(unit, parent).path + suffix,
                depth := MovedUnit(unit, parent).depth + CountSlashes(suffix),
                version := descendant.version + 1)
  }

  function Moved(units: Units, unitId: string, parentId: string): Units
    requires unitId in units && parentId in units
  {
    var unit, parent := units[unitId], units[parentId];
    map id | id in units ::
      if id == unitId then MovedUnit(unit, parent)
      else if IsRewritten(units, unit, id) then Rewritten(unit, parent, units[id])
      else units[id]
  }

  function MoveUnit(units: Units, unitId: string, parentId: string, version: int): Result<Units, OrgError> {
    if unitId !in units || parentId !in units || !units[parentId].active then Err(NotFound)
    else
      var unit, parent := units[unitId], units[parentId];
      if unit.version != version then Err(VersionConflict)
      else if unit.level == Company || ChildLevel(parent.level) != Some(unit.level) then Err(InvalidHierarchy)
      else if parent.company != unit.company then Err(CrossCompanyMove)
      else if AtOrBelow(parent.path, unit.path) then Err(Cycle)
      else if NameTaken(units, unitId, unit.company, Some(parentId), unit.name) then Err(NameConflict)
      else Ok(Moved(units, unitId, parentId))
  }

  // The requests: a service behind the scope check of its endpoint

  datatype Request =
    | Create(caller: Option<Context>, newId: string, name: string, level: Level, under: Option<string>, sortOrder: int)
    | Update(ctx: Context, id: string, name: string, sortOrder: int, version: int)
    | Move(ctx: Context, id: string, parentId: string, version: int)
    | Disable(ctx: Context, id: string, hasMembers: bool)

  function Perform(units: Units, req: Request): Result<Units, OrgError> {
    match req
    case Create(ctx, newId, name, level, parentId, sortOrder) =>
      if level == Company then
        if ctx.Some? then Err(OutsideScope) else CreateUnit(units, newId, name, level, parentId, sortOrder)
      else if ctx.None? then Err(ContextRequired)
      else if parentId.None? || parentId.value !in ResolveScope(units, ctx.value) then Err(OutsideScope)
      else CreateUnit(units, newId, name, level, parentId, sortOrder)
    case Update(ctx, id, name, sortOrder, version) =>
      if id !in ResolveScope(units, ctx) then Err(OutsideScope)
      else UpdateUnit(units, id, name, sortOrder, version)
    case Move(ctx, id, parentId, version) =>
      if id !in ResolveScope(units, ctx) || parentId !in ResolveScope(units, ctx) then Err(OutsideScope)
      else MoveUnit(units, id, parentId, version)
    case Disable(ctx, id, hasMembers) =>
      if id !in ResolveScope(units, ctx) || id == ctx.organization then Err(OutsideScope)
      else DisableUnit(units, id, hasMembers)
  }

  /** New ids are fresh UUIDs: not used before, and free of the path separator. */
  predicate Admissible(units: Units, req: Request) {
    req.Create? ==> req.newId !in units && req.newId != "" && SlashFree(req.newId)
  }

  function After(units: Units, req: Request): Units {
    match Perform(units, req)
    case Ok(units') => units'
    case Err(_) => units
  }

  function Run(units: Units, reqs: seq<Request>): Units
    decreases |reqs|
  {
    if reqs == [] then units else Run(After(units, reqs[0]), reqs[1..])
  }

  predicate AdmissibleRun(units: Units, reqs: seq<Request>)
    decreases |reqs|
  {
    reqs != [] ==> Admissible(units, reqs[0]) && AdmissibleRun(After(units, reqs[0]), reqs[1..])
  }

  // The invariant of the table: each row agrees with its parent's row

  predicate RowOk(units: Units, id: string)
    requires id in units
  {
    var u := units[id];
    && u.id == id && id != "" && SlashFree(id)
    && u.depth == LevelDepth(u.level)
    && match u.parent
       case None => u.level == Company && u.company == id && u.path == id
       case Some(p) =>
         && p in units
         && ChildLevel(units[p].level) == Some(u.level)
         && u.company == units[p].company
         && u.path == units[p].path + "/" + id
         && (u.active ==> units[p].active)
  }

  predicate WellFormed(units: Units) {
    forall id {:trigger RowOk(units, id)} :: id in units ==> RowOk(units, id)
  }

  // What the table means

  /** The ids on the parent links from the company down to the unit. */
  function Chain(units: Units, id: string): (chain: seq<string>)
    requires WellFormed(units) && id in units
    ensures chain != [] && chain[|chain| - 1] == id
    decreases LevelDepth(units[id].level)
  {
    assert RowOk(units, id);
    match units[id].parent
    case None => [id]
    case Some(p) =>
      assert LevelDepth(units[p].level) < LevelDepth(units[id].level);
      Chain(units, p) + [id]
  }

  /** `id` is `top` or one of its descendants, by the parent links alone. */
  predicate Under(units: Units, top: string, id: string)
    requires WellFormed(units) && id in units
    decreases LevelDepth(units[id].level)
  {
    assert RowOk(units, id);
    id == top || (units[id].parent.Some? && Under(units, top, units[id].parent.value))
  }
}
