/**
  What each request to the organization tree is answered, and the columns of every row after it: the
  exact condition of success and of each error, in terms of the rows alone.
*/
module OrgOutcomes {
  import opened Wrappers
  import opened OrgPaths
  import opened OrgTree
  import opened OrgInvariant

  /** The level of a parent and that of its child. */
  predicate Follows(parent: Level, child: Level) {
    || (parent == Company && child == Department)
    || (parent == Department && child == Group)
    || (parent == Group && child == Individual)
  }

  predicate IsActive(units: Units, id: string) {
    id in units && units[id].active
  }

  /** Another unit has the name where it has to be unique: a company among companies, a child among its siblings. */
  predicate CompanyNamed(units: Units, self: string, name: string) {
    exists id :: id in units && id != self && units[id].level == Company && units[id].name == name
  }

  predicate SiblingNamed(units: Units, self: string, parent: string, name: string) {
    exists id :: id in units && id != self && units[id].parent == Some(parent) && units[id].name == name
  }

  /** A level's place from the top, as the depth column holds it. */
  predicate DepthIs(level: Level, depth: int) {
    match level
    case Company => depth == 1
    case Department => depth == 2
    case Group => depth == 3
    case Individual => depth == 4
  }

  lemma {:induction false} ChildLevelIs(parent: Level, child: Level)
    ensures ChildLevel(parent) == Some(child) <==> Follows(parent, child)
    ensures DepthIs(child, LevelDepth(child))
  {
  }

  lemma {:induction false} SiblingsShareCompany(units: Units, self: string, parent: string, name: string)
    requires WellFormed(units) && parent in units
    ensures NameTaken(units, self, units[parent].company, Some(parent), name)
            <==> SiblingNamed(units, self, parent, name)
  {
    forall id | id in units && units[id].parent == Some(parent) ensures units[id].company == units[parent].company {
      assert RowOk(units, id);
    }
  }

  // Creation

  /** The parent that is named is there, active, and of the level above. */
  predicate ParentFits(units: Units, parentId: string, level: Level) {
    IsActive(units, parentId) && Follows(units[parentId].level, level)
  }

  /** When a company can be created. */
  lemma {:induction false} CreateCompanyAnswer(units: Units, newId: string, name: string, parentId: Option<string>,
                                               sortOrder: int)
    ensures var r := CreateUnit(units, newId, name, Company, parentId, sortOrder);
            && (r == Err(NameRequired) <==> name == "")
            && (r == Err(InvalidParent) <==> name != "" && parentId != None)
            && (r == Err(NameConflict) <==> name != "" && parentId == None && CompanyNamed(units, newId, name))
            && (r.Ok? <==> name != "" && parentId == None && !CompanyNamed(units, newId, name))
            && (r.Ok? ==> r.value == units[newId
                                           := Unit(newId, name, Company, None, newId, newId, 1, true, sortOrder, 1)])
  {
  }

  /** When another unit can be created, and its row. */
  lemma {:induction false} CreateAnswer(units: Units, newId: string, name: string, level: Level,
                                        parentId: Option<string>, sortOrder: int)
    requires WellFormed(units) && level != Company
    ensures var r := CreateUnit(units, newId, name, level, parentId, sortOrder);
            var named := parentId != None && parentId != Some("");
            && (r == Err(NameRequired) <==> name == "")
            && (r == Err(ParentRequired) <==> name != "" && !named)
            && (r == Err(InvalidHierarchy) <==> name != "" && named && !ParentFits(units, parentId.value, level))
            && (r == Err(NameConflict)
                <==> name != "" && named && ParentFits(units, parentId.value, level)
                     && SiblingNamed(units, newId, parentId.value, name))
            && (r.Ok? <==> name != "" && named && ParentFits(units, parentId.value, level)
                           && !SiblingNamed(units, newId, parentId.value, name))
            && (r.Ok? ==>
                  && newId in r.value && DepthIs(level, r.value[newId].depth)
                  && r.value == units[newId := Unit(newId, name, level, parentId, units[parentId.value].company,
                                                    units[parentId.value].path + "/" + newId, r.value[newId].depth,
                                                    true, sortOrder, 1)])
  {
    if parentId.Some? && parentId.value in units {
      ChildLevelIs(units[parentId.value].level, level);
      SiblingsShareCompany(units, newId, parentId.value, name);
    }
  }

  // Changing and disabling

  lemma {:induction false} UpdateAnswer(units: Units, id: string, name: string, sortOrder: int, version: int)
    requires WellFormed(units)
    ensures var r := UpdateUnit(units, id, name, sortOrder, version);
            var known := id in units && units[id].version == version;
            && (r == Err(VersionConflict) <==> !known)
            && (r == Err(NameRequired) <==> known && name == "")
            && (r == Err(NameConflict) <==> known && name != "" && NameElsewhere(units, id, name))
            && (r.Ok? <==> known && name != "" && !NameElsewhere(units, id, name))
            && (r.Ok? ==>
                  var u := units[id];
                  r.value == units[id := Unit(u.id, name, u.level, u.parent, u.company, u.path, u.depth, u.active,
                                              sortOrder, version + 1)])
  {
    if id in units {
      assert RowOk(units, id);
      if units[id].parent.Some? {
        SiblingsShareCompany(units, id, units[id].parent.value, name);
      }
    }
  }

  /** The name is that of another unit among which this one's must be unique. */
  predicate NameElsewhere(units: Units, id: string, name: string)
    requires id in units
  {
    if units[id].parent == None then CompanyNamed(units, id, name)
      else SiblingNamed(units, id, units[id].parent.value, name)
  }

  predicate HasActiveChild(units: Units, id: string) {
    exists child :: child in units && units[child].parent == Some(id) && units[child].active
  }

  lemma {:induction false} DisableAnswer(units: Units, id: string, hasMembers: bool)
    ensures var r := DisableUnit(units, id, hasMembers);
            && (r == Err(HasChildrenOrMembers) <==> HasActiveChild(units, id) || hasMembers)
            && (r == Err(OutsideScope) <==> !HasActiveChild(units, id) && !hasMembers && id !in units)
            && (r.Ok? <==> id in units && !HasActiveChild(units, id) && !hasMembers)
            && (r.Ok? ==>
                  var u := units[id];
                  r.value == units[id := Unit(u.id, u.name, u.level, u.parent, u.company, u.path, u.depth, false,
                                              u.sortOrder, u.version + 1)])
  {
  }

  // Moving

  predicate Movable(units: Units, unitId: string, parentId: string, version: int) {
    && unitId in units && IsActive(units, parentId) && units[unitId].version == version
    && Follows(units[parentId].level, units[unitId].level) && units[parentId].company == units[unitId].company
    && !SiblingNamed(units, unitId, parentId, units[unitId].name)
  }

  /**
    Main result. In a well-formed table a move succeeds if and only if both units are there and the parent
    is active, the version is the unit's, the levels follow each other, the company is the same, and no
    other child of the parent has the name; each error names the first of these that fails.
  */
  lemma {:induction false} MoveAnswer(units: Units, unitId: string, parentId: string, version: int)
    requires WellFormed(units)
    ensures var r := MoveUnit(units, unitId, parentId, version);
            var found := unitId in units && IsActive(units, parentId);
            var known := found && units[unitId].version == version;
            var fits := known && Follows(units[parentId].level, units[unitId].level);
            var own := fits && units[parentId].company == units[unitId].company;
            && (r == Err(NotFound) <==> !found)
            && (r == Err(VersionConflict) <==> found && !known)
            && (r == Err(InvalidHierarchy) <==> known && !fits)
            && (r == Err(CrossCompanyMove) <==> fits && !own)
            && (r == Err(NameConflict) <==> own && SiblingNamed(units, unitId, parentId, units[unitId].name))
            && (r.Ok? <==> Movable(units, unitId, parentId, version))
  {
    if unitId in units && parentId in units {
      assert RowOk(units, unitId);
      ChildLevelIs(units[parentId].level, units[unitId].level);
      SiblingsShareCompany(units, unitId, parentId, units[unitId].name);
      if ChildLevel(units[parentId].level) == Some(units[unitId].level) {
        CycleIsImpossible(units, unitId, parentId);
      }
    }
  }

  /**
    A move writes the parent of the moved unit, and path and version of it and its descendants: the old
    prefix gives way to the new one. No other column and no other row changes.
  */
  lemma {:induction false} MovedRow(units: Units, unitId: string, parentId: string, version: int, id: string)
    requires WellFormed(units) && MoveUnit(units, unitId, parentId, version).Ok? && id in units
    ensures var units', u, prefix := MoveUnit(units, unitId, parentId, version).value, units[id], units[unitId].path;
            && units'.Keys == units.Keys
            && (Under(units, unitId, id) ==>
                  && prefix <= u.path
                  && units'[id] == Unit(u.id, u.name, u.level, if id == unitId then Some(parentId) else u.parent,
                                        u.company, units[parentId].path + "/" + unitId + u.path[|prefix|..],
                                        u.depth, u.active, u.sortOrder, u.version + 1))
            && (!Under(units, unitId, id) ==> units'[id] == u)
  {
    var units' := MoveUnit(units, unitId, parentId, version).value;
    assert RowOk(units, unitId) && RowOk(units, parentId) && RowOk(units, id);
    MoveUnitKeepsWellFormed(units, unitId, parentId, version);
    assert RowOk(units', id);
    TouchedIsUnder(units, unitId, id);
    if id == unitId {
      assert units[id].path[|units[id].path|..] == "";
    }
  }

  // Names

  /** Companies have different names, and so have the children of one parent. */
  predicate NamesUnique(units: Units) {
    forall a, b :: a in units && b in units && a != b && units[a].name == units[b].name ==>
      units[a].parent != units[b].parent
  }

  lemma {:induction false} CreateKeepsNames(units: Units, newId: string, name: string, level: Level,
                                            parentId: Option<string>, sortOrder: int)
    requires WellFormed(units) && NamesUnique(units) && newId !in units
    requires CreateUnit(units, newId, name, level, parentId, sortOrder).Ok?
    ensures NamesUnique(CreateUnit(units, newId, name, level, parentId, sortOrder).value)
  {
    RootsAreCompanies(units);
    if level == Company {
      CreateCompanyAnswer(units, newId, name, parentId, sortOrder);
    } else {
      CreateAnswer(units, newId, name, level, parentId, sortOrder);
    }
  }

  lemma {:induction false} RootsAreCompanies(units: Units)
    requires WellFormed(units)
    ensures forall id :: id in units ==> (units[id].parent == None <==> units[id].level == Company)
  {
    forall id | id in units ensures units[id].parent == None <==> units[id].level == Company {
      assert RowOk(units, id);
    }
  }

  lemma {:induction false} UpdateKeepsNames(units: Units, id: string, name: string, sortOrder: int, version: int)
    requires WellFormed(units) && NamesUnique(units) && UpdateUnit(units, id, name, sortOrder, version).Ok?
    ensures NamesUnique(UpdateUnit(units, id, name, sortOrder, version).value)
  {
    RootsAreCompanies(units);
    UpdateAnswer(units, id, name, sortOrder, version);
  }

  lemma {:induction false} MoveKeepsNames(units: Units, unitId: string, parentId: string, version: int)
    requires WellFormed(units) && NamesUnique(units) && MoveUnit(units, unitId, parentId, version).Ok?
    ensures NamesUnique(MoveUnit(units, unitId, parentId, version).value)
  {
    var units' := MoveUnit(units, unitId, parentId, version).value;
    MoveAnswer(units, unitId, parentId, version);
    forall id | id in units
      ensures units'[id].name == units[id].name
      ensures units'[id].parent == if id == unitId then Some(parentId) else units[id].parent
    {
      MovedRow(units, unitId, parentId, version, id);
    }
  }

  lemma {:induction false} RequestKeepsNames(units: Units, req: Request)
    requires WellFormed(units) && NamesUnique(units) && Admissible(units, req)
    ensures NamesUnique(After(units, req))
  {
    if Perform(units, req).Ok? {
      match req
      case Create(_, newId, name, level, under, sortOrder) =>
        CreateKeepsNames(units, newId, name, level, under, sortOrder);
      case Update(_, id, name, sortOrder, version) => UpdateKeepsNames(units, id, name, sortOrder, version);
      case Move(_, id, parentId, version) => MoveKeepsNames(units, id, parentId, version);
      case Disable(_, _, _) =>
    }
  }

  /** Over every run of requests the names of companies and of siblings stay unique. */
  lemma {:induction false} RunKeepsNames(units: Units, reqs: seq<Request>)
    requires WellFormed(units) && NamesUnique(units) && AdmissibleRun(units, reqs)
    ensures NamesUnique(Run(units, reqs))
    decreases |reqs|
  {
    if reqs != [] {
      RequestKeepsNames(units, reqs[0]);
      RequestKeepsWellFormed(units, reqs[0]);
      RunKeepsNames(After(units, reqs[0]), reqs[1..]);
    }
  }

  // The scope check before the services

  /** What a context may see: its company's active units from its own path down, and an individual just its own unit. */
  predicate Sees(units: Units, ctx: Context, id: string) {
    if ctx.level == Individual then id == ctx.organization
    else
      && IsActive(units, id) && units[id].company == ctx.company
      && (units[id].path == ctx.path || ctx.path + "/" <= units[id].path)
  }

  /** Requests outside what the caller may see are refused, all others get the answer of their service. */
  lemma {:induction false} RequestAnswer(units: Units, req: Request)
    ensures match req
            case Create(ctx, newId, name, level, parentId, sortOrder) =>
              if level == Company then
                Perform(units, req) == if ctx != None then Err(OutsideScope)
                                       else CreateUnit(units, newId, name, level, parentId, sortOrder)
              else
                Perform(units, req) == if ctx == None then Err(ContextRequired)
                                       else if parentId == None || !Sees(units, ctx.value, parentId.value) then
                                         Err(OutsideScope)
                                       else CreateUnit(units, newId, name, level, parentId, sortOrder)
            case Update(ctx, id, name, sortOrder, version) =>
              Perform(units, req) == if Sees(units, ctx, id) then UpdateUnit(units, id, name, sortOrder, version)
                                     else Err(OutsideScope)
            case Move(ctx, id, parentId, version) =>
              Perform(units, req) == if Sees(units, ctx, id) && Sees(units, ctx, parentId) then
                                       MoveUnit(units, id, parentId, version)
                                     else Err(OutsideScope)
            case Disable(ctx, id, hasMembers) =>
              Perform(units, req) == if Sees(units, ctx, id) && id != ctx.organization then
                                       DisableUnit(units, id, hasMembers)
                                     else Err(OutsideScope)
  {
  }
}
