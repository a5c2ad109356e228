/**
  Memberships of users in organization units: at each level a user has at most one primary one.
*/
module Memberships {
  import opened Wrappers
  import OrgTree

  datatype Membership = Membership(
    id: string,
    user: string,
    organization: string,
    level: OrgTree.Level,
    role: string,
    isPrimary: bool,
    active: bool,
    validFrom: Option<int>,
    validTo: Option<int>,
    version: int)

  type Table = map<string, Membership>

  datatype MembershipError =
    | UserNotFound
    | OrganizationNotFound
    | MembershipExists
    | MembershipNotFound
    | NotEffective
    | ReplacementRequired
    | InvalidReplacement
    | VersionChanged
    | InvalidPeriod
    | IntegrityError

  /** The period is closed at its start and open at its end; a missing bound does not limit it. */
  predicate Effective(m: Membership, now: int) {
    && (m.validFrom.None? || m.validFrom.value <= now)
    && (m.validTo.None? || m.validTo.value > now)
  }

  predicate SamePlace(a: Membership, b: Membership) {
    a.user == b.user && a.level == b.level
  }

  predicate ActivePrimary(m: Membership) {
    m.active && m.isPrimary
  }

  // The unique indexes and checks of the schema

  predicate PrimaryIndex(t: Table) {
    forall a, b :: a in t && b in t && ActivePrimary(t[a]) && ActivePrimary(t[b]) && SamePlace(t[a], t[b]) ==> a == b
  }

  predicate IndividualIndex(t: Table) {
    forall a, b ::
      (a in t && b in t && t[a].active && t[b].active && t[a].level == t[b].level == OrgTree.Individual
       && t[a].organization == t[b].organization) ==> a == b
  }

  predicate PeriodCheck(t: Table) {
    forall a :: a in t && t[a].validFrom.Some? && t[a].validTo.Some? ==> t[a].validTo.value > t[a].validFrom.value
  }

  /** A commit that would break an index or a check raises and is rolled back. */
  function Commit(t: Table): Result<Table, MembershipError> {
    if PrimaryIndex(t) && IndividualIndex(t) && PeriodCheck(t) then Ok(t) else Err(IntegrityError)
  }

  // The services

  predicate HasEffectivePeer(t: Table, user: string, level: OrgTree.Level, except: Option<string>, now: int) {
    exists k :: k in t && t[k].user == user && t[k].level == level && t[k].active && Effective(t[k], now)
                && Some(k) != except
  }

  predicate Belongs(t: Table, user: string, organization: string) {
    exists k :: k in t && t[k].user == user && t[k].organization == organization
  }

  function Create(t: Table, newId: string, userActive: bool, user: string, unit: Option<OrgTree.Unit>, role: string,
                  validFrom: Option<int>, validTo: Option<int>, now: int): Result<Table, MembershipError>
  {
    if !userActive then Err(UserNotFound)
    else if unit.None? || !unit.value.active then Err(OrganizationNotFound)
    else if Belongs(t, user, unit.value.id) then Err(MembershipExists)
    else
      var primary := !HasEffectivePeer(t, user, unit.value.level, None, now);
      Commit(t[newId := Membership(newId, user, unit.value.id, unit.value.level, role, primary, true, validFrom,
                                   validTo, 1)])
  }

  /** Demote the present primary of the same user and level, if it is another one, and promote `id`. */
  function Promoted(t: Table, id: string): Table
    requires id in t
  {
    map k | k in t ::
      if k == id then t[k].(isPrimary := true, version := t[k].version + 1)
      else if ActivePrimary(t[k]) && SamePlace(t[k], t[id]) then t[k].(isPrimary := false, version := t[k].version + 1)
      else t[k]
  }

  function SetPrimary(t: Table, id: string, now: int): Result<Table, MembershipError> {
    if id !in t || !t[id].active then Err(MembershipNotFound)
    else if !Effective(t[id], now) then Err(NotEffective)
    else Commit(Promoted(t, id))
  }

  predicate ValidReplacement(t: Table, id: string, replacement: string, now: int)
    requires id in t
  {
    replacement in t && SamePlace(t[replacement], t[id]) && t[replacement].active && Effective(t[replacement], now)
  }

  /** An empty replacement id is none. */
  predicate Names(replacement: Option<string>) {
    replacement.Some? && replacement.value != ""
  }

  function Deactivated(t: Table, id: string): Table
    requires id in t
  {
    t[id := t[id].(active := false, isPrimary := false, version := t[id].version + 1)]
  }

  function Disable(t: Table, id: string, replacement: Option<string>, now: int): Result<Table, MembershipError> {
    if id !in t || !t[id].active then Err(MembershipNotFound)
    else if !t[id].isPrimary then Commit(Deactivated(t, id))
    else if !Names(replacement) then
      if HasEffectivePeer(t, t[id].user, t[id].level, Some(id), now) then Err(ReplacementRequired)
      else Commit(Deactivated(t, id))
    else if !ValidReplacement(t, id, replacement.value, now) then Err(InvalidReplacement)
    else Commit(Deactivated(Promoted(t[id := t[id].(isPrimary := false)], replacement.value), id))
  }

  function Update(t: Table, id: string, role: Option<string>, validFrom: Option<int>, validTo: Option<int>,
                  version: int)
    : Result<Table, MembershipError>
  {
    if id !in t then Err(MembershipNotFound)
    else if t[id].version != version then Err(VersionChanged)
    else if validFrom.Some? && validTo.Some? && validTo.value <= validFrom.value then Err(InvalidPeriod)
    else Commit(t[id := t[id].(role := if role.Some? then role.value else t[id].role,
                               validFrom := validFrom, validTo := validTo, version := version + 1)])
  }

  // Runs

  datatype Op =
    | OpCreate(newId: string, userActive: bool, user: string, unit: Option<OrgTree.Unit>, newRole: string,
               newFrom: Option<int>, newTo: Option<int>, at: int)
    | OpSetPrimary(id: string, at: int)
    | OpDisable(id: string, replacement: Option<string>, at: int)
    | OpUpdate(id: string, role: Option<string>, validFrom: Option<int>, validTo: Option<int>, version: int)

  function Perform(t: Table, op: Op): Result<Table, MembershipError> {
    match op
    case OpCreate(newId, userActive, user, unit, role, validFrom, validTo, now) =>
      Create(t, newId, userActive, user, unit, role, validFrom, validTo, now)
    case OpSetPrimary(id, now) => SetPrimary(t, id, now)
    case OpDisable(id, replacement, now) => Disable(t, id, replacement, now)
    case OpUpdate(id, role, validFrom, validTo, version) => Update(t, id, role, validFrom, validTo, version)
  }

  function After(t: Table, op: Op): Table {
    match Perform(t, op)
    case Ok(t') => t'
    case Err(_) => t
  }

  function Run(t: Table, ops: seq<Op>): Table
    decreases |ops|
  {
    if ops == [] then t else Run(After(t, ops[0]), ops[1..])
  }

  predicate Inv(t: Table) {
    && PrimaryIndex(t)
    && forall k :: k in t && t[k].isPrimary ==> t[k].active
  }

  /** The primaries of a user at a level. */
  function Primaries(t: Table, user: string, level: OrgTree.Level): set<string> {
    set k | k in t && ActivePrimary(t[k]) && t[k].user == user && t[k].level == level
  }

  lemma {:induction false} OpKeepsInv(t: Table, op: Op)
    requires Inv(t)
    ensures Inv(After(t, op))
  {
  }

  lemma {:induction false} RunKeepsInv(t: Table, ops: seq<Op>)
    requires Inv(t)
    ensures Inv(Run(t, ops))
    decreases |ops|
  {
    if ops != [] {
      OpKeepsInv(t, ops[0]);
      RunKeepsInv(After(t, ops[0]), ops[1..]);
    }
  }

  /** Main result. In every reachable table a user has at most one active primary per level, and no inactive one. */
  lemma {:induction false} OnePrimaryPerLevel(ops: seq<Op>, a: string, b: string)
    requires a in Run(map[], ops) && b in Run(map[], ops)
    requires Run(map[], ops)[a].isPrimary && Run(map[], ops)[b].isPrimary
    requires SamePlace(Run(map[], ops)[a], Run(map[], ops)[b])
    ensures a == b && Run(map[], ops)[a].active
  {
    RunKeepsInv(map[], ops);
  }

  predicate JoinedOnce(t: Table) {
    forall a, b :: a in t && b in t && t[a].user == t[b].user && t[a].organization == t[b].organization ==> a == b
  }

  predicate SameColumns(t: Table, t': Table) {
    t'.Keys == t.Keys && forall k :: k in t ==> t'[k].user == t[k].user && t'[k].organization == t[k].organization
  }

  lemma {:induction false} DisableKeepsColumns(t: Table, id: string, replacement: Option<string>, now: int)
    requires Disable(t, id, replacement, now).Ok?
    ensures SameColumns(t, Disable(t, id, replacement, now).value)
  {
    if t[id].isPrimary && Names(replacement) {
      var demoted := t[id := t[id].(isPrimary := false)];
      assert SameColumns(t, demoted);
      assert SameColumns(demoted, Promoted(demoted, replacement.value));
    }
  }

  lemma {:induction false} OtherOpsKeepColumns(t: Table, op: Op)
    requires !op.OpCreate? && Perform(t, op).Ok?
    ensures SameColumns(t, After(t, op))
  {
    match op
    case OpSetPrimary(id, now) =>
    case OpDisable(id, replacement, now) => DisableKeepsColumns(t, id, replacement, now);
    case OpUpdate(id, role, validFrom, validTo, version) =>
  }

  lemma {:induction false} CreateJoinsOnce(t: Table, op: Op)
    requires JoinedOnce(t) && op.OpCreate?
    ensures JoinedOnce(After(t, op))
  {
    if Perform(t, op).Ok? {
      assert !Belongs(t, op.user, op.unit.value.id);
    }
  }

  lemma {:induction false} OpKeepsJoinedOnce(t: Table, op: Op)
    requires JoinedOnce(t)
    ensures JoinedOnce(After(t, op))
  {
    if op.OpCreate? {
      CreateJoinsOnce(t, op);
    } else if Perform(t, op).Ok? {
      OtherOpsKeepColumns(t, op);
    }
  }

  /** The unique index on user and organization needs no part in `Commit`: in reachable tables it holds by itself. */
  lemma {:induction false} RunJoinsOnce(t: Table, ops: seq<Op>)
    requires JoinedOnce(t)
    ensures JoinedOnce(Run(t, ops))
    decreases |ops|
  {
    if ops != [] {
      OpKeepsJoinedOnce(t, ops[0]);
      RunJoinsOnce(After(t, ops[0]), ops[1..]);
    }
  }

  /** A successful promotion leaves exactly one primary, and changes no membership of another user or level. */
  lemma {:induction false} SetPrimaryLeavesOne(t: Table, id: string, now: int)
    requires Inv(t) && SetPrimary(t, id, now).Ok?
    ensures var t' := SetPrimary(t, id, now).value;
            && Primaries(t', t[id].user, t[id].level) == {id}
            && (forall k :: k in t && !SamePlace(t[k], t[id]) ==> k in t' && t'[k] == t[k])
  {
    assert Primaries(Promoted(t, id), t[id].user, t[id].level) == {id};
  }

  /** It is never refused by the index: under the invariant the promotion fails only for the reasons it names. */
  lemma {:induction false} PromotionPassesIndex(t: Table, id: string)
    requires Inv(t) && IndividualIndex(t) && PeriodCheck(t) && id in t && t[id].active
    ensures Commit(Promoted(t, id)) == Ok(Promoted(t, id))
  {
    var t' := Promoted(t, id);
    forall a, b | a in t' && b in t' && ActivePrimary(t'[a]) && ActivePrimary(t'[b]) && SamePlace(t'[a], t'[b])
      ensures a == b
    {
      assert a != id ==> ActivePrimary(t[a]) && !SamePlace(t[a], t[id]);
      assert b != id ==> ActivePrimary(t[b]) && !SamePlace(t[b], t[id]);
    }
  }

  /**
    Main result. Disabling a primary membership in favour of a replacement leaves the replacement
    as the only primary if and only if it is another membership; naming the membership itself
    is accepted, and leaves none.
  */
  lemma {:induction false} ReplacementBecomesPrimaryIff(t: Table, id: string, replacement: string, now: int)
    requires Inv(t) && id in t && t[id].isPrimary && replacement != "" && Disable(t, id, Some(replacement), now).Ok?
    ensures var after := Primaries(Disable(t, id, Some(replacement), now).value, t[id].user, t[id].level);
            && (after == {replacement} <==> replacement != id)
            && (replacement == id ==> after == {})
  {
    var t' := Disable(t, id, Some(replacement), now).value;
    var after := Primaries(t', t[id].user, t[id].level);
    if replacement != id {
      assert after == {replacement};
    } else {
      assert after == {};
    }
  }

  /** The self-replacement is not refused: the branch above is reached. */
  lemma {:induction false} SelfReplacementIsAccepted(t: Table, id: string, now: int)
    requires Inv(t) && IndividualIndex(t) && PeriodCheck(t)
    requires id in t && id != "" && t[id].active && t[id].isPrimary && Effective(t[id], now)
    ensures Disable(t, id, Some(id), now).Ok?
  {
    var t' := Deactivated(Promoted(t[id := t[id].(isPrimary := false)], id), id);
    forall k | k in t' ensures k in t && (k != id ==> t'[k] == t[k]) {
    }
    assert forall k :: k in t' && k == id ==>
            !t'[k].active && t'[k].validFrom == t[k].validFrom && t'[k].validTo == t[k].validTo;
    assert PrimaryIndex(t') && IndividualIndex(t') && PeriodCheck(t');
  }

  /** Somebody is an active member of an individual's own unit. */
  predicate Occupied(t: Table, unit: OrgTree.Unit) {
    unit.level == OrgTree.Individual
    && exists k :: k in t && t[k].active && t[k].level == OrgTree.Individual && t[k].organization == unit.id
  }

  predicate PeriodInverted(validFrom: Option<int>, validTo: Option<int>) {
    validFrom.Some? && validTo.Some? && validTo.value <= validFrom.value
  }

  /** No membership of the user at the level is effective, but one is still the active primary. */
  predicate ExpiredPrimary(t: Table, user: string, level: OrgTree.Level, now: int) {
    !HasEffectivePeer(t, user, level, None, now) && Primaries(t, user, level) != {}
  }

  lemma {:induction false} CommitNewIff(t: Table, newId: string, m: Membership, unit: OrgTree.Unit)
    requires Inv(t) && IndividualIndex(t) && PeriodCheck(t) && newId !in t
    requires m.active && m.level == unit.level && m.organization == unit.id
    ensures Commit(t[newId := m]) == Err(IntegrityError)
            <==> (m.isPrimary && Primaries(t, m.user, m.level) != {})
                 || Occupied(t, unit) || PeriodInverted(m.validFrom, m.validTo)
  {
    NewPrimaryIff(t, newId, m);
    NewIndividualIff(t, newId, m, unit);
    NewPeriodIff(t, newId, m);
  }

  lemma {:induction false} NewPrimaryIff(t: Table, newId: string, m: Membership)
    requires PrimaryIndex(t) && newId !in t && m.active
    ensures PrimaryIndex(t[newId := m]) <==> !(m.isPrimary && Primaries(t, m.user, m.level) != {})
  {
    var t' := t[newId := m];
    if m.isPrimary && Primaries(t, m.user, m.level) != {} {
      var k :| k in Primaries(t, m.user, m.level);
      assert ActivePrimary(t'[k]) && ActivePrimary(t'[newId]) && SamePlace(t'[k], t'[newId]);
    } else {
      assert !m.isPrimary || forall k :: k in t ==> k !in Primaries(t, m.user, m.level);
    }
  }

  lemma {:induction false} NewIndividualIff(t: Table, newId: string, m: Membership, unit: OrgTree.Unit)
    requires IndividualIndex(t) && newId !in t && m.active && m.level == unit.level && m.organization == unit.id
    ensures IndividualIndex(t[newId := m]) <==> !Occupied(t, unit)
  {
    var t' := t[newId := m];
    if Occupied(t, unit) {
      var k :| k in t && t[k].active && t[k].level == OrgTree.Individual && t[k].organization == unit.id;
      assert t'[k] == t[k] && t'[newId] == m;
    }
  }

  lemma {:induction false} NewPeriodIff(t: Table, newId: string, m: Membership)
    requires PeriodCheck(t) && newId !in t
    ensures PeriodCheck(t[newId := m]) <==> !PeriodInverted(m.validFrom, m.validTo)
  {
    assert t[newId := m][newId] == m;
  }

  /**
    A primary that is no longer effective still holds its place in the index, so the user cannot be
    given a membership at the same level: the new one would be primary too. Beside that the commit
    of a new membership fails only for an individual's unit that has a member, or for a period that
    ends before it starts.
  */
  lemma {:induction false} ExpiredPrimaryBlocksCreation(t: Table, newId: string, userActive: bool, user: string,
                                                        unit: Option<OrgTree.Unit>, role: string,
                                                        validFrom: Option<int>, validTo: Option<int>, now: int)
    requires Inv(t) && IndividualIndex(t) && PeriodCheck(t) && newId !in t
    ensures Create(t, newId, userActive, user, unit, role, validFrom, validTo, now) == Err(IntegrityError)
            <==> && userActive && unit.Some? && unit.value.active && !Belongs(t, user, unit.value.id)
                 && (|| ExpiredPrimary(t, user, unit.value.level, now)
                     || Occupied(t, unit.value)
                     || PeriodInverted(validFrom, validTo))
  {
    if userActive && unit.Some? && unit.value.active && !Belongs(t, user, unit.value.id) {
      var primary := !HasEffectivePeer(t, user, unit.value.level, None, now);
      CommitNewIff(t, newId, Membership(newId, user, unit.value.id, unit.value.level, role, primary, true, validFrom,
                                        validTo, 1),
                   unit.value);
    }
  }

  /** A user joins a unit until `expiry`, and from then on wants to join another one of the same level. */
  predicate Succession(first: OrgTree.Unit, second: OrgTree.Unit, from: int, expiry: int, now: int) {
    && first.active && second.active && first.level == second.level && first.id != second.id
    && from < expiry <= now
  }

  /** Such a table is reachable: after one creation, and the second one fails from the end of the first period on. */
  lemma {:induction false} SuccessorIsRefused(id: string, newId: string, user: string, first: OrgTree.Unit,
                                              second: OrgTree.Unit, role: string, from: int, expiry: int, now: int)
    requires Succession(first, second, from, expiry, now) && id != newId
    ensures var t := Run(map[], [OpCreate(id, true, user, Some(first), role, Some(from), Some(expiry), from)]);
            && t.Keys == {id} && ExpiredPrimary(t, user, second.level, now)
            && Create(t, newId, true, user, Some(second), role, None, None, now) == Err(IntegrityError)
  {
    var op := OpCreate(id, true, user, Some(first), role, Some(from), Some(expiry), from);
    var m := Membership(id, user, first.id, first.level, role, true, true, Some(from), Some(expiry), 1);
    var t := map[id := m];
    assert After(map[], op) == t;
    assert Run(map[], [op]) == Run(t, [op][1..]) == t;
    assert id in Primaries(t, user, second.level);
    assert Inv(t) && IndividualIndex(t) && PeriodCheck(t) && !Belongs(t, user, second.id);
    ExpiredPrimaryBlocksCreation(t, newId, true, user, Some(second), role, None, None, now);
  }

  /** The rows as the services change them, one flush at a time. */
  class MembershipRows {
    var rows: Table

    constructor ()
      ensures rows == map[]
    {
      rows := map[];
    }

    method SetPrimaryMembership(id: string, now: int) returns (r: Result<(Option<string>, string), MembershipError>)
      requires Inv(rows) && IndividualIndex(rows) && PeriodCheck(rows)
      modifies this
      ensures r.Ok? <==> SetPrimary(old(rows), id, now).Ok?
      ensures r.Err? ==> r.error == SetPrimary(old(rows), id, now).error
      ensures rows == if r.Ok? then SetPrimary(old(rows), id, now).value else old(rows)
      ensures r.Ok? ==> r.value.1 == id
                        && Primaries(old(rows), old(rows)[id].user, old(rows)[id].level)
                           == if r.value.0.Some? then {r.value.0.value} else {}
    {
      if id !in rows || !rows[id].active {
        return Err(MembershipNotFound);
      }
      if !Effective(rows[id], now) {
        return Err(NotEffective);
      }
      PromotionPassesIndex(rows, id);
      var oldId := Promote(id);
      return Ok((oldId, id));
    }

    method Promote(id: string) returns (oldId: Option<string>)
      requires PrimaryIndex(rows) && id in rows
      modifies this
      ensures rows == Promoted(old(rows), id)
      ensures Primaries(old(rows), old(rows)[id].user, old(rows)[id].level)
              == if oldId.Some? then {oldId.value} else {}
    {
      var currents := set k | k in rows && ActivePrimary(rows[k]) && SamePlace(rows[k], rows[id]);
      oldId := None;
      assert forall k :: k in rows && ActivePrimary(rows[k]) && SamePlace(rows[k], rows[id]) ==> k in currents;
      assert currents == Primaries(rows, rows[id].user, rows[id].level);
      if currents != {} {
        var current :| current in currents;
        assert forall k :: k in currents ==> k == current by {
          assert forall k :: k in currents ==> SamePlace(rows[k], rows[current]);
        }
        assert currents == {current};
        oldId := Some(current);
        if current != id {
          rows := rows[current := rows[current].(isPrimary := false, version := rows[current].version + 1)];
        }
      }
      rows := rows[id := rows[id].(isPrimary := true, version := rows[id].version + 1)];
    }

    method HandOver(id: string, replacement: string, now: int)
      requires Inv(rows) && IndividualIndex(rows) && PeriodCheck(rows)
      requires id in rows && rows[id].active && ValidReplacement(rows, id, replacement, now)
      modifies this
      ensures rows == Promoted(old(rows)[id := old(rows)[id].(isPrimary := false)], replacement)
      ensures PrimaryIndex(rows) && IndividualIndex(rows) && PeriodCheck(rows)
    {
      rows := rows[id := rows[id].(isPrimary := false)];
      PromotionPassesIndex(rows, replacement);
      var promoted := SetPrimaryMembership(replacement, now);
    }

    method HasOthers(id: string, now: int) returns (found: bool)
      requires id in rows
      ensures found <==> HasEffectivePeer(rows, rows[id].user, rows[id].level, Some(id), now)
    {
      var others := set k | k in rows && k != id && SamePlace(rows[k], rows[id]) && rows[k].active
                            && Effective(rows[k], now);
      found := others != {};
      if HasEffectivePeer(rows, rows[id].user, rows[id].level, Some(id), now) {
        var k :| k in rows && rows[k].user == rows[id].user && rows[k].level == rows[id].level && rows[k].active
                 && Effective(rows[k], now) && Some(k) != Some(id);
        assert k in others;
      }
    }

    /** A primary gives its place away first; why that is not possible, or None. */
    method GiveUpPrimary(id: string, replacement: Option<string>, now: int) returns (e: Option<MembershipError>)
      requires Inv(rows) && IndividualIndex(rows) && PeriodCheck(rows)
      requires id in rows && rows[id].active && rows[id].isPrimary
      modifies this
      ensures PrimaryIndex(rows) && IndividualIndex(rows) && PeriodCheck(rows)
      ensures var peers := HasEffectivePeer(old(rows), old(rows)[id].user, old(rows)[id].level, Some(id), now);
              if !Names(replacement) then rows == old(rows) && e == if peers then Some(ReplacementRequired) else None
              else if !ValidReplacement(old(rows), id, replacement.value, now) then
                rows == old(rows) && e == Some(InvalidReplacement)
              else rows == Promoted(old(rows)[id := old(rows)[id].(isPrimary := false)], replacement.value) && e == None
    {
      e := None;
      if !Names(replacement) {
        var others := HasOthers(id, now);
        if others {
          e := Some(ReplacementRequired);
        }
      } else if !ValidReplacement(rows, id, replacement.value, now) {
        e := Some(InvalidReplacement);
      } else {
        HandOver(id, replacement.value, now);
      }
    }

    method Deactivate(id: string)
      requires id in rows && PrimaryIndex(rows) && IndividualIndex(rows) && PeriodCheck(rows)
      modifies this
      ensures rows == Deactivated(old(rows), id) && Commit(Deactivated(old(rows), id)) == Ok(rows)
    {
      rows := rows[id := rows[id].(active := false, isPrimary := false, version := rows[id].version + 1)];
      DeactivationPassesIndex(rows);
    }

    method DisableMembership(id: string, replacement: Option<string>, now: int)
      returns (r: Result<string, MembershipError>)
      requires Inv(rows) && IndividualIndex(rows) && PeriodCheck(rows)
      modifies this
      ensures r == if Disable(old(rows), id, replacement, now).Ok? then Ok(id)
              else Err(Disable(old(rows), id, replacement, now).error)
      ensures rows == if r.Ok? then Disable(old(rows), id, replacement, now).value else old(rows)
    {
      if id !in rows || !rows[id].active {
        return Err(MembershipNotFound);
      }
      if rows[id].isPrimary {
        var refused := GiveUpPrimary(id, replacement, now);
        if refused.Some? {
          return Err(refused.value);
        }
      }
      Deactivate(id);
      return Ok(id);
    }
  }

  lemma {:induction false} DeactivationPassesIndex(t: Table)
    requires PrimaryIndex(t) && IndividualIndex(t) && PeriodCheck(t)
    ensures Commit(t) == Ok(t)
  {
  }
}
