/**
  What each membership request is answered, and the rows after it, in terms of the rows alone.
*/
module MembershipOutcomes {
  import opened Wrappers
  import OrgTree
  import opened Memberships

  /** The table satisfies the checks and unique indexes of the schema, and no inactive row is primary. */
  predicate Sound(t: Table) {
    Inv(t) && IndividualIndex(t) && PeriodCheck(t)
  }

  /** The period covers the moment: its start is not later, and its end is later. */
  predicate Covers(m: Membership, now: int) {
    (m.validFrom == None || m.validFrom.value <= now) && (m.validTo == None || now < m.validTo.value)
  }

  /** An active membership of the user at the level, other than the excepted one, whose period covers the moment. */
  predicate HasPeer(t: Table, user: string, level: OrgTree.Level, except: Option<string>, now: int) {
    exists k :: k in t && t[k].user == user && t[k].level == level && t[k].active && Covers(t[k], now)
      && except != Some(k)
  }

  predicate IsActive(t: Table, id: string) {
    id in t && t[id].active
  }

  /** Every request leaves a sound table, so the answers below hold over every run. */
  lemma {:induction false} RunKeepsSound(t: Table, ops: seq<Op>)
    requires Sound(t)
    ensures Sound(Run(t, ops))
    decreases |ops|
  {
    if ops != [] {
      OpKeepsInv(t, ops[0]);
      CommitIsSound(t, ops[0]);
      RunKeepsSound(After(t, ops[0]), ops[1..]);
    }
  }

  lemma {:induction false} CommitIsSound(t: Table, op: Op)
    requires Sound(t)
    ensures IndividualIndex(After(t, op)) && PeriodCheck(After(t, op))
  {
  }

  // Creation

  lemma {:induction false} CreateAnswer(t: Table, newId: string, userActive: bool, user: string,
                                        unit: Option<OrgTree.Unit>, role: string, validFrom: Option<int>,
                                        validTo: Option<int>, now: int)
    requires Sound(t) && newId !in t
    ensures var r := Create(t, newId, userActive, user, unit, role, validFrom, validTo, now);
            var open := userActive && unit.Some? && unit.value.active;
            var joined := open && exists k :: k in t && t[k].user == user && t[k].organization == unit.value.id;
            && (r == Err(UserNotFound) <==> !userActive)
            && (r == Err(OrganizationNotFound) <==> userActive && !open)
            && (r == Err(MembershipExists) <==> joined)
            && (r == Err(IntegrityError)
                <==> open && !joined
                     && (ExpiredPrimary(t, user, unit.value.level, now) || Occupied(t, unit.value)
                         || PeriodInverted(validFrom, validTo)))
            && (r.Err? ==> r.error in {UserNotFound, OrganizationNotFound, MembershipExists, IntegrityError})
            && (r.Ok? ==>
                  r.value == t[newId := Membership(newId, user, unit.value.id, unit.value.level, role,
                                                   !HasPeer(t, user, unit.value.level, None, now), true, validFrom,
                                                   validTo, 1)])
  {
    ExpiredPrimaryBlocksCreation(t, newId, userActive, user, unit, role, validFrom, validTo, now);
  }

  // Promotion

  lemma {:induction false} SetPrimaryAnswer(t: Table, id: string, now: int)
    requires Sound(t)
    ensures var r := SetPrimary(t, id, now);
            && (r == Err(MembershipNotFound) <==> !IsActive(t, id))
            && (r == Err(NotEffective) <==> IsActive(t, id) && !Covers(t[id], now))
            && (r.Ok? <==> IsActive(t, id) && Covers(t[id], now))
  {
    if IsActive(t, id) {
      PromotionPassesIndex(t, id);
    }
  }

  /** The promoted row and the former primary of the same user and level get a new version; no other row changes. */
  lemma {:induction false} PromotedRows(t: Table, id: string, now: int, k: string)
    requires Sound(t) && SetPrimary(t, id, now).Ok? && k in t
    ensures var t', m := SetPrimary(t, id, now).value, t[k];
            && t'.Keys == t.Keys
            && t'[k] == if k == id then m.(isPrimary := true, version := m.version + 1)
                        else if m.isPrimary && m.user == t[id].user && m.level == t[id].level then
                          m.(isPrimary := false, version := m.version + 1)
                        else m
  {
  }

  // Leaving

  /** The replacement is an active membership of the same user and level whose period covers the moment. */
  predicate Replaces(t: Table, id: string, replacement: string, now: int)
    requires id in t
  {
    && IsActive(t, replacement) && t[replacement].user == t[id].user && t[replacement].level == t[id].level
    && Covers(t[replacement], now)
  }

  predicate Named(replacement: Option<string>) {
    replacement != None && replacement != Some("")
  }

  /** The membership needs no replacement, or names one that fits. */
  predicate MayLeave(t: Table, id: string, replacement: Option<string>, now: int) {
    && IsActive(t, id)
    && (t[id].isPrimary ==>
          if Named(replacement) then Replaces(t, id, replacement.value, now)
          else !HasPeer(t, t[id].user, t[id].level, Some(id), now))
  }

  lemma {:induction false} DeactivationPasses(t: Table, t': Table, id: string)
    requires Sound(t) && id in t && t'.Keys == t.Keys && !t'[id].active
    requires forall k :: k in t && t'[k].active ==> t[k].active
    requires forall k :: k in t ==>
               && t'[k].user == t[k].user && t'[k].level == t[k].level && t'[k].organization == t[k].organization
               && t'[k].validFrom == t[k].validFrom && t'[k].validTo == t[k].validTo
    requires PrimaryIndex(t')
    ensures Commit(t') == Ok(t')
  {
    forall a, b | a in t' && b in t' && t'[a].active && t'[b].active && t'[a].level == t'[b].level == OrgTree.Individual
                  && t'[a].organization == t'[b].organization
      ensures a == b
    {
      assert t[a].active && t[b].active;
    }
    forall a | a in t' && t'[a].validFrom.Some? && t'[a].validTo.Some?
      ensures t'[a].validTo.value > t'[a].validFrom.value
    {
      assert t[a].validFrom == t'[a].validFrom;
    }
  }

  /** What leaving with a replacement makes of a row. */
  function HandedOver(t: Table, id: string, replacement: string, k: string): Membership
    requires id in t && k in t
  {
    var m := t[k];
    if k == id then
      m.(active := false, isPrimary := false, version := m.version + if replacement == id then 2 else 1)
    else if k == replacement then m.(isPrimary := true, version := m.version + 1)
    else m
  }

  lemma {:induction false} HandOverRow(t: Table, demoted: Table, promoted: Table, id: string, replacement: string,
                                       now: int, k: string)
    requires Sound(t) && IsActive(t, id) && t[id].isPrimary && Replaces(t, id, replacement, now) && k in t
    requires demoted == t[id := t[id].(isPrimary := false)] && promoted == Promoted(demoted, replacement)
    ensures Deactivated(promoted, id)[k] == HandedOver(t, id, replacement, k)
  {
    assert k != id && ActivePrimary(t[k]) ==> !SamePlace(t[k], t[id]);
  }

  lemma {:induction false} HandOverRows(t: Table, id: string, replacement: string, now: int)
    requires Sound(t) && IsActive(t, id) && t[id].isPrimary && Replaces(t, id, replacement, now)
    ensures var t' := Deactivated(Promoted(t[id := t[id].(isPrimary := false)], replacement), id);
            && t'.Keys == t.Keys && forall k :: k in t ==> t'[k] == HandedOver(t, id, replacement, k)
  {
    var demoted := t[id := t[id].(isPrimary := false)];
    var promoted := Promoted(demoted, replacement);
    forall k | k in t ensures Deactivated(promoted, id)[k] == HandedOver(t, id, replacement, k) {
      HandOverRow(t, demoted, promoted, id, replacement, now, k);
    }
  }

  lemma {:induction false} HandOverPasses(t: Table, t': Table, id: string, replacement: string, now: int)
    requires Sound(t) && IsActive(t, id) && t[id].isPrimary && Replaces(t, id, replacement, now)
    requires t'.Keys == t.Keys && forall k :: k in t ==> t'[k] == HandedOver(t, id, replacement, k)
    ensures Commit(t') == Ok(t')
  {
    forall a, b | a in t' && b in t' && ActivePrimary(t'[a]) && ActivePrimary(t'[b]) && SamePlace(t'[a], t'[b])
      ensures a == b
    {
      assert t'[a] == HandedOver(t, id, replacement, a) && t'[b] == HandedOver(t, id, replacement, b);
      assert a != replacement ==> ActivePrimary(t[a]);
      assert b != replacement ==> ActivePrimary(t[b]);
    }
    DeactivationPasses(t, t', id);
  }

  lemma {:induction false} PlainLeavePasses(t: Table, id: string)
    requires Sound(t) && IsActive(t, id)
    ensures Commit(Deactivated(t, id)) == Ok(Deactivated(t, id))
  {
    DeactivationPasses(t, Deactivated(t, id), id);
  }

  /**
    Main result on leaving: an active membership may be disabled if and only if it is not primary, or it
    names a fitting replacement, or it names none and the user has no other effective one at the level.
  */
  lemma {:induction false} DisableAnswer(t: Table, id: string, replacement: Option<string>, now: int)
    requires Sound(t)
    ensures var r := Disable(t, id, replacement, now);
            && (r == Err(MembershipNotFound) <==> !IsActive(t, id))
            && (r == Err(ReplacementRequired)
                <==> IsActive(t, id) && !MayLeave(t, id, replacement, now) && !Named(replacement))
            && (r == Err(InvalidReplacement)
                <==> IsActive(t, id) && !MayLeave(t, id, replacement, now) && Named(replacement))
            && (r.Ok? <==> MayLeave(t, id, replacement, now))
  {
    if MayLeave(t, id, replacement, now) {
      if t[id].isPrimary && Named(replacement) {
        var t' := Deactivated(Promoted(t[id := t[id].(isPrimary := false)], replacement.value), id);
        HandOverRows(t, id, replacement.value, now);
        HandOverPasses(t, t', id, replacement.value, now);
      } else {
        PlainLeavePasses(t, id);
      }
    }
  }

  /** The rows after it: the membership is inactive and not primary, the replacement primary; no other row changes. */
  lemma {:induction false} LeftRows(t: Table, id: string, replacement: Option<string>, now: int, k: string)
    requires Sound(t) && MayLeave(t, id, replacement, now) && k in t
    ensures Disable(t, id, replacement, now).Ok?
    ensures var t', m := Disable(t, id, replacement, now).value, t[k];
            && t'.Keys == t.Keys
            && t'[k] == if t[id].isPrimary && Named(replacement) then HandedOver(t, id, replacement.value, k)
                        else if k == id then m.(active := false, isPrimary := false, version := m.version + 1)
                        else m
  {
    DisableAnswer(t, id, replacement, now);
    if t[id].isPrimary && Named(replacement) {
      HandOverRows(t, id, replacement.value, now);
    }
  }

  // Changing

  lemma {:induction false} UpdateAnswer(t: Table, id: string, role: Option<string>, validFrom: Option<int>,
                                        validTo: Option<int>, version: int)
    requires Sound(t)
    ensures var r := Update(t, id, role, validFrom, validTo, version);
            var known := id in t && t[id].version == version;
            && (r == Err(MembershipNotFound) <==> id !in t)
            && (r == Err(VersionChanged) <==> id in t && t[id].version != version)
            && (r == Err(InvalidPeriod) <==> known && PeriodInverted(validFrom, validTo))
            && (r.Ok? <==> known && !PeriodInverted(validFrom, validTo))
            && (r.Ok? ==>
                  var m := t[id];
                  r.value == t[id := Membership(m.id, m.user, m.organization, m.level,
                                                if role == None then m.role else role.value,
                                                m.isPrimary, m.active, validFrom, validTo, version + 1)])
  {
    if id in t && !PeriodInverted(validFrom, validTo) {
      var m := t[id].(role := if role.Some? then role.value else t[id].role, validFrom := validFrom, validTo := validTo,
                      version := version + 1);
      UpdatePasses(t, t[id := m], id);
    }
  }

  lemma {:induction false} UpdatePasses(t: Table, t': Table, id: string)
    requires Sound(t) && t'.Keys == t.Keys && id in t
    requires forall k :: k in t ==>
               && t'[k].user == t[k].user && t'[k].level == t[k].level && t'[k].organization == t[k].organization
               && t'[k].isPrimary == t[k].isPrimary && t'[k].active == t[k].active
    requires forall k :: k in t && k != id ==> t'[k].validFrom == t[k].validFrom && t'[k].validTo == t[k].validTo
    requires !PeriodInverted(t'[id].validFrom, t'[id].validTo)
    ensures Commit(t') == Ok(t')
  {
    forall a, b | a in t' && b in t' && ActivePrimary(t'[a]) && ActivePrimary(t'[b]) && SamePlace(t'[a], t'[b])
      ensures a == b
    {
      assert ActivePrimary(t[a]) && ActivePrimary(t[b]) && SamePlace(t[a], t[b]);
    }
    forall a, b | a in t' && b in t' && t'[a].active && t'[b].active && t'[a].level == t'[b].level == OrgTree.Individual
                  && t'[a].organization == t'[b].organization
      ensures a == b
    {
      assert t[a].active && t[b].active;
    }
    forall a | a in t' && t'[a].validFrom.Some? && t'[a].validTo.Some?
      ensures t'[a].validTo.value > t'[a].validFrom.value
    {
      assert a != id ==> t[a].validFrom == t'[a].validFrom;
    }
  }
}
