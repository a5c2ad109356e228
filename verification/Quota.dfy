/**
  Monthly quotas with reservations: a request reserves an amount before it runs, logs what it
  used, and settles. The bound holds for tokens and for cost alike.
*/
module Quota {
  import opened Wrappers

  datatype Measure = Tokens | Cost

  datatype ReservationStatus = Active | Settled | Expired

  datatype Reservation = Reservation(
    id: string,
    user: string,
    organization: string,
    membership: Option<string>,
    request: string,
    tokens: nat,
    cost: real,
    status: ReservationStatus,
    expiresAt: int)

  datatype UsageRow = UsageRow(user: string, tokens: nat, cost: real, at: int)

  /** A limit of zero does not limit. */
  datatype Limits = Limits(tokens: nat, cost: real, enabled: bool)

  datatype Settings = Settings(tokens: nat, cost: real, ttl: int)

  datatype Ledger = Ledger(reservations: seq<Reservation>, usage: seq<UsageRow>)

  datatype QuotaError = TokenQuotaExceeded | CostQuotaExceeded | RequestTaken

  function Weight(m: Measure, tokens: nat, cost: real): real {
    match m
    case Tokens => tokens as real
    case Cost => cost
  }

  function Limit(m: Measure, limits: Limits): real {
    Weight(m, limits.tokens, limits.cost)
  }

  /** What a user has used since a point in time. */
  function Used(usage: seq<UsageRow>, user: string, since: int, m: Measure): real {
    if usage == [] then 0.0
    else (if usage[0].user == user && usage[0].at >= since then Weight(m, usage[0].tokens, usage[0].cost) else 0.0)
         + Used(usage[1..], user, since, m)
  }

  /** What a user's active reservations hold. */
  function Held(reservations: seq<Reservation>, user: string, m: Measure): real {
    if reservations == [] then 0.0
    else
      (var r := reservations[0];
       if r.user == user && r.status == Active then Weight(m, r.tokens, r.cost) else 0.0)
      + Held(reservations[1..], user, m)
  }

  function Lapse(r: Reservation, now: int): Reservation {
    if r.status == Active && r.expiresAt <= now then r.(status := Expired) else r
  }

  /** `UPDATE ... SET status = 'expired' WHERE status = 'active' AND expires_at <= now`, for all users. */
  function ExpireOld(reservations: seq<Reservation>, now: int): seq<Reservation> {
    seq(|reservations|, i requires 0 <= i < |reservations| => Lapse(reservations[i], now))
  }

  predicate SameRequest(r: Reservation, organization: string, request: string) {
    r.organization == organization && r.request == request
  }

  /** The reservation that holds the request id, if there is one. */
  function Find(reservations: seq<Reservation>, organization: string, request: string): Option<Reservation> {
    if reservations == [] then None
    else if SameRequest(reservations[0], organization, request) then Some(reservations[0])
    else Find(reservations[1..], organization, request)
  }

  function NewReservation(s: Settings, id: string, user: string, organization: string, membership: Option<string>,
                          request: string, now: int): Reservation
  {
    Reservation(id, user, organization, membership, organization + "|" + request, s.tokens, s.cost, Active, now + s.ttl)
  }

  predicate Exceeds(m: Measure, limits: Limits, s: Settings, reservations: seq<Reservation>, usage: seq<UsageRow>,
                    user: string, since: int)
  {
    Limit(m, limits) != 0.0
    && Used(usage, user, since, m) + Held(reservations, user, m) + Weight(m, s.tokens, s.cost) > Limit(m, limits)
  }

  /** The new ledger and what the caller gets. A refusal rolls back the expiry of old reservations too. */
  function Reserve(ledger: Ledger, limits: Option<Limits>, s: Settings, monthStart: int -> int, id: string,
                   user: string, organization: string, membership: Option<string>, request: string, now: int)
    : (Ledger, Result<Option<string>, QuotaError>)
  {
    var live := ExpireOld(ledger.reservations, now);
    if limits.None? || !limits.value.enabled then (ledger.(reservations := live), Ok(None))
    else if Exceeds(Tokens, limits.value, s, live, ledger.usage, user, monthStart(now))
      then (ledger, Err(TokenQuotaExceeded))
    else if Exceeds(Cost, limits.value, s, live, ledger.usage, user, monthStart(now))
      then (ledger, Err(CostQuotaExceeded))
    else
      match Find(live, organization, organization + "|" + request)
      case Some(r) =>
        if r.user == user && r.membership == membership then (ledger, Ok(Some(r.id))) else (ledger, Err(RequestTaken))
      case None =>
        (ledger.(reservations := live + [NewReservation(s, id, user, organization, membership, request, now)]),
         Ok(Some(id)))
  }

  /** With an organization context only a reservation made in that context is settled. */
  predicate Settles(r: Reservation, id: string, context: Option<(string, string)>) {
    r.id == id && r.status == Active
    && (context.Some? ==> r.organization == context.value.0 && r.membership == Some(context.value.1))
  }

  function Settle(ledger: Ledger, id: string, context: Option<(string, string)>): Ledger {
    var rs := ledger.reservations;
    ledger.(reservations := seq(|rs|, i requires 0 <= i < |rs| =>
      if Settles(rs[i], id, context) then rs[i].(status := Settled) else rs[i]))
  }

  // Runs

  /** The quota stays as it is over the run; `watched` is the user and `measure` the amount the history follows. */
  datatype Config = Config(limits: Limits, settings: Settings, monthStart: int -> int, watched: string,
                           measure: Measure)

  /** Months only move forward, and no month starts in the future. */
  ghost predicate Calendar(monthStart: int -> int) {
    && (forall t :: monthStart(t) <= t)
    && (forall t, u :: t <= u ==> monthStart(t) <= monthStart(u))
  }

  /**
    The history: how much the watched user has logged within each reservation, and `excess`, what
    it logged outside any: without an active unexpired reservation, or beyond its amount.
  */
  datatype State = State(ledger: Ledger, now: int, charged: map<string, real>, excess: real)

  datatype Label =
    | MakeReservation(id: string, user: string, organization: string, membership: Option<string>, request: string)
    | Log(user: string, reservation: string, tokens: nat, cost: real)
    | SettleReservation(id: string, context: Option<(string, string)>)
    | Wait(until: int)

  function Charged(charged: map<string, real>, id: string): real {
    if id in charged then charged[id] else 0.0
  }

  function Lookup(reservations: seq<Reservation>, id: string): Option<Reservation> {
    if reservations == [] then None
    else if reservations[0].id == id then Some(reservations[0])
    else Lookup(reservations[1..], id)
  }

  /** The logged amount falls within what the user's active reservation still holds. */
  predicate Covered(s: State, user: string, id: string, amount: real, m: Measure) {
    var r := Lookup(s.ledger.reservations, id);
    r.Some? && r.value.user == user && r.value.status == Active && s.now < r.value.expiresAt
    && Charged(s.charged, id) + amount <= Weight(m, r.value.tokens, r.value.cost)
  }

  function Step(c: Config, s: State, l: Label): State {
    match l
    case MakeReservation(id, user, organization, membership, request) =>
      s.(ledger := Reserve(s.ledger, Some(c.limits), c.settings, c.monthStart, id, user, organization, membership,
                           request, s.now).0)
    case Log(user, id, tokens, cost) =>
      var amount := Weight(c.measure, tokens, cost);
      var ledger := s.ledger.(usage := s.ledger.usage + [UsageRow(user, tokens, cost, s.now)]);
      if user != c.watched then s.(ledger := ledger)
      else if Covered(s, user, id, amount, c.measure) then
        s.(ledger := ledger, charged := s.charged[id := Charged(s.charged, id) + amount])
      else s.(ledger := ledger, excess := s.excess + amount)
    case SettleReservation(id, context) => s.(ledger := Settle(s.ledger, id, context))
    case Wait(until) => s.(now := until)
  }

  /** New ids are fresh, amounts are not negative, and time does not run backwards. */
  predicate Admissible(s: State, l: Label) {
    match l
    case MakeReservation(id, _, _, _, _) => id !in s.charged && forall r :: r in s.ledger.reservations ==> r.id != id
    case Log(_, _, _, cost) => cost >= 0.0
    case SettleReservation(_, _) => true
    case Wait(until) => until >= s.now
  }

  function Run(c: Config, s: State, labels: seq<Label>): State
    decreases |labels|
  {
    if labels == [] then s else Run(c, Step(c, s, labels[0]), labels[1..])
  }

  predicate AdmissibleRun(c: Config, s: State, labels: seq<Label>)
    decreases |labels|
  {
    labels != [] ==> Admissible(s, labels[0]) && AdmissibleRun(c, Step(c, s, labels[0]), labels[1..])
  }

  // The invariant

  /** What the watched user's active reservations still allow to be logged. */
  function Open(reservations: seq<Reservation>, charged: map<string, real>, user: string, m: Measure): real {
    if reservations == [] then 0.0
    else
      (var r := reservations[0];
       if r.user == user && r.status == Active then Weight(m, r.tokens, r.cost) - Charged(charged, r.id) else 0.0)
      + Open(reservations[1..], charged, user, m)
  }

  predicate UniqueIds(reservations: seq<Reservation>) {
    forall i, j :: 0 <= i < j < |reservations| ==> reservations[i].id != reservations[j].id
  }

  predicate Inv(c: Config, s: State) {
    && UniqueIds(s.ledger.reservations)
    && (forall r :: r in s.ledger.reservations ==>
          0.0 <= Charged(s.charged, r.id) <= Weight(c.measure, r.tokens, r.cost))
    && s.excess >= 0.0
    && (forall u :: u in s.ledger.usage ==> u.cost >= 0.0)
    && (Limit(c.measure, c.limits) != 0.0 ==>
          Used(s.ledger.usage, c.watched, c.monthStart(s.now), c.measure)
          + Open(s.ledger.reservations, s.charged, c.watched, c.measure)
          <= Limit(c.measure, c.limits) + s.excess)
  }

  // Sums

  lemma {:induction false} UsedSnoc(usage: seq<UsageRow>, row: UsageRow, user: string, since: int, m: Measure)
    ensures Used(usage + [row], user, since, m)
            == Used(usage, user, since, m)
               + if row.user == user && row.at >= since then Weight(m, row.tokens, row.cost) else 0.0
    decreases |usage|
  {
    if usage != [] {
      assert (usage + [row])[1..] == usage[1..] + [row];
      UsedSnoc(usage[1..], row, user, since, m);
    }
  }

  lemma {:induction false} UsedShrinks(usage: seq<UsageRow>, user: string, since: int, later: int, m: Measure)
    requires since <= later && forall u :: u in usage ==> u.cost >= 0.0
    ensures Used(usage, user, later, m) <= Used(usage, user, since, m)
  {
    if usage != [] {
      assert usage[0] in usage;
      UsedShrinks(usage[1..], user, since, later, m);
    }
  }

  lemma {:induction false} OpenSnoc(rs: seq<Reservation>, r: Reservation, charged: map<string, real>, user: string,
                                    m: Measure)
    ensures Open(rs + [r], charged, user, m)
            == Open(rs, charged, user, m)
               + if r.user == user && r.status == Active then Weight(m, r.tokens, r.cost) - Charged(charged, r.id)
                 else 0.0
    decreases |rs|
  {
    if rs != [] {
      assert (rs + [r])[1..] == rs[1..] + [r];
      OpenSnoc(rs[1..], r, charged, user, m);
    }
  }

  /** Some active reservations end; none begins. */
  predicate Ends(before: seq<Reservation>, after: seq<Reservation>) {
    |after| == |before| && forall i :: 0 <= i < |before| ==>
      after[i] == before[i] || (before[i].status == Active && after[i] == before[i].(status := after[i].status)
                                && after[i].status != Active)
  }

  predicate WithinAmounts(rs: seq<Reservation>, charged: map<string, real>, m: Measure) {
    forall r :: r in rs ==> 0.0 <= Charged(charged, r.id) <= Weight(m, r.tokens, r.cost)
  }

  lemma {:induction false} OpenShrinks(before: seq<Reservation>, after: seq<Reservation>, charged: map<string, real>,
                                       user: string, m: Measure)
    requires Ends(before, after) && WithinAmounts(before, charged, m)
    ensures Open(after, charged, user, m) <= Open(before, charged, user, m)
    decreases |before|
  {
    if before != [] {
      assert before[0] in before;
      assert Ends(before[1..], after[1..]);
      OpenShrinks(before[1..], after[1..], charged, user, m);
    }
  }

  /** Logged amounts only make what is open smaller than what is held. */
  lemma {:induction false} OpenWithinHeld(rs: seq<Reservation>, charged: map<string, real>, user: string, m: Measure)
    requires WithinAmounts(rs, charged, m)
    ensures Open(rs, charged, user, m) <= Held(rs, user, m)
  {
    if rs != [] {
      assert rs[0] in rs;
      OpenWithinHeld(rs[1..], charged, user, m);
    }
  }

  lemma {:induction false} OpenIgnoresOthers(rs: seq<Reservation>, charged: map<string, real>, id: string, value: real,
                                             user: string, m: Measure)
    requires forall r :: r in rs ==> r.id != id
    ensures Open(rs, charged[id := value], user, m) == Open(rs, charged, user, m)
  {
    if rs != [] {
      assert rs[0] in rs;
      OpenIgnoresOthers(rs[1..], charged, id, value, user, m);
    }
  }

  /** A covered log takes from its own reservation what it adds to the usage. */
  lemma {:induction false} OpenAfterCharge(rs: seq<Reservation>, charged: map<string, real>, id: string, amount: real,
                                           user: string, m: Measure)
    requires UniqueIds(rs) && Lookup(rs, id).Some?
    requires Lookup(rs, id).value.user == user && Lookup(rs, id).value.status == Active
    ensures Open(rs, charged[id := Charged(charged, id) + amount], user, m) == Open(rs, charged, user, m) - amount
  {
    if rs[0].id == id {
      assert forall r :: r in rs[1..] ==> r.id != id;
      OpenIgnoresOthers(rs[1..], charged, id, Charged(charged, id) + amount, user, m);
    } else {
      OpenAfterCharge(rs[1..], charged, id, amount, user, m);
    }
  }

  lemma {:induction false} LookupIsIn(rs: seq<Reservation>, id: string)
    ensures Lookup(rs, id).Some? ==> Lookup(rs, id).value in rs && Lookup(rs, id).value.id == id
  {
    if rs != [] {
      LookupIsIn(rs[1..], id);
    }
  }

  // Steps

  lemma {:induction false} EndingKeepsInv(c: Config, s: State, after: seq<Reservation>)
    requires Inv(c, s) && Ends(s.ledger.reservations, after)
    ensures Inv(c, s.(ledger := s.ledger.(reservations := after)))
  {
    var before := s.ledger.reservations;
    OpenShrinks(before, after, s.charged, c.watched, c.measure);
    forall r | r in after ensures exists b :: b in before && b.id == r.id && b.tokens == r.tokens && b.cost == r.cost {
      var i :| 0 <= i < |after| && after[i] == r;
      assert before[i] in before && before[i].id == r.id;
    }
  }

  /**
    Main result for one reservation: when it is made, the month's usage and all active
    reservations of the user together, the new one included, are within the limit.
  */
  lemma {:induction false} NewReservationFits(ledger: Ledger, limits: Limits, s: Settings, monthStart: int -> int,
                                              id: string, user: string, organization: string,
                                              membership: Option<string>, request: string, now: int, m: Measure)
    requires limits.enabled && Limit(m, limits) != 0.0
    requires Reserve(ledger, Some(limits), s, monthStart, id, user, organization, membership, request, now).0 != ledger
    ensures var ledger' := Reserve(ledger, Some(limits), s, monthStart, id, user, organization, membership, request,
                                   now).0;
            && Used(ledger'.usage, user, monthStart(now), m) + Held(ledger'.reservations, user, m) <= Limit(m, limits)
            && (forall r :: r in ledger'.reservations && r.status == Active ==> r.expiresAt > now || r.id == id)
  {
    var live := ExpireOld(ledger.reservations, now);
    HeldSnoc(live, NewReservation(s, id, user, organization, membership, request, now), user, m);
  }

  lemma {:induction false} HeldSnoc(rs: seq<Reservation>, r: Reservation, user: string, m: Measure)
    ensures Held(rs + [r], user, m)
            == Held(rs, user, m) + if r.user == user && r.status == Active then Weight(m, r.tokens, r.cost) else 0.0
    decreases |rs|
  {
    if rs != [] {
      assert (rs + [r])[1..] == rs[1..] + [r];
      HeldSnoc(rs[1..], r, user, m);
    }
  }

  lemma {:induction false} ReserveKeepsInv(c: Config, s: State, l: Label)
    requires c.limits.enabled && c.settings.cost >= 0.0
    requires Inv(c, s) && Admissible(s, l) && l.MakeReservation?
    ensures Inv(c, Step(c, s, l))
  {
    var live := ExpireOld(s.ledger.reservations, s.now);
    var s' := Step(c, s, l);
    if s'.ledger != s.ledger {
      EndingKeepsInv(c, s, live);
      var r := NewReservation(c.settings, l.id, l.user, l.organization, l.membership, l.request, s.now);
      assert s'.ledger.reservations == live + [r];
      OpenSnoc(live, r, s.charged, c.watched, c.measure);
      if r.user == c.watched && Limit(c.measure, c.limits) != 0.0 {
        OpenWithinHeld(live, s.charged, c.watched, c.measure);
        assert !Exceeds(c.measure, c.limits, c.settings, live, s.ledger.usage, l.user, c.monthStart(s.now));
      }
    }
  }

  lemma {:induction false} CoveredLogKeepsInv(c: Config, s: State, l: Label)
    requires Calendar(c.monthStart) && Inv(c, s) && Admissible(s, l) && l.Log? && l.user == c.watched
    requires Covered(s, l.user, l.reservation, Weight(c.measure, l.tokens, l.cost), c.measure)
    ensures Inv(c, Step(c, s, l))
  {
    var amount := Weight(c.measure, l.tokens, l.cost);
    UsedSnoc(s.ledger.usage, UsageRow(l.user, l.tokens, l.cost, s.now), c.watched, c.monthStart(s.now), c.measure);
    OpenAfterCharge(s.ledger.reservations, s.charged, l.reservation, amount, c.watched, c.measure);
    LookupIsIn(s.ledger.reservations, l.reservation);
  }

  lemma {:induction false} LogKeepsInv(c: Config, s: State, l: Label)
    requires Calendar(c.monthStart) && Inv(c, s) && Admissible(s, l) && l.Log?
    ensures Inv(c, Step(c, s, l))
  {
    if l.user == c.watched && Covered(s, l.user, l.reservation, Weight(c.measure, l.tokens, l.cost), c.measure) {
      CoveredLogKeepsInv(c, s, l);
    } else {
      UsedSnoc(s.ledger.usage, UsageRow(l.user, l.tokens, l.cost, s.now), c.watched, c.monthStart(s.now), c.measure);
    }
  }

  lemma {:induction false} SettleKeepsInv(c: Config, s: State, id: string, context: Option<(string, string)>)
    requires Inv(c, s)
    ensures Inv(c, Step(c, s, SettleReservation(id, context)))
  {
    EndingKeepsInv(c, s, Settle(s.ledger, id, context).reservations);
  }

  lemma {:induction false} StepKeepsInv(c: Config, s: State, l: Label)
    requires c.limits.enabled && c.settings.cost >= 0.0 && Calendar(c.monthStart) && Inv(c, s) && Admissible(s, l)
    ensures Inv(c, Step(c, s, l))
  {
    match l
    case MakeReservation(_, _, _, _, _) => ReserveKeepsInv(c, s, l);
    case Log(_, _, _, _) => LogKeepsInv(c, s, l);
    case SettleReservation(id, context) => SettleKeepsInv(c, s, id, context);
    case Wait(until) =>
      UsedShrinks(s.ledger.usage, c.watched, c.monthStart(s.now), c.monthStart(until), c.measure);
  }

  lemma {:induction false} RunKeepsInv(c: Config, s: State, labels: seq<Label>)
    requires c.limits.enabled && c.settings.cost >= 0.0 && Calendar(c.monthStart)
    requires Inv(c, s) && AdmissibleRun(c, s, labels)
    ensures Inv(c, Run(c, s, labels))
    decreases |labels|
  {
    if labels != [] {
      StepKeepsInv(c, s, labels[0]);
      RunKeepsInv(c, Step(c, s, labels[0]), labels[1..]);
    }
  }

  function Initial(start: int): State {
    State(Ledger([], []), start, map[], 0.0)
  }

  /**
    Main result. Over every run of reservations, logs, settlements and waiting, month ends included,
    a user's usage in the present month exceeds an unchanged limit by at most what the user logged
    outside its reservations. If every log stays within an active reservation, it never exceeds it.
  */
  lemma {:induction false} MonthUsageWithinLimit(c: Config, start: int, labels: seq<Label>)
    requires c.limits.enabled && c.settings.cost >= 0.0 && Calendar(c.monthStart)
    requires Limit(c.measure, c.limits) > 0.0 && AdmissibleRun(c, Initial(start), labels)
    ensures var s := Run(c, Initial(start), labels);
            Used(s.ledger.usage, c.watched, c.monthStart(s.now), c.measure) <= Limit(c.measure, c.limits) + s.excess
  {
    RunKeepsInv(c, Initial(start), labels);
    var s := Run(c, Initial(start), labels);
    OpenIsNotNegative(s.ledger.reservations, s.charged, c.watched, c.measure);
  }

  lemma {:induction false} OpenIsNotNegative(rs: seq<Reservation>, charged: map<string, real>, user: string, m: Measure)
    requires WithinAmounts(rs, charged, m)
    ensures Open(rs, charged, user, m) >= 0.0
  {
    if rs != [] {
      assert rs[0] in rs;
      OpenIsNotNegative(rs[1..], charged, user, m);
    }
  }

  /** Every log of the watched user is within an active reservation of its own. */
  predicate AllCovered(c: Config, s: State, labels: seq<Label>)
    decreases |labels|
  {
    labels != [] ==>
      && (labels[0].Log? && labels[0].user == c.watched ==>
            Covered(s, c.watched, labels[0].reservation, Weight(c.measure, labels[0].tokens, labels[0].cost),
                    c.measure))
      && AllCovered(c, Step(c, s, labels[0]), labels[1..])
  }

  lemma {:induction false} CoveredRunsHaveNoExcess(c: Config, s: State, labels: seq<Label>)
    requires AllCovered(c, s, labels)
    ensures Run(c, s, labels).excess == s.excess
    decreases |labels|
  {
    if labels != [] {
      CoveredRunsHaveNoExcess(c, Step(c, s, labels[0]), labels[1..]);
    }
  }

  lemma {:induction false} CoveredUsageNeverExceeds(c: Config, start: int, labels: seq<Label>)
    requires c.limits.enabled && c.settings.cost >= 0.0 && Calendar(c.monthStart)
    requires Limit(c.measure, c.limits) > 0.0 && AdmissibleRun(c, Initial(start), labels)
    requires AllCovered(c, Initial(start), labels)
    ensures var s := Run(c, Initial(start), labels);
            Used(s.ledger.usage, c.watched, c.monthStart(s.now), c.measure) <= Limit(c.measure, c.limits)
  {
    MonthUsageWithinLimit(c, start, labels);
    CoveredRunsHaveNoExcess(c, Initial(start), labels);
  }

  // What a reservation is answered, in terms of the rows as they are before it

  function TokensUsed(usage: seq<UsageRow>, user: string, since: int): nat {
    if usage == [] then 0
    else (if usage[0].user == user && usage[0].at >= since then usage[0].tokens else 0)
         + TokensUsed(usage[1..], user, since)
  }

  function CostUsed(usage: seq<UsageRow>, user: string, since: int): real {
    if usage == [] then 0.0
    else (if usage[0].user == user && usage[0].at >= since then usage[0].cost else 0.0)
         + CostUsed(usage[1..], user, since)
  }

  /** A reservation that still holds its amount: active, and its time is not over. */
  predicate IsLive(r: Reservation, now: int) {
    r.status == Active && now < r.expiresAt
  }

  function TokensHeld(reservations: seq<Reservation>, user: string, now: int): nat {
    if reservations == [] then 0
    else (if reservations[0].user == user && IsLive(reservations[0], now) then reservations[0].tokens else 0)
         + TokensHeld(reservations[1..], user, now)
  }

  function CostHeld(reservations: seq<Reservation>, user: string, now: int): real {
    if reservations == [] then 0.0
    else (if reservations[0].user == user && IsLive(reservations[0], now) then reservations[0].cost else 0.0)
         + CostHeld(reservations[1..], user, now)
  }

  lemma {:induction false} UsedIs(usage: seq<UsageRow>, user: string, since: int)
    ensures Used(usage, user, since, Tokens) == TokensUsed(usage, user, since) as real
    ensures Used(usage, user, since, Cost) == CostUsed(usage, user, since)
  {
    if usage != [] {
      UsedIs(usage[1..], user, since);
    }
  }

  lemma {:induction false} HeldIs(reservations: seq<Reservation>, user: string, now: int)
    ensures Held(ExpireOld(reservations, now), user, Tokens) == TokensHeld(reservations, user, now) as real
    ensures Held(ExpireOld(reservations, now), user, Cost) == CostHeld(reservations, user, now)
  {
    if reservations != [] {
      assert ExpireOld(reservations, now)[1..] == ExpireOld(reservations[1..], now);
      HeldIs(reservations[1..], user, now);
    }
  }

  /** What the user has used this month, what it still holds, and one reservation more are above the limit. */
  predicate OverTokens(ledger: Ledger, limits: Limits, s: Settings, user: string, since: int, now: int) {
    limits.tokens > 0
    && TokensUsed(ledger.usage, user, since) + TokensHeld(ledger.reservations, user, now) + s.tokens > limits.tokens
  }

  predicate OverCost(ledger: Ledger, limits: Limits, s: Settings, user: string, since: int, now: int) {
    limits.cost != 0.0
    && CostUsed(ledger.usage, user, since) + CostHeld(ledger.reservations, user, now) + s.cost > limits.cost
  }

  lemma {:induction false} ExceedsIs(ledger: Ledger, limits: Limits, s: Settings, user: string, since: int, now: int)
    ensures Exceeds(Tokens, limits, s, ExpireOld(ledger.reservations, now), ledger.usage, user, since)
            <==> OverTokens(ledger, limits, s, user, since, now)
    ensures Exceeds(Cost, limits, s, ExpireOld(ledger.reservations, now), ledger.usage, user, since)
            <==> OverCost(ledger, limits, s, user, since, now)
  {
    UsedIs(ledger.usage, user, since);
    HeldIs(ledger.reservations, user, now);
  }

  /** The request id as it is stored: within its organization. */
  predicate Holds(r: Reservation, organization: string, request: string) {
    r.organization == organization && r.request == organization + "|" + request
  }

  predicate UniqueRequests(reservations: seq<Reservation>) {
    forall i, j :: 0 <= i < j < |reservations| ==>
      !(reservations[i].organization == reservations[j].organization
        && reservations[i].request == reservations[j].request)
  }

  lemma {:induction false} FindIs(reservations: seq<Reservation>, organization: string, request: string)
    ensures Find(reservations, organization, organization + "|" + request).None?
            <==> forall r :: r in reservations ==> !Holds(r, organization, request)
  {
    if reservations != [] {
      var first, rest := reservations[0], reservations[1..];
      FindIs(rest, organization, request);
      assert SameRequest(first, organization, organization + "|" + request) <==> Holds(first, organization, request);
      assert first in reservations && forall r :: r in rest ==> r in reservations;
      assert forall r :: r in reservations ==> r == first || r in rest;
    }
  }

  lemma {:induction false} FindsTheHolder(reservations: seq<Reservation>, organization: string, request: string, i: nat)
    requires UniqueRequests(reservations) && i < |reservations| && Holds(reservations[i], organization, request)
    ensures Find(reservations, organization, organization + "|" + request) == Some(reservations[i])
  {
    var scoped := organization + "|" + request;
    if i > 0 {
      var first, holder := reservations[0], reservations[i];
      assert first.organization != holder.organization || first.request != holder.request;
      assert !SameRequest(first, organization, scoped);
      FindsTheHolder(reservations[1..], organization, request, i - 1);
      assert reservations[1..][i - 1] == holder;
    } else {
      assert SameRequest(reservations[0], organization, scoped);
    }
  }

  predicate Limited(limits: Option<Limits>) {
    limits.Some? && limits.value.enabled
  }

  /** Nothing is refused to a user without an enabled quota, and nothing is reserved. */
  lemma {:induction false} UnlimitedAnswer(ledger: Ledger, limits: Option<Limits>, s: Settings, monthStart: int -> int,
                                           id: string, user: string, organization: string, membership: Option<string>,
                                           request: string, now: int)
    ensures Reserve(ledger, limits, s, monthStart, id, user, organization, membership, request, now).1 == Ok(None)
            <==> !Limited(limits)
  {
  }

  /**
    Main result on refusals: a reservation is refused for tokens if and only if the month's usage, the
    user's live reservations and the new amount together exceed the limit, and for cost likewise.
  */
  lemma {:induction false} RefusedIff(ledger: Ledger, limits: Limits, s: Settings, monthStart: int -> int, id: string,
                                      user: string, organization: string, membership: Option<string>, request: string,
                                      now: int)
    requires limits.enabled
    ensures var answer := Reserve(ledger, Some(limits), s, monthStart, id, user, organization, membership, request,
                                  now).1;
            && (answer == Err(TokenQuotaExceeded) <==> OverTokens(ledger, limits, s, user, monthStart(now), now))
            && (answer == Err(CostQuotaExceeded)
                <==> !OverTokens(ledger, limits, s, user, monthStart(now), now)
                     && OverCost(ledger, limits, s, user, monthStart(now), now))
  {
    ExceedsIs(ledger, limits, s, user, monthStart(now), now);
  }

  /** Within the limits a new request id is reserved, and a known one gives its owner the earlier reservation. */
  lemma {:induction false} ReservedIff(ledger: Ledger, limits: Limits, s: Settings, monthStart: int -> int, id: string,
                                       user: string, organization: string, membership: Option<string>, request: string,
                                       now: int)
    requires limits.enabled && UniqueRequests(ledger.reservations)
    requires !OverTokens(ledger, limits, s, user, monthStart(now), now)
    requires !OverCost(ledger, limits, s, user, monthStart(now), now)
    ensures var answer := Reserve(ledger, Some(limits), s, monthStart, id, user, organization, membership, request,
                                  now).1;
            && ((forall r :: r in ledger.reservations ==> !Holds(r, organization, request)) ==> answer == Ok(Some(id)))
            && forall r :: r in ledger.reservations && Holds(r, organization, request) ==>
                 answer == if r.user == user && r.membership == membership then Ok(Some(r.id)) else Err(RequestTaken)
  {
    ExceedsIs(ledger, limits, s, user, monthStart(now), now);
    FindIs(ledger.reservations, organization, request);
    FindAfterExpiry(ledger.reservations, organization, organization + "|" + request, now);
    forall r | r in ledger.reservations && Holds(r, organization, request)
      ensures Find(ledger.reservations, organization, organization + "|" + request) == Some(r)
    {
      var i :| 0 <= i < |ledger.reservations| && ledger.reservations[i] == r;
      FindsTheHolder(ledger.reservations, organization, request, i);
    }
  }

  /** What becomes of a row: an active one whose time is over expires, and every other stays as it is. */
  predicate AgedTo(before: Reservation, after: Reservation, now: int) {
    if before.status == Active && before.expiresAt <= now then
      after == Reservation(before.id, before.user, before.organization, before.membership, before.request,
                           before.tokens, before.cost, Expired, before.expiresAt)
    else after == before
  }

  predicate Aged(before: seq<Reservation>, after: seq<Reservation>, now: int) {
    |after| == |before| && forall i :: 0 <= i < |before| ==> AgedTo(before[i], after[i], now)
  }

  /**
    The rows after a call: a refusal, a clash and a repeated request leave them as they were; else the
    reservations whose time is over have expired, and a new one is the last. A live one is never touched.
  */
  lemma {:induction false} ReservedRows(ledger: Ledger, limits: Option<Limits>, s: Settings, monthStart: int -> int,
                                        id: string, user: string, organization: string, membership: Option<string>,
                                        request: string, now: int)
    ensures var (after, answer)
            := Reserve(ledger, limits, s, monthStart, id, user, organization, membership, request, now);
            var n := |ledger.reservations|;
            && after.usage == ledger.usage
            && (answer.Err? ==> after == ledger)
            && (answer == Ok(None) ==> Aged(ledger.reservations, after.reservations, now))
            && (answer.Ok? && answer.value.Some? && after != ledger ==>
                  && answer == Ok(Some(id)) && |after.reservations| == n + 1
                  && Aged(ledger.reservations, after.reservations[..n], now)
                  && after.reservations[n] == Reservation(id, user, organization, membership,
                                                          organization + "|" + request, s.tokens, s.cost, Active,
                                                          now + s.ttl))
  {
    var live := ExpireOld(ledger.reservations, now);
    assert Aged(ledger.reservations, live, now);
    assert forall r: Reservation :: (live + [r])[..|live|] == live;
  }

  /** A new request within the limits does add its row. */
  lemma {:induction false} ReservationIsAdded(ledger: Ledger, limits: Limits, s: Settings, monthStart: int -> int,
                                              id: string, user: string, organization: string,
                                              membership: Option<string>, request: string, now: int)
    requires limits.enabled && !OverTokens(ledger, limits, s, user, monthStart(now), now)
    requires !OverCost(ledger, limits, s, user, monthStart(now), now)
    requires forall r :: r in ledger.reservations ==> !Holds(r, organization, request)
    ensures |Reserve(ledger, Some(limits), s, monthStart, id, user, organization, membership, request,
                     now).0.reservations|
            == |ledger.reservations| + 1
  {
    ExceedsIs(ledger, limits, s, user, monthStart(now), now);
    FindIs(ledger.reservations, organization, request);
    FindAfterExpiry(ledger.reservations, organization, organization + "|" + request, now);
  }

  /** Settling marks the active reservation with the id, in a context only one made in it, and no other row. */
  lemma {:induction false} SettledRows(ledger: Ledger, id: string, context: Option<(string, string)>)
    ensures var before, after := ledger.reservations, Settle(ledger, id, context).reservations;
            && Settle(ledger, id, context).usage == ledger.usage && |after| == |before|
            && forall i :: 0 <= i < |before| ==>
                 var r := before[i];
                 var own := context == None || (r.organization == context.value.0
                                                && r.membership == Some(context.value.1));
                 after[i] == if r.id == id && r.status == Active && own then
                               Reservation(r.id, r.user, r.organization, r.membership, r.request, r.tokens, r.cost,
                                           Settled, r.expiresAt)
                             else r
  {
  }

  lemma {:induction false} ReserveKeepsRequestsUnique(ledger: Ledger, limits: Option<Limits>, s: Settings,
                                                      monthStart: int -> int, id: string, user: string,
                                                      organization: string, membership: Option<string>, request: string,
                                                      now: int)
    requires UniqueRequests(ledger.reservations)
    ensures UniqueRequests(Reserve(ledger, limits, s, monthStart, id, user, organization, membership, request,
                                   now).0.reservations)
  {
    FindIs(ledger.reservations, organization, request);
    FindAfterExpiry(ledger.reservations, organization, organization + "|" + request, now);
    var rs, live := ledger.reservations, ExpireOld(ledger.reservations, now);
    forall i | 0 <= i < |rs| ensures live[i].organization == rs[i].organization && live[i].request == rs[i].request {
      assert AgedTo(rs[i], live[i], now);
    }
    assert forall i :: 0 <= i < |rs| ==> rs[i] in rs;
  }

  /**
    A run is made of the transactions below: each label has the effect of its call on the rows, and only
    waiting takes time.
  */
  lemma {:induction false} StepRows(c: Config, s: State, l: Label)
    ensures var s' := Step(c, s, l);
            match l
            case MakeReservation(id, user, organization, membership, request) =>
              s'.ledger == Reserve(s.ledger, Some(c.limits), c.settings, c.monthStart, id, user, organization,
                                   membership,
                                   request, s.now).0
              && s'.now == s.now && s'.charged == s.charged && s'.excess == s.excess
            case Log(user, _, tokens, cost) =>
              s'.ledger == Ledger(s.ledger.reservations, s.ledger.usage + [UsageRow(user, tokens, cost, s.now)])
              && s'.now == s.now
            case SettleReservation(id, context) =>
              s'.ledger == Settle(s.ledger, id, context)
              && s'.now == s.now && s'.charged == s.charged && s'.excess == s.excess
            case Wait(until) => s' == State(s.ledger, until, s.charged, s.excess)
  {
  }

  /** The reservation still holds the amount for the user. */
  predicate StillHolds(s: State, r: Reservation, user: string, amount: real, m: Measure) {
    r.user == user && IsLive(r, s.now) && Charged(s.charged, r.id) + amount <= Weight(m, r.tokens, r.cost)
  }

  /** What the watched user logs is charged to the named reservation if that still holds it, and is excess otherwise. */
  lemma {:induction false} StepAccounts(c: Config, s: State, id: string, tokens: nat, cost: real, i: nat)
    requires UniqueIds(s.ledger.reservations) && i < |s.ledger.reservations| && s.ledger.reservations[i].id == id
    ensures var s', r := Step(c, s, Log(c.watched, id, tokens, cost)), s.ledger.reservations[i];
            var amount := Weight(c.measure, tokens, cost);
            if StillHolds(s, r, c.watched, amount, c.measure) then
              s'.charged == s.charged[id := Charged(s.charged, id) + amount] && s'.excess == s.excess
            else s'.charged == s.charged && s'.excess == s.excess + amount
  {
    LookupFinds(s.ledger.reservations, i);
  }

  lemma {:induction false} LookupFinds(reservations: seq<Reservation>, i: nat)
    requires UniqueIds(reservations) && i < |reservations|
    ensures Lookup(reservations, reservations[i].id) == Some(reservations[i])
  {
    if i > 0 {
      LookupFinds(reservations[1..], i - 1);
    }
  }

  lemma {:induction false} StepKeepsRequestsUnique(c: Config, s: State, l: Label)
    requires UniqueRequests(s.ledger.reservations)
    ensures UniqueRequests(Step(c, s, l).ledger.reservations)
  {
    match l
    case MakeReservation(id, user, organization, membership, request) =>
      ReserveKeepsRequestsUnique(s.ledger, Some(c.limits), c.settings, c.monthStart, id, user, organization, membership,
                                 request, s.now);
    case _ =>
  }

  /** The index on organization and request id never refuses anything: over every run it holds by itself. */
  lemma {:induction false} RunKeepsRequestsUnique(c: Config, s: State, labels: seq<Label>)
    requires UniqueRequests(s.ledger.reservations)
    ensures UniqueRequests(Run(c, s, labels).ledger.reservations)
    decreases |labels|
  {
    if labels != [] {
      StepKeepsRequestsUnique(c, s, labels[0]);
      RunKeepsRequestsUnique(c, Step(c, s, labels[0]), labels[1..]);
    }
  }

  // The tables

  /** Expiry does not touch the columns a repeated request is compared on. */
  lemma {:induction false} FindAfterExpiry(reservations: seq<Reservation>, organization: string, request: string,
                                           now: int)
    ensures var was := Find(reservations, organization, request);
            Find(ExpireOld(reservations, now), organization, request)
            == if was.Some? then Some(Lapse(was.value, now)) else None
  {
    if reservations != [] {
      assert ExpireOld(reservations, now)[1..] == ExpireOld(reservations[1..], now);
      FindAfterExpiry(reservations[1..], organization, request, now);
    }
  }

  class QuotaTables {
    var reservations: seq<Reservation>
    var usage: seq<UsageRow>

    constructor ()
      ensures Value() == Ledger([], [])
    {
      reservations, usage := [], [];
    }

    function Value(): Ledger
      reads this
    {
      Ledger(reservations, usage)
    }

    /**
      `reserve_user_quota`: one transaction. A refusal and a clash on (organization, request) roll it
      back, the expiry included; after a clash the existing row is read from the old table.
    */
    method ReserveUserQuota(limits: Option<Limits>, s: Settings, monthStart: int -> int, id: string, user: string,
                            organization: string, membership: Option<string>, request: string, now: int)
      returns (reply: Result<Option<string>, QuotaError>)
      modifies this`reservations
      ensures (Value(), reply)
              == Reserve(old(Value()), limits, s, monthStart, id, user, organization, membership, request, now)
    {
      var begin := reservations;
      var scoped := organization + "|" + request;
      reservations := ExpireOld(reservations, now);
      if limits.None? || !limits.value.enabled {
        return Ok(None);
      }
      var since := monthStart(now);
      var tokens, cost := Used(usage, user, since, Tokens), Used(usage, user, since, Cost);
      var heldTokens, heldCost := Held(reservations, user, Tokens), Held(reservations, user, Cost);
      if limits.value.tokens != 0 && tokens + heldTokens + s.tokens as real > limits.value.tokens as real {
        reservations := begin;
        return Err(TokenQuotaExceeded);
      }
      if limits.value.cost != 0.0 && cost + heldCost + s.cost > limits.value.cost {
        reservations := begin;
        return Err(CostQuotaExceeded);
      }
      FindAfterExpiry(begin, organization, scoped, now);
      if Find(reservations, organization, scoped).Some? {
        reservations := begin;
        var existing := Find(reservations, organization, scoped).value;
        if existing.user == user && existing.membership == membership {
          return Ok(Some(existing.id));
        }
        return Err(RequestTaken);
      }
      reservations := reservations
        + [Reservation(id, user, organization, membership, scoped, s.tokens, s.cost, Active, now + s.ttl)];
      return Ok(Some(id));
    }

    /** `save_usage`: one row a call, and none where the provider reported no usage. */
    method SaveUsage(row: Option<UsageRow>)
      modifies this`usage
      ensures Value() == if row.Some? then old(Value()).(usage := old(Value()).usage + [row.value]) else old(Value())
    {
      if row.Some? {
        usage := usage + [row.value];
      }
    }

    /** `settle_quota_reservation`: nothing to do without an id. */
    method SettleQuotaReservation(id: Option<string>, context: Option<(string, string)>)
      modifies this`reservations
      ensures Value() == if id.Some? && id.value != "" then Settle(old(Value()), id.value, context) else old(Value())
    {
      if id.None? || id.value == "" {
        return;
      }
      var i := 0;
      ghost var was := reservations;
      while i < |reservations|
        invariant 0 <= i <= |reservations| == |was|
        invariant forall k :: 0 <= k < i ==>
                                reservations[k] == if Settles(was[k], id.value, context) then was[k].(status := Settled)
                                  else was[k]
        invariant reservations[i..] == was[i..]
      {
        assert reservations[i] == was[i];
        if Settles(reservations[i], id.value, context) {
          reservations := reservations[i := reservations[i].(status := Settled)];
        }
        i := i + 1;
      }
    }
  }
}
