/**
  Sliding-window trimming of a conversation. The latest user message anchors the window; one
  backward pass collects what follows it, a second one what precedes it.
*/
module TrimMessages {
  import opened Wrappers

  datatype Role = System | User | Assistant | Tool

  datatype ToolCall = ToolCall(id: string, name: string, arguments: string)

  datatype Message = Message(
    role: Role,
    content: Option<string>,
    toolCalls: Option<seq<ToolCall>>,
    toolCallId: Option<string>,
    name: Option<string>)

  datatype Settings = Settings(budget: nat, maxToolChars: nat)

  const MARK := "[truncated]"
  const ELLIPSIS := "\U{2026}"
  const SEPARATOR := "\U{FF1B}"
  const QUERY_CHARS := 100
  const MAX_QUERIES := 10

  /** `est` is the tokenizer, or the fallback where there is none. */
  function Estimate(est: string -> nat, text: string): nat {
    if text == "" then 0 else est(text)
  }

  function Fallback(text: string): nat {
    if |text| / 2 > 1 then |text| / 2 else 1
  }

  function Text(m: Message): string {
    if m.content.Some? then m.content.value else ""
  }

  function Tokens(est: string -> nat, m: Message): nat {
    Estimate(est, Text(m))
  }

  function Take(text: string, n: nat): string {
    if |text| <= n then text else text[..n]
  }

  /** A tool result within the budget: long ones are shortened. */
  function Shorten(s: Settings, m: Message): Message {
    var content := if |Text(m)| > s.maxToolChars then Some(Take(Text(m), s.maxToolChars) + MARK) else m.content;
    Message(Tool, content, None, m.toolCallId, m.name)
  }

  /** A tool result over the budget: it is marked in any case. */
  function Cut(s: Settings, m: Message): Message {
    Message(Tool, Some(Take(Text(m), s.maxToolChars) + MARK), None, m.toolCallId, m.name)
  }

  function CutCost(est: string -> nat, s: Settings, m: Message): nat {
    Estimate(est, Take(Text(m), s.maxToolChars))
  }

  // The backward pass

  /** A message of the output and the place it came from. */
  datatype Pick = Pick(at: nat, message: Message)

  function Messages(picks: seq<Pick>): seq<Message> {
    seq(|picks|, i requires 0 <= i < |picks| => picks[i].message)
  }

  /** One round of the loop: where it goes on, what it takes, and the new token count. */
  datatype Round = Halt | Go(next: int, picks: seq<Pick>, total: nat)

  function NextRound(est: string -> nat, s: Settings, ms: seq<Message>, lo: nat, i: int, total: nat): Round
    requires i < |ms|
  {
    if i < lo || total >= s.budget then Halt
    else
      var m := ms[i];
      var tokens := Tokens(est, m);
      if m.role == Tool then
        var over := tokens + total > s.budget;
        var pick := Pick(i, if over then Cut(s, m) else Shorten(s, m));
        var total' := total + if over then CutCost(est, s, m) else tokens;
        if i - 1 >= lo && ms[i - 1].role == Assistant then
          var more := Tokens(est, ms[i - 1]);
          if more + total' <= s.budget then Go(i - 2, [Pick(i - 1, ms[i - 1]), pick], total' + more)
          else Go(i - 2, [pick], total')
        else Go(i - 1, [pick], total')
      else if tokens + total > s.budget then Halt
      else Go(i - 1, [Pick(i, m)], total + tokens)
  }

  /** `stop` is the index the loop ends at: it and everything below, down to `lo`, was not looked at. */
  datatype Collected = Collected(stop: int, picks: seq<Pick>, total: nat)

  function Collect(est: string -> nat, s: Settings, ms: seq<Message>, lo: nat, i: int, total: nat): Collected
    requires lo - 1 <= i < |ms|
    decreases i + 1 - lo
  {
    match NextRound(est, s, ms, lo, i, total)
    case Halt => Collected(i, [], total)
    case Go(next, picks, total') =>
      var rest := Collect(est, s, ms, lo, next, total');
      Collected(rest.stop, rest.picks + picks, rest.total)
  }

  // The whole function

  function SystemOnly(ms: seq<Message>): seq<Message> {
    if ms == [] then [] else (if ms[0].role == System then [ms[0]] else []) + SystemOnly(ms[1..])
  }

  function WithoutSystem(ms: seq<Message>): seq<Message> {
    if ms == [] then [] else (if ms[0].role != System then [ms[0]] else []) + WithoutSystem(ms[1..])
  }

  function LatestUser(ms: seq<Message>): (r: Option<nat>)
    ensures r.Some? ==> r.value < |ms| && ms[r.value].role == User
                        && forall k :: r.value < k < |ms| ==> ms[k].role != User
    ensures r.None? ==> forall k :: 0 <= k < |ms| ==> ms[k].role != User
    decreases |ms|
  {
    if ms == [] then None
    else if ms[|ms| - 1].role == User then Some(|ms| - 1)
    else LatestUser(ms[..|ms| - 1])
  }

  function Query(m: Message): string {
    Take(Text(m), QUERY_CHARS)
  }

  /** The user messages among the first k, in order. */
  function Users(ms: seq<Message>, k: nat): seq<Message>
    requires k <= |ms|
  {
    if k == 0 then [] else Users(ms, k - 1) + if ms[k - 1].role == User then [ms[k - 1]] else []
  }

  function Queries(users: seq<Message>): seq<string> {
    seq(|users|, i requires 0 <= i < |users| => Query(users[i]))
  }

  function Reverse(qs: seq<string>): seq<string> {
    if qs == [] then [] else Reverse(qs[1..]) + [qs[0]]
  }

  function LastTen(qs: seq<string>): seq<string> {
    if |qs| > MAX_QUERIES then qs[|qs| - MAX_QUERIES..] else qs
  }

  function Join(qs: seq<string>): string {
    if qs == [] then "" else if |qs| == 1 then qs[0] else qs[0] + SEPARATOR + Join(qs[1..])
  }

  /** `dropped` holds all user messages to report, before the cut to the last ten. */
  datatype Plan = Plan(before: seq<Pick>, anchor: Message, after: seq<Pick>, dropped: seq<Message>, total: nat)

  function CutAnchor(s: Settings, m: Message): Message {
    Message(m.role, Some(Take(Text(m), s.budget * 2) + ELLIPSIS + MARK), None, None, None)
  }

  function After(est: string -> nat, s: Settings, ms: seq<Message>, anchor: nat): Collected
    requires anchor < |ms|
  {
    Collect(est, s, ms, anchor + 1, |ms| - 1, Tokens(est, ms[anchor]))
  }

  function Before(est: string -> nat, s: Settings, ms: seq<Message>, anchor: nat): Collected
    requires anchor < |ms|
  {
    Collect(est, s, ms, 0, anchor - 1, After(est, s, ms, anchor).total)
  }

  function MakePlan(est: string -> nat, s: Settings, ms: seq<Message>, anchor: nat): Plan
    requires anchor < |ms|
  {
    CollectBounds(est, s, ms, 0, anchor - 1, After(est, s, ms, anchor).total);
    if Tokens(est, ms[anchor]) > s.budget then Plan([], CutAnchor(s, ms[anchor]), [], [], Tokens(est, ms[anchor]))
    else
      var before := Before(est, s, ms, anchor);
      Plan(before.picks, ms[anchor], After(est, s, ms, anchor).picks, Users(ms, before.stop + 1), before.total)
  }

  function Trim(est: string -> nat, s: Settings, messages: seq<Message>): (seq<Message>, string, seq<string>) {
    var ms := WithoutSystem(messages);
    match LatestUser(ms)
    case None => (SystemOnly(messages) + ms, "", [])
    case Some(anchor) =>
      var plan := MakePlan(est, s, ms, anchor);
      var dropped := LastTen(Queries(plan.dropped));
      (SystemOnly(messages) + Messages(plan.before) + [plan.anchor] + Messages(plan.after), Join(dropped), dropped)
  }

  // What the backward pass collects

  lemma {:induction false} CollectBounds(est: string -> nat, s: Settings, ms: seq<Message>, lo: nat, i: int, total: nat)
    requires lo - 1 <= i < |ms|
    ensures var r := Collect(est, s, ms, lo, i, total);
            lo - 1 <= r.stop <= i && r.total >= total
    decreases i + 1 - lo
  {
    var round := NextRound(est, s, ms, lo, i, total);
    if round.Go? {
      CollectBounds(est, s, ms, lo, round.next, round.total);
    }
  }

  /** Strictly increasing places within a range, each message its original or, for a tool, a shortened copy. */
  predicate Faithful(s: Settings, ms: seq<Message>, picks: seq<Pick>, above: int, upTo: int) {
    && (forall k :: 0 <= k < |picks| ==> above < picks[k].at <= upTo && picks[k].at < |ms|)
    && (forall k, l :: 0 <= k < l < |picks| ==> picks[k].at < picks[l].at)
    && (forall k :: 0 <= k < |picks| ==> IsCopy(s, ms[picks[k].at], picks[k].message))
  }

  predicate IsCopy(s: Settings, m: Message, copy: Message) {
    copy == m || (m.role == Tool && copy in {Shorten(s, m), Cut(s, m)})
  }

  lemma {:induction false} RoundIsFaithful(est: string -> nat, s: Settings, ms: seq<Message>, lo: nat, i: int,
                                           total: nat)
    requires lo - 1 <= i < |ms|
    ensures var round := NextRound(est, s, ms, lo, i, total);
            round.Go? ==> lo - 1 <= round.next < i && Faithful(s, ms, round.picks, round.next, i)
  {
  }

  lemma {:induction false} FaithfulSum(s: Settings, ms: seq<Message>, front: seq<Pick>, back: seq<Pick>, above: int,
                                       middle: int, upTo: int)
    requires above <= middle <= upTo
    requires Faithful(s, ms, front, above, middle) && Faithful(s, ms, back, middle, upTo)
    ensures Faithful(s, ms, front + back, above, upTo)
  {
    var sum := front + back;
    forall k | 0 <= k < |sum|
      ensures above < sum[k].at <= upTo && sum[k].at < |ms| && IsCopy(s, ms[sum[k].at], sum[k].message)
    {
      assert sum[k] == if k < |front| then front[k] else back[k - |front|];
    }
    forall k, l | 0 <= k < l < |sum| ensures sum[k].at < sum[l].at {
      assert sum[k] == if k < |front| then front[k] else back[k - |front|];
      assert sum[l] == if l < |front| then front[l] else back[l - |front|];
    }
  }

  lemma {:induction false} CollectIsFaithful(est: string -> nat, s: Settings, ms: seq<Message>, lo: nat, i: int,
                                             total: nat, r: Collected)
    requires lo - 1 <= i < |ms| && r == Collect(est, s, ms, lo, i, total)
    ensures lo - 1 <= r.stop <= i && Faithful(s, ms, r.picks, r.stop, i)
    decreases i + 1 - lo
  {
    var round := NextRound(est, s, ms, lo, i, total);
    if round.Go? {
      var rest := Collect(est, s, ms, lo, round.next, round.total);
      RoundIsFaithful(est, s, ms, lo, i, total);
      CollectIsFaithful(est, s, ms, lo, round.next, round.total, rest);
      FaithfulSum(s, ms, rest.picks, round.picks, rest.stop, round.next, i);
    }
  }

  /** The summary: the queries in order with a separator between two. */
  lemma {:induction false} JoinSnoc(qs: seq<string>, q: string)
    ensures Join([q]) == q
    ensures qs != [] ==> Join(qs + [q]) == Join(qs) + "\U{FF1B}" + q
  {
    if |qs| == 1 {
      assert (qs + [q])[1..] == [q];
    } else if |qs| > 1 {
      assert (qs + [q])[1..] == qs[1..] + [q];
      JoinSnoc(qs[1..], q);
    }
  }

  /** Of a query at most the first hundred characters are reported, and of the queries at most the last ten. */
  lemma {:induction false} ReportedQueries(m: Message, qs: seq<string>)
    ensures var text := if m.content == None then "" else m.content.value;
            Query(m) <= text && |Query(m)| == if |text| < 100 then |text| else 100
    ensures exists k :: 0 <= k <= |qs| && LastTen(qs) == qs[k..]
    ensures |LastTen(qs)| == if |qs| < 10 then |qs| else 10
  {
    assert qs[0..] == qs;
  }

  predicate Picked(picks: seq<Pick>, at: nat) {
    exists k :: 0 <= k < |picks| && picks[k].at == at
  }

  lemma {:induction false} PickedInSum(front: seq<Pick>, back: seq<Pick>, at: nat)
    ensures Picked(front + back, at) <==> Picked(front, at) || Picked(back, at)
  {
    forall k | 0 <= k < |front| && front[k].at == at ensures Picked(front + back, at) {
      assert (front + back)[k].at == at;
    }
    forall k | 0 <= k < |back| && back[k].at == at ensures Picked(front + back, at) {
      assert (front + back)[|front| + k].at == at;
    }
  }

  /** Above the stop only an assistant message right before a tool result can be missing. */
  lemma {:induction false} OnlyAssistantsAreSkipped(est: string -> nat, s: Settings, ms: seq<Message>, lo: nat, i: int,
                                                    total: nat, at: nat)
    requires lo - 1 <= i < |ms| && Collect(est, s, ms, lo, i, total).stop < at <= i
    ensures Picked(Collect(est, s, ms, lo, i, total).picks, at)
            || (at < i && ms[at].role == Assistant && ms[at + 1].role == Tool)
    decreases i + 1 - lo
  {
    var round := NextRound(est, s, ms, lo, i, total);
    if round.Go? {
      var rest := Collect(est, s, ms, lo, round.next, round.total);
      PickedInSum(rest.picks, round.picks, at);
      if at <= round.next {
        OnlyAssistantsAreSkipped(est, s, ms, lo, round.next, round.total, at);
      } else if at == i {
        assert round.picks[|round.picks| - 1].at == at;
      }
    }
  }

  function PickedUsers(picks: seq<Pick>): seq<Message>
    decreases |picks|
  {
    if picks == [] then []
    else PickedUsers(picks[..|picks| - 1])
         + if picks[|picks| - 1].message.role == User then [picks[|picks| - 1].message] else []
  }

  lemma {:induction false} PickedUsersSum(front: seq<Pick>, back: seq<Pick>)
    ensures PickedUsers(front + back) == PickedUsers(front) + PickedUsers(back)
    decreases |back|
  {
    if back == [] {
      assert front + back == front;
    } else {
      assert (front + back)[..|front + back| - 1] == front + back[..|back| - 1];
      PickedUsersSum(front, back[..|back| - 1]);
    }
  }

  lemma {:induction false} PickedUsersOfOne(p: Pick)
    ensures PickedUsers([p]) == if p.message.role == User then [p.message] else []
  {
    assert [p][..0] == [];
  }

  lemma {:induction false} NoUsersPicked(picks: seq<Pick>)
    requires forall p :: p in picks ==> p.message.role != User
    ensures PickedUsers(picks) == []
    decreases |picks|
  {
    if picks != [] {
      NoUsersPicked(picks[..|picks| - 1]);
    }
  }

  /** A round moves past a tool result and the assistant message before it, or past one message it takes. */
  lemma {:induction false} RoundShape(est: string -> nat, s: Settings, ms: seq<Message>, lo: nat, i: int, total: nat,
                                      round: Round)
    requires lo - 1 <= i < |ms| && round == NextRound(est, s, ms, lo, i, total) && round.Go?
    ensures lo - 1 <= round.next < i
    ensures if round.next == i - 1 then
              |round.picks| == 1 && if ms[i].role == Tool then round.picks[0].message.role == Tool
                                    else round.picks == [Pick(i, ms[i])]
            else
              && round.next == i - 2 && ms[i].role == Tool && ms[i - 1].role == Assistant
              && forall p :: p in round.picks ==> p.message.role != User
  {
  }

  lemma {:induction false} RoundKeepsUsers(ms: seq<Message>, i: nat, round: Round)
    requires i < |ms| && round.Go? && i - 2 <= round.next < i && round.next >= -1
    requires if round.next == i - 1 then
               |round.picks| == 1 && if ms[i].role == Tool then round.picks[0].message.role == Tool
                                     else round.picks == [Pick(i, ms[i])]
             else
               && round.next == i - 2 && ms[i].role == Tool && ms[i - 1].role == Assistant
               && forall p :: p in round.picks ==> p.message.role != User
    ensures Users(ms, i + 1) == Users(ms, round.next + 1) + PickedUsers(round.picks)
  {
    if round.next == i - 1 {
      assert round.picks == [round.picks[0]];
      PickedUsersOfOne(round.picks[0]);
    } else {
      NoUsersPicked(round.picks);
      assert Users(ms, i) == Users(ms, i - 1);
    }
  }

  lemma {:induction false} Regroup<T>(whole: seq<T>, middle: seq<T>, low: seq<T>, inner: seq<T>, outer: seq<T>)
    requires whole == middle + outer && middle == low + inner
    ensures whole == low + (inner + outer)
  {
  }

  lemma {:induction false} UsersJoin(ms: seq<Message>, i: int, next: int, stop: int, inner: seq<Pick>, outer: seq<Pick>)
    requires -1 <= stop <= next < i < |ms|
    requires Users(ms, i + 1) == Users(ms, next + 1) + PickedUsers(outer)
    requires Users(ms, next + 1) == Users(ms, stop + 1) + PickedUsers(inner)
    ensures Users(ms, i + 1) == Users(ms, stop + 1) + PickedUsers(inner + outer)
  {
    PickedUsersSum(inner, outer);
    Regroup(Users(ms, i + 1), Users(ms, next + 1), Users(ms, stop + 1), PickedUsers(inner), PickedUsers(outer));
  }

  lemma {:induction false} RoundUsers(est: string -> nat, s: Settings, ms: seq<Message>, lo: nat, i: int, total: nat)
    requires lo - 1 <= i < |ms|
    ensures match NextRound(est, s, ms, lo, i, total)
            case Halt => true
            case Go(next, picks, _) =>
              lo - 1 <= next < i && Users(ms, i + 1) == Users(ms, next + 1) + PickedUsers(picks)
  {
    var round := NextRound(est, s, ms, lo, i, total);
    if round.Go? {
      RoundShape(est, s, ms, lo, i, total, round);
      RoundKeepsUsers(ms, i, round);
    }
  }

  lemma {:induction false} CollectKeepsUsers(est: string -> nat, s: Settings, ms: seq<Message>, lo: nat, i: int,
                                             total: nat, r: Collected)
    requires lo - 1 <= i < |ms| && r == Collect(est, s, ms, lo, i, total)
    ensures lo - 1 <= r.stop <= i && Users(ms, i + 1) == Users(ms, r.stop + 1) + PickedUsers(r.picks)
    decreases i + 1 - lo
  {
    RoundUsers(est, s, ms, lo, i, total);
    var round := NextRound(est, s, ms, lo, i, total);
    if round.Go? {
      CollectGoesOn(est, s, ms, lo, i, total, round);
      var rest := Collect(est, s, ms, lo, round.next, round.total);
      CollectKeepsUsers(est, s, ms, lo, round.next, round.total, rest);
      UsersJoin(ms, i, round.next, rest.stop, rest.picks, round.picks);
    }
  }

  /** The count is within the budget, or one cut tool result took it over from below. */
  ghost predicate AtMostOneOvershoot(est: string -> nat, s: Settings, ms: seq<Message>, total: nat) {
    total <= s.budget || exists k :: 0 <= k < |ms| && ms[k].role == Tool && total < s.budget + CutCost(est, s, ms[k])
  }

  lemma {:induction false} CollectOvershootsOnce(est: string -> nat, s: Settings, ms: seq<Message>, lo: nat, i: int,
                                                 total: nat)
    requires lo - 1 <= i < |ms| && AtMostOneOvershoot(est, s, ms, total)
    ensures AtMostOneOvershoot(est, s, ms, Collect(est, s, ms, lo, i, total).total)
    decreases i + 1 - lo
  {
    var round := NextRound(est, s, ms, lo, i, total);
    if round.Go? {
      CollectOvershootsOnce(est, s, ms, lo, round.next, round.total);
    }
  }

  // Main results

  /** What was decided about the conversation, for a latest user message within the budget. */
  predicate Anchored(est: string -> nat, s: Settings, ms: seq<Message>, anchor: nat) {
    anchor < |ms| && LatestUser(ms) == Some(anchor) && Tokens(est, ms[anchor]) <= s.budget
  }

  /**
    Main result: the token count exceeds the budget at most once over both passes, and then by less
    than the estimate of one cut tool result.
  */
  lemma {:induction false} CountWithinBudget(est: string -> nat, s: Settings, ms: seq<Message>, anchor: nat)
    requires Anchored(est, s, ms, anchor)
    ensures AtMostOneOvershoot(est, s, ms, MakePlan(est, s, ms, anchor).total)
  {
    CollectOvershootsOnce(est, s, ms, anchor + 1, |ms| - 1, Tokens(est, ms[anchor]));
    CollectOvershootsOnce(est, s, ms, 0, anchor - 1, After(est, s, ms, anchor).total);
  }

  function AllPicks(plan: Plan, anchor: nat): seq<Pick> {
    plan.before + [Pick(anchor, plan.anchor)] + plan.after
  }

  /** Main result: the output keeps the original order, changes tool results only, and holds the anchor unchanged. */
  lemma {:induction false} OrderIsKept(est: string -> nat, s: Settings, ms: seq<Message>, anchor: nat)
    requires Anchored(est, s, ms, anchor)
    ensures Faithful(s, ms, AllPicks(MakePlan(est, s, ms, anchor), anchor), -1, |ms| - 1)
    ensures ms[anchor] == MakePlan(est, s, ms, anchor).anchor
  {
    var after, before := After(est, s, ms, anchor), Before(est, s, ms, anchor);
    CollectIsFaithful(est, s, ms, anchor + 1, |ms| - 1, Tokens(est, ms[anchor]), after);
    CollectIsFaithful(est, s, ms, 0, anchor - 1, after.total, before);
    FaithfulAround(s, ms, anchor, before.picks, before.stop, after.picks, after.stop);
  }

  lemma {:induction false} FaithfulAround(s: Settings, ms: seq<Message>, anchor: nat, before: seq<Pick>, low: int,
                                          after: seq<Pick>, stop: int)
    requires anchor < |ms| && -1 <= low < anchor <= stop < |ms|
    requires Faithful(s, ms, before, low, anchor - 1) && Faithful(s, ms, after, stop, |ms| - 1)
    ensures Faithful(s, ms, before + [Pick(anchor, ms[anchor])] + after, -1, |ms| - 1)
  {
    FaithfulSum(s, ms, before, [Pick(anchor, ms[anchor])], low, anchor - 1, anchor);
    FaithfulSum(s, ms, before + [Pick(anchor, ms[anchor])], after, -1, anchor, |ms| - 1);
  }

  /** Every earlier user message is reported dropped or kept, each once and in order. */
  predicate AllUsersAccounted(ms: seq<Message>, anchor: nat, plan: Plan)
    requires anchor < |ms|
  {
    Users(ms, anchor) == plan.dropped + PickedUsers(plan.before)
  }

  /**
    Main result, and its limit: the dropped and the kept earlier user messages together are all of
    them, except that a latest message over the budget hides the earlier ones from both lists.
  */
  lemma {:induction false} UsersAccountedIff(est: string -> nat, s: Settings, ms: seq<Message>, anchor: nat)
    requires LatestUser(ms) == Some(anchor)
    ensures AllUsersAccounted(ms, anchor, MakePlan(est, s, ms, anchor))
            <==> Tokens(est, ms[anchor]) <= s.budget || forall k :: 0 <= k < anchor ==> ms[k].role != User
  {
    CollectKeepsUsers(est, s, ms, 0, anchor - 1, After(est, s, ms, anchor).total, Before(est, s, ms, anchor));
    NoUsersIff(ms, anchor);
  }

  lemma {:induction false} NoUsersIff(ms: seq<Message>, k: nat)
    requires k <= |ms|
    ensures Users(ms, k) == [] <==> forall j :: 0 <= j < k ==> ms[j].role != User
  {
    if k > 0 {
      NoUsersIff(ms, k - 1);
    }
  }

  /** Above the place where the earlier pass stopped, every message but a skipped assistant is in the output. */
  lemma {:induction false} EarlierMessagesKept(est: string -> nat, s: Settings, ms: seq<Message>, anchor: nat, at: nat)
    requires Anchored(est, s, ms, anchor) && Before(est, s, ms, anchor).stop < at < anchor
    requires ms[at].role != Assistant
    ensures Picked(MakePlan(est, s, ms, anchor).before, at)
  {
    OnlyAssistantsAreSkipped(est, s, ms, 0, anchor - 1, After(est, s, ms, anchor).total, at);
  }

  // A conversation that fits

  /** The tokens of the first n messages. */
  function Total(est: string -> nat, ms: seq<Message>, n: nat): nat
    requires n <= |ms|
  {
    if n == 0 then 0 else Total(est, ms, n - 1) + Tokens(est, ms[n - 1])
  }

  function TotalOf(est: string -> nat, ms: seq<Message>): nat {
    Total(est, ms, |ms|)
  }

  lemma {:induction false} TotalGrows(est: string -> nat, ms: seq<Message>, n: nat, m: nat)
    requires n <= m <= |ms|
    ensures Total(est, ms, n) <= Total(est, ms, m)
    decreases m
  {
    if n < m {
      TotalGrows(est, ms, n, m - 1);
    }
  }

  function Tidy(s: Settings, m: Message): Message {
    if m.role == Tool then Shorten(s, m) else m
  }

  function TidyRange(s: Settings, ms: seq<Message>, lo: nat, hi: nat): seq<Message>
    requires lo <= hi <= |ms|
  {
    seq(hi - lo, i requires 0 <= i < hi - lo => Tidy(s, ms[lo + i]))
  }

  lemma {:induction false} MessagesSum(a: seq<Pick>, b: seq<Pick>)
    ensures Messages(a + b) == Messages(a) + Messages(b)
  {
  }

  lemma {:induction false} MessagesAreTidy(s: Settings, ms: seq<Message>, lo: nat, middle: nat, hi: nat,
                                           front: seq<Pick>, back: seq<Pick>)
    requires lo <= middle <= hi <= |ms|
    requires Messages(front) == TidyRange(s, ms, lo, middle) && Messages(back) == TidyRange(s, ms, middle, hi)
    ensures Messages(front + back) == TidyRange(s, ms, lo, hi)
  {
    MessagesSum(front, back);
    assert TidyRange(s, ms, lo, hi) == TidyRange(s, ms, lo, middle) + TidyRange(s, ms, middle, hi);
  }

  /** Below the budget a round takes all it moves past. */
  lemma {:induction false} RoundTakesAll(est: string -> nat, s: Settings, ms: seq<Message>, lo: nat, i: nat, total: nat,
                                         round: Round)
    requires lo <= i < |ms| && total + Total(est, ms, i + 1) - Total(est, ms, lo) < s.budget
    requires round == NextRound(est, s, ms, lo, i, total)
    ensures round.Go? && lo - 1 <= round.next < i
    ensures round.total == total + Total(est, ms, i + 1) - Total(est, ms, round.next + 1)
    ensures Messages(round.picks) == TidyRange(s, ms, round.next + 1, i + 1)
  {
    TotalGrows(est, ms, lo, i);
    assert Total(est, ms, i + 1) == Total(est, ms, i) + Tokens(est, ms[i]);
    if i > lo {
      TotalGrows(est, ms, lo, i - 1);
      assert Total(est, ms, i) == Total(est, ms, i - 1) + Tokens(est, ms[i - 1]);
    }
    assert round.Go?;
    if round.next == i - 1 {
      assert round.picks == [Pick(i, Tidy(s, ms[i]))];
      assert TidyRange(s, ms, i, i + 1) == [Tidy(s, ms[i])];
    } else {
      assert round.picks == [Pick(i - 1, ms[i - 1]), Pick(i, Tidy(s, ms[i]))];
      assert TidyRange(s, ms, i - 1, i + 1) == [Tidy(s, ms[i - 1]), Tidy(s, ms[i])];
    }
  }

  /** The pass has taken every message down to `lo`, with the copies and the count of all of them. */
  predicate TookAll(est: string -> nat, s: Settings, ms: seq<Message>, lo: nat, i: int, total: nat, r: Collected)
    requires lo - 1 <= i < |ms|
  {
    && r.stop == lo - 1 && r.total == total + Total(est, ms, i + 1) - Total(est, ms, lo)
    && Messages(r.picks) == TidyRange(s, ms, lo, i + 1)
  }

  lemma {:induction false} CollectGoesOn(est: string -> nat, s: Settings, ms: seq<Message>, lo: nat, i: int, total: nat,
                                         round: Round)
    requires lo - 1 <= i < |ms| && round == NextRound(est, s, ms, lo, i, total) && round.Go? && lo - 1 <= round.next < i
    ensures var rest := Collect(est, s, ms, lo, round.next, round.total);
            Collect(est, s, ms, lo, i, total) == Collected(rest.stop, rest.picks + round.picks, rest.total)
  {
  }

  lemma {:induction false} CollectTakesAll(est: string -> nat, s: Settings, ms: seq<Message>, lo: nat, i: int,
                                           total: nat, r: Collected)
    requires lo - 1 <= i < |ms| && total + Total(est, ms, i + 1) - Total(est, ms, lo) < s.budget
    requires r == Collect(est, s, ms, lo, i, total)
    ensures TookAll(est, s, ms, lo, i, total, r)
    decreases i + 1 - lo
  {
    if i >= lo {
      var round := NextRound(est, s, ms, lo, i, total);
      RoundTakesAll(est, s, ms, lo, i, total, round);
      CollectGoesOn(est, s, ms, lo, i, total, round);
      var rest := Collect(est, s, ms, lo, round.next, round.total);
      CollectTakesAll(est, s, ms, lo, round.next, round.total, rest);
      MessagesAreTidy(s, ms, lo, round.next + 1, i + 1, rest.picks, round.picks);
    }
  }

  lemma {:induction false} FittingPasses(est: string -> nat, s: Settings, ms: seq<Message>, anchor: nat,
                                         before: Collected, after: Collected)
    requires TotalOf(est, ms) < s.budget && anchor < |ms|
    requires before == Before(est, s, ms, anchor) && after == After(est, s, ms, anchor)
    ensures before.stop == -1 && Messages(before.picks) == TidyRange(s, ms, 0, anchor)
    ensures Messages(after.picks) == TidyRange(s, ms, anchor + 1, |ms|)
  {
    TotalGrows(est, ms, 0, anchor);
    CollectTakesAll(est, s, ms, anchor + 1, |ms| - 1, Tokens(est, ms[anchor]), after);
    CollectTakesAll(est, s, ms, 0, anchor - 1, after.total, before);
  }

  lemma {:induction false} TidyAround(s: Settings, ms: seq<Message>, at: nat)
    requires at < |ms|
    ensures TidyRange(s, ms, 0, |ms|)
            == TidyRange(s, ms, 0, at) + [Tidy(s, ms[at])] + TidyRange(s, ms, at + 1, |ms|)
  {
  }

  lemma {:induction false} FittingPlan(est: string -> nat, s: Settings, ms: seq<Message>, anchor: nat, plan: Plan)
    requires TotalOf(est, ms) < s.budget && anchor < |ms| && ms[anchor].role == User
             && plan == MakePlan(est, s, ms, anchor)
    ensures plan.dropped == []
    ensures Messages(plan.before) + [plan.anchor] + Messages(plan.after) == TidyRange(s, ms, 0, |ms|)
  {
    TotalGrows(est, ms, anchor + 1, |ms|);
    FittingPasses(est, s, ms, anchor, Before(est, s, ms, anchor), After(est, s, ms, anchor));
    TidyAround(s, ms, anchor);
  }

  /** Main result: a conversation below the budget is returned whole, long tool results shortened. */
  lemma {:induction false} FittingConversationIsKept(est: string -> nat, s: Settings, messages: seq<Message>)
    requires TotalOf(est, WithoutSystem(messages)) < s.budget && LatestUser(WithoutSystem(messages)).Some?
    ensures var ms := WithoutSystem(messages);
            Trim(est, s, messages) == (SystemOnly(messages) + TidyRange(s, ms, 0, |ms|), "", [])
  {
    var ms := WithoutSystem(messages);
    var anchor := LatestUser(ms).value;
    var plan := MakePlan(est, s, ms, anchor);
    FittingPlan(est, s, ms, anchor, plan);
    TrimIs(est, s, messages, anchor, plan);
    assert LastTen(Queries([])) == [];
  }

  lemma {:induction false} FourParts(a: seq<Message>, b: seq<Message>, m: Message, c: seq<Message>)
    ensures a + (b + [m] + c) == a + b + [m] + c
  {
  }

  lemma {:induction false} TrimIs(est: string -> nat, s: Settings, messages: seq<Message>, anchor: nat, plan: Plan)
    requires LatestUser(WithoutSystem(messages)) == Some(anchor)
             && plan == MakePlan(est, s, WithoutSystem(messages), anchor)
    ensures var dropped := LastTen(Queries(plan.dropped));
            Trim(est, s, messages)
            == (SystemOnly(messages) + (Messages(plan.before) + [plan.anchor] + Messages(plan.after)),
                Join(dropped), dropped)
  {
    FourParts(SystemOnly(messages), Messages(plan.before), plan.anchor, Messages(plan.after));
  }

  // What is sent

  lemma {:induction false} PrefixTotal(est: string -> nat, a: seq<Message>, b: seq<Message>, n: nat)
    requires n <= |a|
    ensures Total(est, a + b, n) == Total(est, a, n)
  {
    if n > 0 {
      PrefixTotal(est, a, b, n - 1);
    }
  }

  lemma {:induction false} SuffixTotal(est: string -> nat, a: seq<Message>, b: seq<Message>, n: nat)
    requires n <= |b|
    ensures Total(est, a + b, |a| + n) == TotalOf(est, a) + Total(est, b, n)
  {
    if n > 0 {
      SuffixTotal(est, a, b, n - 1);
    } else {
      PrefixTotal(est, a, b, |a|);
    }
  }

  lemma {:induction false} TotalSum(est: string -> nat, a: seq<Message>, b: seq<Message>)
    ensures TotalOf(est, a + b) == TotalOf(est, a) + TotalOf(est, b)
  {
    SuffixTotal(est, a, b, |b|);
  }

  lemma {:induction false} TotalOfOne(est: string -> nat, m: Message)
    ensures TotalOf(est, [m]) == Tokens(est, m)
  {
    assert Total(est, [m], 0) == 0;
  }

  lemma {:induction false} TotalOfThree(est: string -> nat, front: seq<Message>, m: Message, back: seq<Message>)
    ensures TotalOf(est, front + ([m] + back)) == TotalOf(est, front) + Tokens(est, m) + TotalOf(est, back)
  {
    TotalSum(est, front, [m] + back);
    TotalSum(est, [m], back);
    TotalOfOne(est, m);
  }

  function ToolCount(picks: seq<Pick>): nat {
    if picks == [] then 0
    else ToolCount(picks[..|picks| - 1]) + if picks[|picks| - 1].message.role == Tool then 1 else 0
  }

  lemma {:induction false} ToolCountSum(a: seq<Pick>, b: seq<Pick>)
    ensures ToolCount(a + b) == ToolCount(a) + ToolCount(b)
    decreases |b|
  {
    if b == [] {
      assert a + b == a;
    } else {
      assert (a + b)[..|a + b| - 1] == a + b[..|b| - 1];
      ToolCountSum(a, b[..|b| - 1]);
    }
  }

  const MARK_TOKENS := 6

  lemma {:induction false} MarkedToolTokens(s: Settings, m: Message)
    ensures Tokens(Fallback, Cut(s, m)) <= CutCost(Fallback, s, m) + MARK_TOKENS
    ensures Tokens(Fallback, Shorten(s, m)) <= Tokens(Fallback, m) + MARK_TOKENS
  {
  }

  lemma {:induction false} OnePick(p: Pick)
    ensures Messages([p]) == [p.message] && TotalOf(Fallback, [p.message]) == Tokens(Fallback, p.message)
    ensures ToolCount([p]) == if p.message.role == Tool then 1 else 0
  {
    TotalOfOne(Fallback, p.message);
    assert [p][..0] == [];
  }

  /** The estimate of what a round takes is what it counts, but for the marks. */
  lemma {:induction false} RoundSent(s: Settings, ms: seq<Message>, lo: nat, i: int, total: nat, round: Round)
    requires lo - 1 <= i < |ms| && round == NextRound(Fallback, s, ms, lo, i, total) && round.Go?
    ensures lo - 1 <= round.next < i
    ensures total + TotalOf(Fallback, Messages(round.picks)) <= round.total + MARK_TOKENS * ToolCount(round.picks)
  {
    var last := round.picks[|round.picks| - 1];
    OnePick(last);
    MarkedToolTokens(s, ms[i]);
    if |round.picks| == 2 {
      var first := round.picks[0];
      assert round.picks == [first] + [last];
      OnePick(first);
      ToolCountSum([first], [last]);
      MessagesSum([first], [last]);
      TotalSum(Fallback, [first.message], [last.message]);
    } else {
      assert round.picks == [last];
    }
  }

  lemma {:induction false} CollectSent(s: Settings, ms: seq<Message>, lo: nat, i: int, total: nat, r: Collected)
    requires lo - 1 <= i < |ms| && r == Collect(Fallback, s, ms, lo, i, total)
    ensures total + TotalOf(Fallback, Messages(r.picks)) <= r.total + MARK_TOKENS * ToolCount(r.picks)
    decreases i + 1 - lo
  {
    var round := NextRound(Fallback, s, ms, lo, i, total);
    if round.Go? {
      RoundSent(s, ms, lo, i, total, round);
      var rest := Collect(Fallback, s, ms, lo, round.next, round.total);
      CollectSent(s, ms, lo, round.next, round.total, rest);
      MessagesSum(rest.picks, round.picks);
      TotalSum(Fallback, Messages(rest.picks), Messages(round.picks));
      ToolCountSum(rest.picks, round.picks);
    }
  }

  function Sent(plan: Plan): seq<Message> {
    Messages(plan.before) + ([plan.anchor] + Messages(plan.after))
  }

  /**
    Main result, with the fallback estimate: what is sent besides the system messages is at most the
    budget, one cut tool result, and six tokens a tool result for the marks, which are not counted.
  */
  lemma {:induction false} SentWithinBudget(s: Settings, ms: seq<Message>, anchor: nat)
    requires Anchored(Fallback, s, ms, anchor)
    ensures var plan := MakePlan(Fallback, s, ms, anchor);
            TotalOf(Fallback, Sent(plan))
            < s.budget + (if s.maxToolChars / 2 > 1 then s.maxToolChars / 2 else 1)
              + MARK_TOKENS * (ToolCount(plan.before) + ToolCount(plan.after))
  {
    FallbackCountWithinBudget(s, ms, anchor);
    SentIsCounted(s, ms, anchor, MakePlan(Fallback, s, ms, anchor));
  }

  lemma {:induction false} FallbackCountWithinBudget(s: Settings, ms: seq<Message>, anchor: nat)
    requires Anchored(Fallback, s, ms, anchor)
    ensures MakePlan(Fallback, s, ms, anchor).total
            < s.budget + if s.maxToolChars / 2 > 1 then s.maxToolChars / 2 else 1
  {
    CountWithinBudget(Fallback, s, ms, anchor);
    var total := MakePlan(Fallback, s, ms, anchor).total;
    if total > s.budget {
      var k :| 0 <= k < |ms| && ms[k].role == Tool && total < s.budget + CutCost(Fallback, s, ms[k]);
      assert |Take(Text(ms[k]), s.maxToolChars)| <= s.maxToolChars;
    }
  }

  lemma {:induction false} SentIsCounted(s: Settings, ms: seq<Message>, anchor: nat, plan: Plan)
    requires Anchored(Fallback, s, ms, anchor) && plan == MakePlan(Fallback, s, ms, anchor)
    ensures TotalOf(Fallback, Sent(plan)) <= plan.total + MARK_TOKENS * (ToolCount(plan.before) + ToolCount(plan.after))
  {
    CollectSent(s, ms, anchor + 1, |ms| - 1, Tokens(Fallback, ms[anchor]), After(Fallback, s, ms, anchor));
    CollectSent(s, ms, 0, anchor - 1, After(Fallback, s, ms, anchor).total, Before(Fallback, s, ms, anchor));
    TotalOfThree(Fallback, Messages(plan.before), plan.anchor, Messages(plan.after));
  }

  /** A latest message over the budget is sent alone, and six tokens over the budget. */
  lemma {:induction false} LongAnchorSent(s: Settings, ms: seq<Message>, anchor: nat)
    requires LatestUser(ms) == Some(anchor) && Tokens(Fallback, ms[anchor]) > s.budget
    ensures TotalOf(Fallback, Sent(MakePlan(Fallback, s, ms, anchor))) == s.budget + MARK_TOKENS
  {
    var cut := CutAnchor(s, ms[anchor]);
    OnePick(Pick(anchor, cut));
    assert Sent(MakePlan(Fallback, s, ms, anchor)) == [cut];
  }

  // The function as it runs

  /** The copy of a tool result that is kept, and what it counts. */
  method ToolResult(est: string -> nat, s: Settings, m: Message, over: bool) returns (copy: Message, cost: nat)
    ensures if over then copy == Cut(s, m) && cost == CutCost(est, s, m)
            else copy == Shorten(s, m) && cost == Tokens(est, m)
  {
    if over {
      var truncated := Take(Text(m), s.maxToolChars);
      copy := Message(Tool, Some(truncated + MARK), None, m.toolCallId, m.name);
      cost := Estimate(est, truncated);
    } else {
      var content := m.content;
      if content.Some? && |content.value| > s.maxToolChars {
        content := Some(content.value[..s.maxToolChars] + MARK);
      }
      copy := Message(Tool, content, None, m.toolCallId, m.name);
      cost := Tokens(est, m);
    }
  }

  /** One round: a tool result with the assistant message before it, or one other message. */
  method OneRound(est: string -> nat, s: Settings, ms: seq<Message>, lo: nat, start: int, count: nat)
    returns (fits: bool, taken: seq<Message>, i: int, total: nat)
    requires lo <= start < |ms| && count < s.budget
    ensures var round := NextRound(est, s, ms, lo, start, count);
            fits == round.Go? && (fits ==> taken == Messages(round.picks) && i == round.next && total == round.total)
  {
    fits, taken, i, total := true, [], start, count;
    var m := ms[i];
    var tokens := Tokens(est, m);
    if m.role == Tool {
      var result, cost := ToolResult(est, s, m, tokens + total > s.budget);
      taken, total := [result], total + cost;
      i := i - 1;
      if i >= lo && ms[i].role == Assistant {
        var more := Tokens(est, ms[i]);
        if more + total <= s.budget {
          taken, total := [ms[i]] + taken, total + more;
        }
        i := i - 1;
      }
      return;
    }
    if tokens + total > s.budget {
      fits := false;
      return;
    }
    taken, total := [m], total + tokens;
    i := i - 1;
  }

  /** One of the two backward passes; it stops at the first message other than a tool result that does not fit. */
  method CollectBackwards(est: string -> nat, s: Settings, ms: seq<Message>, lo: nat, start: int, count: nat,
                          ghost r: Collected)
    returns (kept: seq<Message>, i: int, total: nat)
    requires lo - 1 <= start < |ms| && r == Collect(est, s, ms, lo, start, count)
    ensures kept == Messages(r.picks) && i == r.stop && total == r.total && lo - 1 <= i <= start
  {
    ghost var picks: seq<Pick> := [];
    kept, i, total := [], start, count;
    while i >= lo && total < s.budget
      invariant lo - 1 <= i <= start
      invariant kept == Messages(picks)
      invariant var rest := Collect(est, s, ms, lo, i, total);
                r == Collected(rest.stop, rest.picks + picks, rest.total)
    {
      ghost var round := NextRound(est, s, ms, lo, i, total);
      var fits, taken, i', total' := OneRound(est, s, ms, lo, i, total);
      if !fits {
        break;
      }
      Grow(est, s, ms, lo, i, total, round, picks);
      kept, i, total := taken + kept, i', total';
      picks := round.picks + picks;
    }
  }

  lemma {:induction false} Grow(est: string -> nat, s: Settings, ms: seq<Message>, lo: nat, i: int, total: nat,
                                round: Round, picks: seq<Pick>)
    requires lo - 1 <= i < |ms| && round == NextRound(est, s, ms, lo, i, total) && round.Go?
    ensures var rest := Collect(est, s, ms, lo, round.next, round.total);
            Collect(est, s, ms, lo, i, total).picks + picks == rest.picks + (round.picks + picks)
    ensures lo - 1 <= round.next < i
    ensures Messages(round.picks + picks) == Messages(round.picks) + Messages(picks)
  {
    MessagesSum(round.picks, picks);
  }

  method LatestUserIndex(ms: seq<Message>) returns (r: Option<nat>)
    ensures r == LatestUser(ms)
  {
    var i := |ms| - 1;
    while i >= 0
      invariant -1 <= i < |ms|
      invariant LatestUser(ms) == LatestUser(ms[..i + 1])
    {
      assert ms[..i + 1][..i] == ms[..i];
      if ms[i].role == User {
        return Some(i);
      }
      i := i - 1;
    }
    return None;
  }

  /** From the last to the first, then reversed. */
  method DroppedQueries(ms: seq<Message>, stop: int) returns (dropped: seq<string>)
    requires -1 <= stop < |ms|
    ensures dropped == Queries(Users(ms, stop + 1))
  {
    dropped := [];
    var j := stop;
    while j >= 0
      invariant -1 <= j <= stop
      invariant Queries(Users(ms, stop + 1)) == Queries(Users(ms, j + 1)) + Reverse(dropped)
    {
      if ms[j].role == User {
        QueriesSnoc(Users(ms, j), ms[j]);
        ReverseSnoc(dropped, Query(ms[j]));
        dropped := dropped + [Query(ms[j])];
      }
      j := j - 1;
    }
    dropped := Reverse(dropped);
  }

  lemma {:induction false} QueriesSnoc(users: seq<Message>, m: Message)
    ensures Queries(users + [m]) == Queries(users) + [Query(m)]
  {
  }

  lemma {:induction false} ReverseSnoc(qs: seq<string>, q: string)
    ensures Reverse(qs + [q]) == [q] + Reverse(qs)
  {
    if qs != [] {
      assert (qs + [q])[1..] == qs[1..] + [q];
      ReverseSnoc(qs[1..], q);
    }
  }

  method BothPasses(est: string -> nat, s: Settings, ms: seq<Message>, at: nat, ghost a: Collected, ghost b: Collected)
    returns (before: seq<Message>, stop: int, after: seq<Message>)
    requires at < |ms| && a == After(est, s, ms, at) && b == Before(est, s, ms, at)
    ensures after == Messages(a.picks) && before == Messages(b.picks) && stop == b.stop && -1 <= stop < at
  {
    var i: int, total: nat;
    var start: int := at;
    after, i, total := CollectBackwards(est, s, ms, at + 1, |ms| - 1, Tokens(est, ms[at]), a);
    before, stop, total := CollectBackwards(est, s, ms, 0, start - 1, total, b);
  }

  /** The case of a latest user message within the budget. */
  method AroundAnchor(est: string -> nat, s: Settings, ms: seq<Message>, at: nat)
    returns (kept: seq<Message>, dropped: seq<string>)
    requires at < |ms| && Tokens(est, ms[at]) <= s.budget
    ensures var plan := MakePlan(est, s, ms, at);
            kept == Messages(plan.before) + [plan.anchor] + Messages(plan.after)
              && dropped == LastTen(Queries(plan.dropped))
  {
    var before, stop, after := BothPasses(est, s, ms, at, After(est, s, ms, at), Before(est, s, ms, at));
    dropped := DroppedQueries(ms, stop);
    kept := before + [ms[at]];
    kept := kept + after;
    dropped := LastTen(dropped);
  }

  /** `trim_messages`. */
  method Run(est: string -> nat, s: Settings, messages: seq<Message>)
    returns (trimmed: seq<Message>, summary: string, dropped: seq<string>)
    ensures (trimmed, summary, dropped) == Trim(est, s, messages)
  {
    if messages == [] {
      return [], "", [];
    }
    var system, ms := SystemOnly(messages), WithoutSystem(messages);
    if ms == [] {
      assert system + ms == system;
      return system, "", [];
    }
    var latest := LatestUserIndex(ms);
    if latest.None? {
      return system + ms, "", [];
    }
    var anchor := ms[latest.value];
    if Tokens(est, anchor) > s.budget {
      var truncated := Take(Text(anchor), s.budget * 2);
      anchor := Message(anchor.role, Some(truncated + ELLIPSIS + MARK), None, None, None);
      assert Queries([]) == [] && Messages([]) == [];
      assert system + [] + [anchor] + [] == system + [anchor];
      return system + [anchor], "", [];
    }
    var kept: seq<Message>;
    kept, dropped := AroundAnchor(est, s, ms, latest.value);
    summary := if dropped != [] then Join(dropped) else "";
    trimmed := system + kept;
    TrimIs(est, s, messages, latest.value, MakePlan(est, s, ms, latest.value));
  }
}
