/**
  Tool calls and their results under trimming: which answers to an assistant message stay in the
  conversation, and when the message that asked for them does.
*/
module TrimPairs {
  import opened Wrappers
  import opened TrimMessages

  /** What a tool result counts when the pass reaches it with `total`. */
  function ToolCost(est: string -> nat, s: Settings, m: Message, total: nat): nat {
    if Tokens(est, m) + total > s.budget then CutCost(est, s, m) else Tokens(est, m)
  }

  /** The count with which a pass that enters a run of tool results at `i` comes to `j`; from the budget on it stays. */
  function Reaching(est: string -> nat, s: Settings, ms: seq<Message>, i: nat, total: nat, j: nat): nat
    requires j <= i < |ms|
    decreases i - j
  {
    if j == i || total >= s.budget then total
    else Reaching(est, s, ms, i - 1, total + ToolCost(est, s, ms[i], total), j)
  }

  /** An assistant message and the tool results that answer its calls, up to `i`. */
  predicate Block(ms: seq<Message>, a: nat, i: nat) {
    a < i < |ms| && ms[a].role == Assistant && forall k :: a < k <= i ==> ms[k].role == Tool
  }

  /** The pass that started at `start` comes to `i` with the count `t`. */
  predicate Visits(est: string -> nat, s: Settings, ms: seq<Message>, lo: nat, start: int, total: nat, i: nat, t: nat)
    requires lo - 1 <= start < |ms|
    decreases start + 1 - lo
  {
    (start == i && total == t)
    || match NextRound(est, s, ms, lo, start, total)
       case Halt => false
       case Go(next, _, total') => i <= next && Visits(est, s, ms, lo, next, total', i, t)
  }

  lemma {:induction false} VisitedSuffix(est: string -> nat, s: Settings, ms: seq<Message>, lo: nat, start: int,
                                         total: nat, i: nat, t: nat, at: nat)
    requires lo - 1 <= start < |ms| && Visits(est, s, ms, lo, start, total, i, t) && at <= i
    ensures lo - 1 <= i <= start
    ensures Picked(Collect(est, s, ms, lo, start, total).picks, at) <==> Picked(Collect(est, s, ms, lo, i, t).picks, at)
    decreases start + 1 - lo
  {
    if !(start == i && total == t) {
      var round := NextRound(est, s, ms, lo, start, total);
      RoundIsFaithful(est, s, ms, lo, start, total);
      VisitedSuffix(est, s, ms, lo, round.next, round.total, i, t, at);
      PickedInSum(Collect(est, s, ms, lo, round.next, round.total).picks, round.picks, at);
    }
  }

  /** A tool result that is not right after its assistant message is a round of its own. */
  lemma {:induction false} ToolRound(est: string -> nat, s: Settings, ms: seq<Message>, lo: nat, i: nat, total: nat)
    requires lo < i < |ms| && total < s.budget && ms[i].role == Tool && ms[i - 1].role == Tool
    ensures var round := NextRound(est, s, ms, lo, i, total);
            && round.Go? && round.next == i - 1 && round.total == total + ToolCost(est, s, ms[i], total)
            && |round.picks| == 1 && round.picks[0].at == i
  {
  }

  /** The first answer is counted with `first` before it, and the message with its call still fits after it. */
  predicate CallFits(est: string -> nat, s: Settings, ms: seq<Message>, a: nat, first: nat)
    requires a + 1 < |ms|
  {
    first < s.budget && first + ToolCost(est, s, ms[a + 1], first) + Tokens(est, ms[a]) <= s.budget
  }

  /** Below it such a round changes nothing but the count. */
  lemma {:induction false} PastToolRound(est: string -> nat, s: Settings, ms: seq<Message>, lo: nat, i: nat, total: nat,
                                         at: nat)
    requires lo < i < |ms| && total < s.budget && ms[i].role == Tool && ms[i - 1].role == Tool
    ensures var picks := Collect(est, s, ms, lo, i, total).picks;
            var below := Collect(est, s, ms, lo, i - 1, total + ToolCost(est, s, ms[i], total)).picks;
            Picked(picks, at) <==> at == i || Picked(below, at)
  {
    ToolRound(est, s, ms, lo, i, total);
    var round := NextRound(est, s, ms, lo, i, total);
    PickedInSum(Collect(est, s, ms, lo, i - 1, round.total).picks, round.picks, at);
  }

  /** The round of the first answer decides on the call. */
  lemma {:induction false} FirstAnswerRound(est: string -> nat, s: Settings, ms: seq<Message>, lo: nat, a: nat,
                                            total: nat)
    requires lo <= a && a + 1 < |ms| && ms[a].role == Assistant && ms[a + 1].role == Tool
    ensures var picks := Collect(est, s, ms, lo, a + 1, total).picks;
            && (Picked(picks, a + 1) <==> total < s.budget)
            && (Picked(picks, a) <==> CallFits(est, s, ms, a, total))
  {
    if total < s.budget {
      var round := NextRound(est, s, ms, lo, a + 1, total);
      var rest := Collect(est, s, ms, lo, round.next, round.total);
      CollectIsFaithful(est, s, ms, lo, round.next, round.total, rest);
      PickedInSum(rest.picks, round.picks, a + 1);
      PickedInSum(rest.picks, round.picks, a);
      assert round.picks[|round.picks| - 1].at == a + 1;
      if |round.picks| == 2 {
        assert round.picks[0].at == a;
      }
    }
  }

  /**
    Main result, for a block of answers that the pass comes to with the count `t`: an answer is kept
    if and only if the count is below the budget when the pass reaches it, and the message with the
    calls if and only if the count is below the budget at the first answer and both still fit.
    So answers are kept without their call in just the other cases.
  */
  lemma {:induction false} BlockIsKeptIff(est: string -> nat, s: Settings, ms: seq<Message>, lo: nat, start: int,
                                          total: nat, a: nat, i: nat, t: nat, k: nat)
    requires lo - 1 <= start < |ms| && lo <= a && Block(ms, a, i) && a < k <= i
    requires Visits(est, s, ms, lo, start, total, i, t)
    ensures var picks := Collect(est, s, ms, lo, start, total).picks;
            var first := Reaching(est, s, ms, i, t, a + 1);
            && (Picked(picks, k) <==> Reaching(est, s, ms, i, t, k) < s.budget)
            && (Picked(picks, a) <==> CallFits(est, s, ms, a, first))
  {
    VisitedSuffix(est, s, ms, lo, start, total, i, t, k);
    VisitedSuffix(est, s, ms, lo, start, total, i, t, a);
    var picks := Collect(est, s, ms, lo, i, t).picks;
    AnswersKept(est, s, ms, lo, a, i, t, k, picks);
    CallKept(est, s, ms, lo, a, i, t, Reaching(est, s, ms, i, t, a + 1));
  }

  /** The count only grows on the way down. */
  lemma {:induction false} ReachingGrows(est: string -> nat, s: Settings, ms: seq<Message>, i: nat, total: nat, k: nat,
                                         j: nat)
    requires j <= k <= i < |ms|
    ensures Reaching(est, s, ms, i, total, k) <= Reaching(est, s, ms, i, total, j)
    ensures total <= Reaching(est, s, ms, i, total, k)
    decreases i
  {
    if k < i && total < s.budget {
      ReachingGrows(est, s, ms, i - 1, total + ToolCost(est, s, ms[i], total), k, j);
    } else if k == i && j < i && total < s.budget {
      ReachingGrows(est, s, ms, i - 1, total + ToolCost(est, s, ms[i], total), i - 1, j);
    }
  }

  /** So of the promise of complete pairs one half holds: a message with calls that is kept has all its answers. */
  lemma {:induction false} KeptCallHasItsAnswers(est: string -> nat, s: Settings, ms: seq<Message>, lo: nat, start: int,
                                                 total: nat, a: nat, i: nat, t: nat)
    requires lo - 1 <= start < |ms| && lo <= a && Block(ms, a, i)
    requires Visits(est, s, ms, lo, start, total, i, t)
    requires Picked(Collect(est, s, ms, lo, start, total).picks, a)
    ensures forall k :: a < k <= i ==> Picked(Collect(est, s, ms, lo, start, total).picks, k)
  {
    forall k | a < k <= i ensures Picked(Collect(est, s, ms, lo, start, total).picks, k) {
      BlockIsKeptIff(est, s, ms, lo, start, total, a, i, t, k);
      ReachingGrows(est, s, ms, i, t, k, a + 1);
    }
  }

  lemma {:induction false} AnswersKept(est: string -> nat, s: Settings, ms: seq<Message>, lo: nat, a: nat, i: nat,
                                       total: nat, k: nat, picks: seq<Pick>)
    requires lo <= a && Block(ms, a, i) && a < k <= i && picks == Collect(est, s, ms, lo, i, total).picks
    ensures Picked(picks, k) <==> Reaching(est, s, ms, i, total, k) < s.budget
    decreases i
  {
    if i == a + 1 {
      FirstAnswerRound(est, s, ms, lo, a, total);
    } else if total < s.budget {
      var t := total + ToolCost(est, s, ms[i], total);
      PastToolRound(est, s, ms, lo, i, total, k);
      if k < i {
        AnswersKept(est, s, ms, lo, a, i - 1, t, k, Collect(est, s, ms, lo, i - 1, t).picks);
      }
    }
  }

  lemma {:induction false} FullKeepsNothing(est: string -> nat, s: Settings, ms: seq<Message>, lo: nat, i: nat,
                                            total: nat, at: nat)
    requires i < |ms| && lo <= i + 1 && total >= s.budget
    ensures !Picked(Collect(est, s, ms, lo, i, total).picks, at)
  {
  }

  /** One answer less: the count and the call's fate are those of the shorter block. */
  lemma {:induction false} ReachingStep(est: string -> nat, s: Settings, ms: seq<Message>, a: nat, i: nat, total: nat)
    requires Block(ms, a, i) && i > a + 1 && total < s.budget
    ensures Block(ms, a, i - 1) && ms[i].role == Tool && ms[i - 1].role == Tool
    ensures Reaching(est, s, ms, i, total, a + 1)
            == Reaching(est, s, ms, i - 1, total + ToolCost(est, s, ms[i], total), a + 1)
  {
  }

  lemma {:induction false} CallKept(est: string -> nat, s: Settings, ms: seq<Message>, lo: nat, a: nat, i: nat,
                                    total: nat, first: nat)
    requires lo <= a && Block(ms, a, i) && first == Reaching(est, s, ms, i, total, a + 1)
    ensures Picked(Collect(est, s, ms, lo, i, total).picks, a) <==> CallFits(est, s, ms, a, first)
    decreases i
  {
    if i == a + 1 {
      FirstAnswerRound(est, s, ms, lo, a, total);
    } else if total < s.budget {
      ReachingStep(est, s, ms, a, i, total);
      CallKept(est, s, ms, lo, a, i - 1, total + ToolCost(est, s, ms[i], total), first);
      PastToolRound(est, s, ms, lo, i, total, a);
    } else {
      FullKeepsNothing(est, s, ms, lo, i, total, a);
    }
  }

  // Single messages

  lemma {:induction false} PlainRound(est: string -> nat, s: Settings, ms: seq<Message>, lo: nat, i: nat, total: nat)
    requires lo <= i < |ms| && ms[i].role != Tool
    ensures Picked(Collect(est, s, ms, lo, i, total).picks, i)
            <==> total < s.budget && total + Tokens(est, ms[i]) <= s.budget
    ensures !Picked(Collect(est, s, ms, lo, i, total).picks, i) ==> Collect(est, s, ms, lo, i, total).picks == []
  {
    if total < s.budget && total + Tokens(est, ms[i]) <= s.budget {
      var round := NextRound(est, s, ms, lo, i, total);
      assert round == Go(i - 1, [Pick(i, ms[i])], total + Tokens(est, ms[i]));
      PickedInSum(Collect(est, s, ms, lo, i - 1, round.total).picks, round.picks, i);
      assert round.picks[0].at == i;
    }
  }

  /**
    A message that is no tool result and that the pass comes to with the count `t` is kept if and only if
    it still fits, and with one that does not the pass ends: nothing before it is kept either.
  */
  lemma {:induction false} PlainIsKeptIff(est: string -> nat, s: Settings, ms: seq<Message>, lo: nat, start: int,
                                          total: nat, i: nat, t: nat, at: nat)
    requires lo - 1 <= start < |ms| && lo <= i < |ms| && ms[i].role != Tool && at <= i
    requires Visits(est, s, ms, lo, start, total, i, t)
    ensures var picks := Collect(est, s, ms, lo, start, total).picks;
            && (Picked(picks, i) <==> t < s.budget && t + Tokens(est, ms[i]) <= s.budget)
            && (!Picked(picks, i) ==> !Picked(picks, at))
  {
    VisitedSuffix(est, s, ms, lo, start, total, i, t, i);
    VisitedSuffix(est, s, ms, lo, start, total, i, t, at);
    PlainRound(est, s, ms, lo, i, t);
  }

  /** What is sent of a tool result: of a text that is too long, or that does not fit, its beginning and a mark. */
  predicate IsSentResult(est: string -> nat, s: Settings, m: Message, t: nat, copy: Message) {
    var text := if m.content == None then "" else m.content.value;
    && copy.role == Tool && copy.toolCalls == None && copy.toolCallId == m.toolCallId && copy.name == m.name
    && if |text| <= s.maxToolChars && t + Tokens(est, m) <= s.budget then copy.content == m.content
       else copy.content == Some((if |text| <= s.maxToolChars then text else text[..s.maxToolChars]) + "[truncated]")
  }

  predicate Sends(picks: seq<Pick>, at: nat, m: Message) {
    exists k :: 0 <= k < |picks| && picks[k].at == at && picks[k].message == m
  }

  /** A tool result that the pass comes to below the budget is sent, whole or cut. */
  lemma {:induction false} ResultIsSent(est: string -> nat, s: Settings, ms: seq<Message>, lo: nat, i: nat, t: nat)
    returns (copy: Message)
    requires lo <= i < |ms| && ms[i].role == Tool && t < s.budget
    ensures IsSentResult(est, s, ms[i], t, copy)
    ensures Sends(Collect(est, s, ms, lo, i, t).picks, i, copy)
  {
    var m := ms[i];
    copy := if Tokens(est, m) + t > s.budget then Cut(s, m) else Shorten(s, m);
    var round := NextRound(est, s, ms, lo, i, t);
    var rest := Collect(est, s, ms, lo, round.next, round.total).picks;
    var last := |round.picks| - 1;
    assert round.picks[last] == Pick(i, copy);
    assert (rest + round.picks)[|rest| + last] == Pick(i, copy);
  }

  lemma {:induction false} NoSystem(ms: seq<Message>)
    requires forall m :: m in ms ==> m.role != System
    ensures WithoutSystem(ms) == ms && SystemOnly(ms) == []
  {
    if ms != [] {
      NoSystem(ms[1..]);
      assert ms == [ms[0]] + ms[1..];
    }
  }

  /** The pass over the two answers takes the later one, fills the budget with it, and ends. */
  lemma {:induction false} LastAnswerFills(s: Settings, ms: seq<Message>)
    requires s == Settings(3, 100) && |ms| == 4 && ms[2].role == Tool && ms[3].role == Tool
             && Tokens(Fallback, ms[3]) == 2
    ensures Collect(Fallback, s, ms, 1, 3, 1) == Collected(2, [Pick(3, Shorten(s, ms[3]))], 3)
  {
    assert NextRound(Fallback, s, ms, 1, 3, 1) == Go(2, [Pick(3, Shorten(s, ms[3]))], 3);
    assert NextRound(Fallback, s, ms, 1, 2, 3) == Halt;
    assert [] + [Pick(3, Shorten(s, ms[3]))] == [Pick(3, Shorten(s, ms[3]))];
  }

  /** A question, a message with calls and two answers. */
  predicate TwoAnswers(ms: seq<Message>) {
    && |ms| == 4 && ms[0].role == User && ms[1].role == Assistant && ms[2].role == Tool && ms[3].role == Tool
    && ms[0].content == Some("q") && ms[1].content == None && ms[3].content == Some("yyyy")
  }

  /**
    With the fallback estimate the later answer fills the budget: it is sent alone, although its call,
    which costs nothing here, would still fit.
  */
  lemma {:induction false} AnswerWithoutItsCall(ms: seq<Message>)
    requires TwoAnswers(ms)
    ensures Tokens(Fallback, ms[1]) == 0
    ensures Trim(Fallback, Settings(3, 100), ms) == ([ms[0], Shorten(Settings(3, 100), ms[3])], "", [])
  {
    var s := Settings(3, 100);
    NoSystem(ms);
    assert |"yyyy"| == 4 && Fallback("yyyy") == 2;
    assert LatestUser(ms) == Some(0);
    var plan := MakePlan(Fallback, s, ms, 0);
    LastAnswerFills(s, ms);
    assert Before(Fallback, s, ms, 0) == Collected(-1, [], 3);
    assert plan == Plan([], ms[0], [Pick(3, Shorten(s, ms[3]))], [], 3);
    TrimIs(Fallback, s, ms, 0, plan);
    assert Messages([]) == [] && Messages([Pick(3, Shorten(s, ms[3]))]) == [Shorten(s, ms[3])];
    assert Queries([]) == [] && Join([]) == "";
    assert SystemOnly(ms) + ([] + [ms[0]] + [Shorten(s, ms[3])]) == [ms[0], Shorten(s, ms[3])];
  }
}
