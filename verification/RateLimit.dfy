/**
  The in-memory sliding windows of the rate limiter: one window a client, and one for each
  (path, client, identity) on sensitive paths. Times come from a clock that does not run backwards.
*/
module RateLimit {

  datatype Rule = Rule(limit: int, window: real)

  datatype Config = Config(everywhere: Rule, sensitive: map<string, Rule>)

  /** `identity` stands for the first 20 hex digits of the hash of the authorization header. */
  datatype Request = Request(http: bool, method_: string, path: string, client: string, identity: string, now: real)

  datatype Outcome = Unlimited | Accepted | SensitiveLimited | Limited

  datatype State = State(windows: map<string, seq<real>>, sensitive: map<string, seq<real>>)

  const SKIPPED_PATH := "/api/health"
  const IDENTITY_LENGTH := 20

  /** Old entries leave from the front, up to the first that is not old. */
  function Pruned(window: seq<real>, cutoff: real): seq<real> {
    if window != [] && window[0] < cutoff then Pruned(window[1..], cutoff) else window
  }

  function Window(windows: map<string, seq<real>>, key: string): seq<real> {
    if key in windows then windows[key] else []
  }

  /** One window: whether it takes the request, and what it keeps. */
  function Admit(rule: Rule, window: seq<real>, now: real): (bool, seq<real>) {
    var kept := Pruned(window, now - rule.window);
    if |kept| >= rule.limit then (false, kept) else (true, kept + [now])
  }

  function Bucket(path: string, client: string, identity: string): string {
    "sensitive:" + path + ":" + client + ":" + identity
  }

  predicate Skipped(r: Request) {
    !r.http || r.path == SKIPPED_PATH || r.method_ == "OPTIONS"
  }

  predicate Sensitive(c: Config, r: Request) {
    !Skipped(r) && r.method_ == "POST" && r.path in c.sensitive
  }

  /** A sensitive request passes its own window first; only then the client's window sees it. */
  function Handle(c: Config, s: State, r: Request): (State, Outcome) {
    if Skipped(r) then (s, Unlimited)
    else if Sensitive(c, r) then
      var bucket := Bucket(r.path, r.client, r.identity);
      var own := Admit(c.sensitive[r.path], Window(s.sensitive, bucket), r.now);
      var s' := s.(sensitive := s.sensitive[bucket := own.1]);
      if own.0 then HandleEverywhere(c, s', r) else (s', SensitiveLimited)
    else HandleEverywhere(c, s, r)
  }

  function HandleEverywhere(c: Config, s: State, r: Request): (State, Outcome) {
    var all := Admit(c.everywhere, Window(s.windows, r.client), r.now);
    (s.(windows := s.windows[r.client := all.1]), if all.0 then Accepted else Limited)
  }

  // Runs

  function Last<T>(s: seq<T>): T
    requires s != []
  {
    s[|s| - 1]
  }

  function Front<T>(s: seq<T>): seq<T>
    requires s != []
  {
    s[..|s| - 1]
  }

  function Run(c: Config, rs: seq<Request>): State
    decreases |rs|
  {
    if rs == [] then State(map[], map[]) else Handle(c, Run(c, Front(rs)), Last(rs)).0
  }

  function LastOutcome(c: Config, rs: seq<Request>): Outcome
    requires rs != []
  {
    Handle(c, Run(c, Front(rs)), Last(rs)).1
  }

  /** When the client's requests that went through to the application came in. */
  function History(c: Config, rs: seq<Request>, client: string): seq<real>
    decreases |rs|
  {
    if rs == [] then []
    else if Last(rs).client == client && LastOutcome(c, rs) == Accepted then
      History(c, Front(rs), client) + [Last(rs).now]
    else History(c, Front(rs), client)
  }

  predicate Mine(c: Config, r: Request, path: string, client: string, identity: string) {
    Sensitive(c, r) && r.path == path && r.client == client && r.identity == identity
  }

  /**
    When the sensitive requests that their own window took came in. A request that the client's
    window then refuses is one of them.
  */
  function SensitiveHistory(c: Config, rs: seq<Request>, path: string, client: string, identity: string): seq<real>
    decreases |rs|
  {
    if rs == [] then []
    else if Mine(c, Last(rs), path, client, identity) && LastOutcome(c, rs) != SensitiveLimited then
      SensitiveHistory(c, Front(rs), path, client, identity) + [Last(rs).now]
    else SensitiveHistory(c, Front(rs), path, client, identity)
  }

  predicate InOrder(rs: seq<Request>) {
    forall i, j :: 0 <= i < j < |rs| ==> rs[i].now <= rs[j].now
  }

  /** How many times fall in a closed interval. */
  function Count(times: seq<real>, from: real, to: real): nat
    decreases |times|
  {
    if times == [] then 0
    else Count(Front(times), from, to) + if from <= Last(times) <= to then 1 else 0
  }

  /** The times from a point on, in order. */
  function Since(times: seq<real>, from: real): seq<real>
    decreases |times|
  {
    if times == [] then []
    else if Last(times) >= from then Since(Front(times), from) + [Last(times)]
    else Since(Front(times), from)
  }

  function Allowed(rule: Rule): nat {
    if rule.limit > 0 then rule.limit else 0
  }

  // One window

  predicate Sorted(times: seq<real>, now: real) {
    && (forall i, j :: 0 <= i < j < |times| ==> times[i] <= times[j])
    && (forall i :: 0 <= i < |times| ==> times[i] <= now)
  }

  /** Any entry and the one `Allowed` places on are more than a window apart. */
  ghost predicate Spaced(rule: Rule, times: seq<real>) {
    forall i, j :: 0 <= i && j == i + Allowed(rule) && j < |times| ==> times[i] < times[j] - rule.window
  }

  /** The window is a suffix of the history, and what it has dropped is out of date. */
  ghost predicate Tracks(rule: Rule, window: seq<real>, history: seq<real>, now: real) {
    && Sorted(history, now)
    && Spaced(rule, history)
    && |window| <= |history|
    && window == history[|history| - |window|..]
    && forall i :: 0 <= i < |history| - |window| ==> history[i] < now - rule.window
  }

  lemma {:induction false} PrunedIsSuffix(window: seq<real>, cutoff: real)
    ensures var kept := Pruned(window, cutoff);
            && |kept| <= |window|
            && kept == window[|window| - |kept|..]
            && (forall i :: 0 <= i < |window| - |kept| ==> window[i] < cutoff)
            && (kept != [] ==> kept[0] >= cutoff)
  {
    if window != [] && window[0] < cutoff {
      PrunedIsSuffix(window[1..], cutoff);
    }
  }

  lemma {:induction false} CountSuffix(times: seq<real>, cut: nat, from: real, to: real)
    requires cut <= |times|
    requires forall i :: 0 <= i < cut ==> times[i] < from
    requires forall i :: cut <= i < |times| ==> from <= times[i] <= to
    ensures Count(times, from, to) == |times| - cut
    decreases |times|
  {
    if times != [] {
      CountSuffix(Front(times), if cut < |times| then cut else cut - 1, from, to);
    }
  }

  lemma {:induction false} CountPrefix(times: seq<real>, k: nat, from: real, to: real)
    requires k <= |times|
    ensures Count(times, from, to) <= Count(times[..k], from, to) + |times| - k
    decreases |times|
  {
    if k < |times| {
      assert Front(times)[..k] == times[..k];
      CountPrefix(Front(times), k, from, to);
    } else {
      assert times[..k] == times;
    }
  }

  /** The interval ends at or after the last entry: what came more than `Allowed` places before it is outside. */
  lemma {:induction false} SpacedBoundsCountAtLast(rule: Rule, times: seq<real>, now: real, from: real)
    requires Sorted(times, now) && Spaced(rule, times) && times != []
    requires from <= Last(times) <= from + rule.window
    ensures Count(times, from, from + rule.window) <= Allowed(rule)
  {
    var keep := if |times| <= Allowed(rule) then 0 else |times| - Allowed(rule);
    if keep > 0 {
      assert times[keep - 1] < times[keep - 1 + Allowed(rule)] - rule.window;
      CountSuffix(times[..keep], keep, from, from + rule.window);
    }
    CountPrefix(times, keep, from, from + rule.window);
  }

  lemma {:induction false} SpacedBoundsCount(rule: Rule, times: seq<real>, now: real, from: real)
    requires Sorted(times, now) && Spaced(rule, times)
    ensures Count(times, from, from + rule.window) <= Allowed(rule)
    decreases |times|
  {
    if times != [] {
      if from <= Last(times) <= from + rule.window {
        SpacedBoundsCountAtLast(rule, times, now, from);
      } else {
        SpacedBoundsCount(rule, Front(times), now, from);
      }
    }
  }

  lemma {:induction false} SinceIsSuffix(times: seq<real>, cut: nat, from: real)
    requires cut <= |times|
    requires forall i :: 0 <= i < cut ==> times[i] < from
    requires forall i :: cut <= i < |times| ==> from <= times[i]
    ensures Since(times, from) == times[cut..]
    decreases |times|
  {
    if times != [] {
      if cut < |times| {
        SinceIsSuffix(Front(times), cut, from);
        assert times[cut..] == Front(times)[cut..] + [Last(times)];
      } else {
        SinceIsSuffix(Front(times), cut - 1, from);
      }
    }
  }

  lemma {:induction false} PrunedSplits(rule: Rule, window: seq<real>, history: seq<real>, now: real)
    requires Tracks(rule, window, history, now)
    ensures var kept := Pruned(window, now - rule.window);
            var cut := |history| - |kept|;
            && cut >= 0 && kept == history[cut..]
            && (forall i :: 0 <= i < cut ==> history[i] < now - rule.window)
            && (forall i :: cut <= i < |history| ==> now - rule.window <= history[i] <= now)
  {
    var kept := Pruned(window, now - rule.window);
    PrunedIsSuffix(window, now - rule.window);
    assert kept == history[|history| - |kept|..];
    assert kept != [] ==> kept[0] == history[|history| - |kept|];
  }

  lemma {:induction false} PrunedTracks(rule: Rule, window: seq<real>, history: seq<real>, now: real)
    requires Tracks(rule, window, history, now)
    ensures Tracks(rule, Pruned(window, now - rule.window), history, now)
    ensures |Pruned(window, now - rule.window)| == Count(history, now - rule.window, now)
  {
    PrunedSplits(rule, window, history, now);
    CountSuffix(history, |history| - |Pruned(window, now - rule.window)|, now - rule.window, now);
  }

  lemma {:induction false} PrunedIsSince(rule: Rule, window: seq<real>, history: seq<real>, now: real)
    requires Tracks(rule, window, history, now)
    ensures Pruned(window, now - rule.window) == Since(history, now - rule.window)
  {
    PrunedSplits(rule, window, history, now);
    SinceIsSuffix(history, |history| - |Pruned(window, now - rule.window)|, now - rule.window);
  }

  lemma {:induction false} AdmitIsSince(rule: Rule, window: seq<real>, history: seq<real>, now: real)
    requires Tracks(rule, window, history, now) && rule.window >= 0.0
    ensures Admit(rule, window, now).1
            == Since(if Admit(rule, window, now).0 then history + [now] else history, now - rule.window)
  {
    PrunedIsSince(rule, window, history, now);
    SinceSnoc(history, now, now - rule.window);
  }

  lemma {:induction false} SinceSnoc(times: seq<real>, t: real, from: real)
    requires t >= from
    ensures Since(times + [t], from) == Since(times, from) + [t]
  {
    assert Front(times + [t]) == times;
  }

  lemma {:induction false} ExtendedTracks(rule: Rule, kept: seq<real>, history: seq<real>, now: real)
    requires Tracks(rule, kept, history, now) && |kept| < rule.limit
    ensures Tracks(rule, kept + [now], history + [now], now)
  {
  }

  lemma {:induction false} TracksLater(rule: Rule, window: seq<real>, history: seq<real>, now: real, later: real)
    requires Tracks(rule, window, history, now) && now <= later
    ensures Tracks(rule, window, history, later)
  {
  }

  /** A window takes a request exactly when its rule's interval still has room. */
  lemma {:induction false} AdmitIff(rule: Rule, window: seq<real>, history: seq<real>, now: real)
    requires Tracks(rule, window, history, now)
    ensures Admit(rule, window, now).0 <==> Count(history, now - rule.window, now) < rule.limit
  {
    PrunedTracks(rule, window, history, now);
  }

  lemma {:induction false} AdmitTracks(rule: Rule, window: seq<real>, history: seq<real>, now: real)
    requires Tracks(rule, window, history, now)
    ensures Tracks(rule, Admit(rule, window, now).1,
                   if Admit(rule, window, now).0 then history + [now] else history, now)
  {
    PrunedTracks(rule, window, history, now);
    if Admit(rule, window, now).0 {
      ExtendedTracks(rule, Pruned(window, now - rule.window), history, now);
    }
  }

  // The middleware

  /** No time of the run is later than `now`. */
  predicate UpTo(rs: seq<Request>, now: real) {
    forall r :: r in rs ==> r.now <= now
  }

  lemma {:induction false} FrontInOrder(rs: seq<Request>, now: real)
    requires rs != [] && InOrder(rs) && UpTo(rs, now)
    ensures InOrder(Front(rs)) && UpTo(Front(rs), Last(rs).now) && Last(rs).now <= now
  {
    assert Last(rs) in rs;
  }

  /** What one request does to a client's window. */
  lemma {:induction false} HandleWindow(c: Config, s: State, r: Request, client: string)
    ensures var (s', outcome) := Handle(c, s, r);
            var all := Admit(c.everywhere, Window(s.windows, client), r.now);
            if outcome in {Accepted, Limited} && r.client == client
            then Window(s'.windows, client) == all.1 && (all.0 <==> outcome == Accepted)
            else Window(s'.windows, client) == Window(s.windows, client)
  {
  }

  lemma {:induction false} WindowTracks(c: Config, rs: seq<Request>, client: string, now: real)
    requires InOrder(rs) && UpTo(rs, now)
    ensures Tracks(c.everywhere, Window(Run(c, rs).windows, client), History(c, rs, client), now)
    decreases |rs|
  {
    if rs != [] {
      var r := Last(rs);
      FrontInOrder(rs, now);
      WindowTracks(c, Front(rs), client, r.now);
      HandleWindow(c, Run(c, Front(rs)), r, client);
      AdmitTracks(c.everywhere, Window(Run(c, Front(rs)).windows, client), History(c, Front(rs), client), r.now);
      TracksLater(c.everywhere, Window(Run(c, rs).windows, client), History(c, rs, client), r.now, now);
    }
  }

  /**
    Main result. In every run, whatever other clients and sensitive paths do, any closed interval of
    the window's length holds at most the allowed number of a client's accepted requests.
  */
  lemma {:induction false} AcceptedWithinLimit(c: Config, rs: seq<Request>, client: string, from: real)
    requires InOrder(rs)
    ensures Count(History(c, rs, client), from, from + c.everywhere.window) <= Allowed(c.everywhere)
  {
    if rs != [] {
      WindowTracks(c, rs, client, Last(rs).now);
      SpacedBoundsCount(c.everywhere, History(c, rs, client), Last(rs).now, from);
    }
  }

  /** The answer to a request in terms of its client's history, if the window tracks that. */
  lemma {:induction false} AnswerFromHistory(c: Config, s: State, r: Request, history: seq<real>)
    requires Tracks(c.everywhere, Window(s.windows, r.client), history, r.now)
    requires Handle(c, s, r).1 == Accepted || Handle(c, s, r).1 == Limited
    ensures Handle(c, s, r).1 == Limited <==> Count(history, r.now - c.everywhere.window, r.now) >= c.everywhere.limit
    ensures c.everywhere.window >= 0.0 ==>
              Window(Handle(c, s, r).0.windows, r.client)
              == Since(if Handle(c, s, r).1 == Accepted then history + [r.now] else history,
                       r.now - c.everywhere.window)
  {
    HandleWindow(c, s, r, r.client);
    AdmitIff(c.everywhere, Window(s.windows, r.client), history, r.now);
    if c.everywhere.window >= 0.0 {
      AdmitIsSince(c.everywhere, Window(s.windows, r.client), history, r.now);
    }
  }

  /** A request that reaches its client's window is refused exactly when the preceding window is full. */
  lemma {:induction false} LimitedIff(c: Config, rs: seq<Request>, r: Request)
    requires InOrder(rs) && UpTo(rs, r.now)
    requires Handle(c, Run(c, rs), r).1 == Accepted || Handle(c, Run(c, rs), r).1 == Limited
    ensures Handle(c, Run(c, rs), r).1 == Limited
            <==> Count(History(c, rs, r.client), r.now - c.everywhere.window, r.now) >= c.everywhere.limit
  {
    WindowTracks(c, rs, r.client, r.now);
    AnswerFromHistory(c, Run(c, rs), r, History(c, rs, r.client));
  }

  lemma {:induction false} HistorySnoc(c: Config, rs: seq<Request>, r: Request)
    ensures History(c, rs + [r], r.client)
            == if Handle(c, Run(c, rs), r).1 == Accepted then History(c, rs, r.client) + [r.now]
              else History(c, rs, r.client)
  {
    assert Front(rs + [r]) == rs && Last(rs + [r]) == r;
  }

  /** After such a request the list kept is exactly the part of the history within the window, in order. */
  lemma {:induction false} KeptIsInWindowHistory(c: Config, rs: seq<Request>, r: Request)
    requires InOrder(rs) && UpTo(rs, r.now) && c.everywhere.window >= 0.0
    requires Handle(c, Run(c, rs), r).1 == Accepted || Handle(c, Run(c, rs), r).1 == Limited
    ensures Window(Handle(c, Run(c, rs), r).0.windows, r.client)
            == Since(History(c, rs + [r], r.client), r.now - c.everywhere.window)
  {
    WindowTracks(c, rs, r.client, r.now);
    HistorySnoc(c, rs, r);
    AnswerFromHistory(c, Run(c, rs), r, History(c, rs, r.client));
  }

  // Sensitive paths

  lemma {:induction false} SplitAtColon(p: string, rest: string, q: string, rest': string)
    requires ':' !in p && ':' !in q && p + ":" + rest == q + ":" + rest'
    ensures p == q && rest == rest'
  {
    var s := p + ":" + rest;
    assert s[0] == if p == "" then ':' else p[0];
    assert s[0] == if q == "" then ':' else q[0];
    if p != "" && q != "" {
      assert s[1..] == p[1..] + ":" + rest && s[1..] == q[1..] + ":" + rest';
      SplitAtColon(p[1..], rest, q[1..], rest');
    } else {
      assert rest == s[1..];
    }
  }

  /** Buckets of different paths, clients or identities are different, even where addresses hold colons. */
  lemma {:induction false} BucketsAreDistinct(p: string, client: string, identity: string, q: string, client': string,
                                              identity': string)
    requires ':' !in p && ':' !in q && |identity| == |identity'|
    requires Bucket(p, client, identity) == Bucket(q, client', identity')
    ensures p == q && client == client' && identity == identity'
  {
    var rest, rest' := client + ":" + identity, client' + ":" + identity';
    var prefix := "sensitive:";
    assert Bucket(p, client, identity) == prefix + (p + ":" + rest);
    assert Bucket(q, client', identity') == prefix + (q + ":" + rest');
    assert Bucket(p, client, identity)[|prefix|..] == p + ":" + rest;
    assert Bucket(q, client', identity')[|prefix|..] == q + ":" + rest';
    SplitAtColon(p, rest, q, rest');
    assert |client| == |client'|;
    assert client == rest[..|client|] && client' == rest'[..|client|];
    assert identity == rest[|client| + 1..] && identity' == rest'[|client| + 1..];
  }

  /** Configured paths hold no colon; identities are fixed-length digests. */
  predicate Keyed(c: Config, rs: seq<Request>) {
    (forall p :: p in c.sensitive ==> ':' !in p) && forall r :: r in rs ==> |r.identity| == IDENTITY_LENGTH
  }

  /** What one request does to the window of a bucket. */
  lemma {:induction false} HandleSensitive(c: Config, s: State, r: Request, path: string, client: string,
                                           identity: string)
    requires path in c.sensitive && (forall p :: p in c.sensitive ==> ':' !in p) && |r.identity| == |identity|
    ensures var (s', outcome) := Handle(c, s, r);
            var bucket := Bucket(path, client, identity);
            var own := Admit(c.sensitive[path], Window(s.sensitive, bucket), r.now);
            if Mine(c, r, path, client, identity)
            then Window(s'.sensitive, bucket) == own.1 && (own.0 <==> outcome != SensitiveLimited)
            else Window(s'.sensitive, bucket) == Window(s.sensitive, bucket)
  {
    if Sensitive(c, r) && Bucket(r.path, r.client, r.identity) == Bucket(path, client, identity) {
      BucketsAreDistinct(r.path, r.client, r.identity, path, client, identity);
    }
  }

  lemma {:induction false} SensitiveTracks(c: Config, rs: seq<Request>, path: string, client: string, identity: string,
                                           bucket: string, now: real)
    requires InOrder(rs) && UpTo(rs, now) && Keyed(c, rs) && path in c.sensitive && |identity| == IDENTITY_LENGTH
    requires bucket == Bucket(path, client, identity)
    ensures Tracks(c.sensitive[path], Window(Run(c, rs).sensitive, bucket),
                   SensitiveHistory(c, rs, path, client, identity), now)
    decreases |rs|
  {
    if rs != [] {
      var r := Last(rs);
      FrontInOrder(rs, now);
      SensitiveTracks(c, Front(rs), path, client, identity, bucket, r.now);
      HandleSensitive(c, Run(c, Front(rs)), r, path, client, identity);
      AdmitTracks(c.sensitive[path], Window(Run(c, Front(rs)).sensitive, bucket),
                  SensitiveHistory(c, Front(rs), path, client, identity), r.now);
      TracksLater(c.sensitive[path], Window(Run(c, rs).sensitive, bucket),
                  SensitiveHistory(c, rs, path, client, identity), r.now, now);
    }
  }

  /** The same bound for a sensitive path, client and identity, over that path's own window. */
  lemma {:induction false} SensitiveWithinLimit(c: Config, rs: seq<Request>, path: string, client: string,
                                                identity: string, from: real)
    requires InOrder(rs) && Keyed(c, rs) && path in c.sensitive && |identity| == IDENTITY_LENGTH
    ensures Count(SensitiveHistory(c, rs, path, client, identity), from, from + c.sensitive[path].window)
            <= Allowed(c.sensitive[path])
  {
    if rs != [] {
      SensitiveTracks(c, rs, path, client, identity, Bucket(path, client, identity), Last(rs).now);
      SpacedBoundsCount(c.sensitive[path], SensitiveHistory(c, rs, path, client, identity), Last(rs).now, from);
    }
  }

  lemma {:induction false} SensitiveAnswerFromHistory(c: Config, s: State, r: Request, bucket: string,
                                                      history: seq<real>)
    requires Sensitive(c, r) && bucket == Bucket(r.path, r.client, r.identity)
    requires Tracks(c.sensitive[r.path], Window(s.sensitive, bucket), history, r.now)
    ensures Handle(c, s, r).1 == SensitiveLimited
            <==> Count(history, r.now - c.sensitive[r.path].window, r.now) >= c.sensitive[r.path].limit
  {
    AdmitIff(c.sensitive[r.path], Window(s.sensitive, bucket), history, r.now);
  }

  lemma {:induction false} SensitiveLimitedIff(c: Config, rs: seq<Request>, r: Request)
    requires InOrder(rs) && UpTo(rs, r.now) && Keyed(c, rs) && Sensitive(c, r) && |r.identity| == IDENTITY_LENGTH
    ensures Handle(c, Run(c, rs), r).1 == SensitiveLimited
            <==> Count(SensitiveHistory(c, rs, r.path, r.client, r.identity), r.now - c.sensitive[r.path].window, r.now)
                 >= c.sensitive[r.path].limit
  {
    var bucket := Bucket(r.path, r.client, r.identity);
    SensitiveTracks(c, rs, r.path, r.client, r.identity, bucket, r.now);
    SensitiveAnswerFromHistory(c, Run(c, rs), r, bucket, SensitiveHistory(c, rs, r.path, r.client, r.identity));
  }

  predicate IsOwnFull(c: Config, rs: seq<Request>, r: Request) {
    && r.method_ == "POST" && r.path in c.sensitive
    && Count(SensitiveHistory(c, rs, r.path, r.client, r.identity), r.now - c.sensitive[r.path].window, r.now)
       >= c.sensitive[r.path].limit
  }

  predicate IsFull(c: Config, rs: seq<Request>, r: Request) {
    Count(History(c, rs, r.client), r.now - c.everywhere.window, r.now) >= c.everywhere.limit
  }

  /**
    Main result on answers: every HTTP request but a health check and an OPTIONS one is limited. A POST to a
    sensitive path is refused first if its own window is full; else any is refused if and only if the
    client's window is full.
  */
  lemma {:induction false} AnswerIs(c: Config, rs: seq<Request>, r: Request)
    requires InOrder(rs) && UpTo(rs, r.now) && Keyed(c, rs) && |r.identity| == IDENTITY_LENGTH
    ensures Handle(c, Run(c, rs), r).1
            == if !r.http || r.path == "/api/health" || r.method_ == "OPTIONS" then Unlimited
               else if IsOwnFull(c, rs, r) then SensitiveLimited
               else if IsFull(c, rs, r) then Limited else Accepted
  {
    if Sensitive(c, r) {
      SensitiveLimitedIff(c, rs, r);
    }
    var answer := Handle(c, Run(c, rs), r).1;
    if answer == Accepted || answer == Limited {
      LimitedIff(c, rs, r);
    }
  }

  /**
    A sensitive request that the client's window refuses has already used a place in its own: of the
    two histories only the sensitive one grows, and that is so for no other answer.
  */
  lemma {:induction false} RefusedRequestUsesASensitivePlace(c: Config, rs: seq<Request>, r: Request)
    requires Sensitive(c, r)
    ensures var before, after := SensitiveHistory(c, rs, r.path, r.client, r.identity),
                                 SensitiveHistory(c, rs + [r], r.path, r.client, r.identity);
            Handle(c, Run(c, rs), r).1 == Limited
            <==> after == before + [r.now] && History(c, rs + [r], r.client) == History(c, rs, r.client)
  {
    assert Front(rs + [r]) == rs;
  }

  /** So inside the window the next request meets one place less than the requests before them left. */
  lemma {:induction false} NextAfterRefusedRequest(c: Config, rs: seq<Request>, r: Request, next: Request)
    requires InOrder(rs + [r]) && UpTo(rs + [r], next.now) && Keyed(c, rs + [r]) && Keyed(c, [next])
    requires Sensitive(c, r) && Handle(c, Run(c, rs), r).1 == Limited && Mine(c, next, r.path, r.client, r.identity)
    requires next.now <= r.now + c.sensitive[r.path].window
    ensures var window := c.sensitive[r.path].window;
            Handle(c, Run(c, rs + [r]), next).1 == SensitiveLimited
            <==> Count(SensitiveHistory(c, rs, r.path, r.client, r.identity), next.now - window, next.now) + 1
                 >= c.sensitive[r.path].limit
  {
    RefusedRequestUsesASensitivePlace(c, rs, r);
    assert [next][0] == next && (rs + [r])[|rs|] == r;
    SensitiveLimitedIff(c, rs + [r], next);
    var before := SensitiveHistory(c, rs, r.path, r.client, r.identity);
    assert Front(before + [r.now]) == before;
  }

  function Repeat<T>(x: T, n: nat): seq<T> {
    seq(n, _ => x)
  }

  lemma {:induction false} RepeatSnoc<T>(x: T, n: nat)
    ensures Repeat(x, n + 1) == Repeat(x, n) + [x]
  {
  }

  lemma {:induction false} CountRepeat(now: real, n: nat, from: real)
    requires from <= now
    ensures Count(Repeat(now, n), from, now) == n
  {
    if n > 0 {
      RepeatSnoc(now, n - 1);
      assert Front(Repeat(now, n)) == Repeat(now, n - 1);
      CountRepeat(now, n - 1, from);
    }
  }

  /** At one moment a client sends harmless requests up to its limit, and after them a sensitive one again and again. */
  predicate Burst(c: Config, q: Request, r: Request) {
    && !Skipped(q) && !Sensitive(c, q) && Sensitive(c, r) && q.client == r.client && q.now == r.now
    && Keyed(c, [q]) && Keyed(c, [r])
    && c.everywhere.limit >= 0 && c.everywhere.window >= 0.0
    && c.sensitive[r.path].limit >= 0 && c.sensitive[r.path].window >= 0.0
  }

  function Requests(q: Request, n: nat, r: Request, m: nat): seq<Request> {
    Repeat(q, n) + Repeat(r, m)
  }

  /** Requests of one moment, of which the client's window took n and that of the sensitive path took m. */
  predicate Filled(c: Config, rs: seq<Request>, r: Request, n: nat, m: nat) {
    && (forall x :: x in rs ==> x.now == r.now) && Keyed(c, rs)
    && History(c, rs, r.client) == Repeat(r.now, n)
    && SensitiveHistory(c, rs, r.path, r.client, r.identity) == Repeat(r.now, m)
  }

  lemma {:induction false} HarmlessFills(c: Config, q: Request, r: Request, rs: seq<Request>, n: nat)
    requires Burst(c, q, r) && Filled(c, rs, r, n, 0) && n < c.everywhere.limit
    ensures Filled(c, rs + [q], r, n + 1, 0)
  {
    CountRepeat(q.now, n, q.now - c.everywhere.window);
    LimitedIff(c, rs, q);
    RepeatSnoc(r.now, n);
    assert Front(rs + [q]) == rs && [q][0] == q;
  }

  lemma {:induction false} FullAnswer(c: Config, q: Request, r: Request, rs: seq<Request>, n: nat, m: nat)
    requires Burst(c, q, r) && Filled(c, rs, r, n, m) && n == c.everywhere.limit && m <= c.sensitive[r.path].limit
    ensures Handle(c, Run(c, rs), r).1 == if m < c.sensitive[r.path].limit then Limited else SensitiveLimited
  {
    CountRepeat(r.now, m, r.now - c.sensitive[r.path].window);
    CountRepeat(r.now, n, r.now - c.everywhere.window);
    assert [r][0] == r;
    SensitiveLimitedIff(c, rs, r);
    if m < c.sensitive[r.path].limit {
      LimitedIff(c, rs, r);
    }
  }

  lemma {:induction false} RefusedFills(c: Config, r: Request, rs: seq<Request>, n: nat, m: nat)
    requires Sensitive(c, r) && Keyed(c, [r]) && Filled(c, rs, r, n, m) && Handle(c, Run(c, rs), r).1 == Limited
    ensures Filled(c, rs + [r], r, n, m + 1)
  {
    RefusedRequestUsesASensitivePlace(c, rs, r);
    RepeatSnoc(r.now, m);
    assert [r][0] == r;
  }

  lemma {:induction false} HarmlessBurst(c: Config, q: Request, n: nat, r: Request)
    requires Burst(c, q, r) && n <= c.everywhere.limit
    ensures Filled(c, Repeat(q, n), r, n, 0)
  {
    if n > 0 {
      HarmlessBurst(c, q, n - 1, r);
      HarmlessFills(c, q, r, Repeat(q, n - 1), n - 1);
      RepeatSnoc(q, n - 1);
    }
  }

  lemma {:induction false} BurstFills(c: Config, q: Request, n: nat, r: Request, m: nat)
    requires Burst(c, q, r) && n == c.everywhere.limit && m <= c.sensitive[r.path].limit
    ensures Filled(c, Requests(q, n, r, m), r, n, m)
  {
    if m == 0 {
      HarmlessBurst(c, q, n, r);
      assert Requests(q, n, r, 0) == Repeat(q, n);
    } else {
      var rs := Requests(q, n, r, m - 1);
      BurstFills(c, q, n, r, m - 1);
      FullAnswer(c, q, r, rs, n, m - 1);
      RefusedFills(c, r, rs, n, m - 1);
      RepeatSnoc(r, m - 1);
      assert Requests(q, n, r, m) == rs + [r];
    }
  }

  /**
    So in every configuration a sensitive window can be full although no sensitive request was ever
    accepted: those that the client's window refused have filled it.
  */
  lemma {:induction false} RefusalsFillASensitiveWindow(c: Config, q: Request, n: nat, r: Request, m: nat)
    requires Burst(c, q, r) && n == c.everywhere.limit && m == c.sensitive[r.path].limit
    ensures forall k: nat :: k < m ==> Handle(c, Run(c, Requests(q, n, r, k)), r).1 == Limited
    ensures Handle(c, Run(c, Requests(q, n, r, m)), r).1 == SensitiveLimited
  {
    forall k: nat | k < m ensures Handle(c, Run(c, Requests(q, n, r, k)), r).1 == Limited {
      BurstFills(c, q, n, r, k);
      FullAnswer(c, q, r, Requests(q, n, r, k), n, k);
    }
    BurstFills(c, q, n, r, m);
    FullAnswer(c, q, r, Requests(q, n, r, m), n, m);
  }

  // The middleware object

  class RateLimitMiddleware {
    const config: Config
    var windows: map<string, seq<real>>
    var sensitiveWindows: map<string, seq<real>>

    constructor (config: Config)
      ensures this.config == config && Value() == State(map[], map[])
    {
      this.config := config;
      windows, sensitiveWindows := map[], map[];
    }

    function Value(): State
      reads this
    {
      State(windows, sensitiveWindows)
    }

    /** `__call__` without Redis. */
    method Call(r: Request) returns (outcome: Outcome)
      modifies this
      ensures (Value(), outcome) == Handle(config, old(Value()), r)
    {
      if !r.http || r.path == SKIPPED_PATH || r.method_ == "OPTIONS" {
        return Unlimited;
      }
      if r.method_ == "POST" && r.path in config.sensitive {
        var rule, bucket := config.sensitive[r.path], Bucket(r.path, r.client, r.identity);
        var own := Window(sensitiveWindows, bucket);
        var cutoff := r.now - rule.window;
        while own != [] && own[0] < cutoff
          invariant Pruned(own, cutoff) == Pruned(Window(old(sensitiveWindows), bucket), cutoff)
          decreases |own|
        {
          own := own[1..];
        }
        var limited := |own| >= rule.limit;
        if !limited {
          own := own + [r.now];
        }
        sensitiveWindows := sensitiveWindows[bucket := own];
        if limited {
          return SensitiveLimited;
        }
      }
      var window := Window(windows, r.client);
      var cutoff := r.now - config.everywhere.window;
      while window != [] && window[0] < cutoff
        invariant Pruned(window, cutoff) == Pruned(Window(old(windows), r.client), cutoff)
        decreases |window|
      {
        window := window[1..];
      }
      if |window| >= config.everywhere.limit {
        windows := windows[r.client := window];
        return Limited;
      }
      windows := windows[r.client := window + [r.now]];
      return Accepted;
    }
  }
}
