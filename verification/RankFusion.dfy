/**
  Hybrid retrieval: reciprocal-rank fusion of a semantic and a keyword list, the cut to the best,
  the document filter and the removal of repeated texts. Scores are exact.
*/
module RankFusion {

  datatype Hit = Hit(chunk: string, document: string, text: string)

  datatype Source = Semantic | Keyword | Hybrid

  datatype Data = Data(document: string, text: string, source: Source)

  datatype Chunk = Chunk(id: string, document: string, text: string, score: real, source: Source)

  const RRF_K := 60
  const KEY_CHARS := 100

  function Reciprocal(rank: nat): real {
    1.0 / (RRF_K + rank) as real
  }

  // Scores

  predicate Occurs(hits: seq<Hit>, n: nat, id: string)
    requires n <= |hits|
  {
    exists k :: 0 <= k < n && hits[k].chunk == id
  }

  /** The semantic loop overwrites: the last rank counts. */
  function SemanticPart(hits: seq<Hit>, n: nat, id: string): real
    requires n <= |hits|
  {
    if n == 0 then 0.0
    else if hits[n - 1].chunk == id then Reciprocal(n)
    else SemanticPart(hits, n - 1, id)
  }

  /** The keyword loop adds: every rank counts. */
  function KeywordPart(hits: seq<Hit>, n: nat, id: string): real
    requires n <= |hits|
  {
    if n == 0 then 0.0
    else KeywordPart(hits, n - 1, id) + if hits[n - 1].chunk == id then Reciprocal(n) else 0.0
  }

  function Score(semantic: seq<Hit>, keyword: seq<Hit>, id: string): real {
    SemanticPart(semantic, |semantic|, id) + KeywordPart(keyword, |keyword|, id)
  }

  /** Ids in the order they are first seen, which is the order a dictionary lists its keys in. */
  function FirstSeen(hits: seq<Hit>, n: nat): seq<string>
    requires n <= |hits|
  {
    if n == 0 then []
    else
      var before := FirstSeen(hits, n - 1);
      if hits[n - 1].chunk in before then before else before + [hits[n - 1].chunk]
  }

  function Order(semantic: seq<Hit>, keyword: seq<Hit>): seq<string> {
    FirstSeen(semantic + keyword, |semantic| + |keyword|)
  }

  function Scores(semantic: seq<Hit>, keyword: seq<Hit>): map<string, real> {
    map id | id in Order(semantic, keyword) :: Score(semantic, keyword, id)
  }

  /** The data of the last hit wins; a chunk met before the keyword list's hit is labelled hybrid. */
  function Label(semantic: seq<Hit>, keyword: seq<Hit>, n: nat, id: string): Data
    requires n <= |semantic| + |keyword| && Occurs(semantic + keyword, n, id)
    decreases n
  {
    var hit := (semantic + keyword)[n - 1];
    if hit.chunk != id then Label(semantic, keyword, n - 1, id)
    else if n <= |semantic| then Data(hit.document, hit.text, Semantic)
    else if Occurs(semantic + keyword, n - 1, id) then Data(hit.document, hit.text, Hybrid)
    else Data(hit.document, hit.text, Keyword)
  }

  lemma {:induction false} FirstSeenHolds(hits: seq<Hit>, n: nat)
    requires n <= |hits|
    ensures forall id :: id in FirstSeen(hits, n) <==> Occurs(hits, n, id)
    ensures forall i, j :: 0 <= i < j < |FirstSeen(hits, n)| ==> FirstSeen(hits, n)[i] != FirstSeen(hits, n)[j]
  {
    if n > 0 {
      FirstSeenHolds(hits, n - 1);
      var last := hits[n - 1].chunk;
      assert Occurs(hits, n, last);
      assert forall id :: Occurs(hits, n, id) <==> Occurs(hits, n - 1, id) || id == last;
    }
  }

  // Distinct lists

  predicate Distinct(hits: seq<Hit>) {
    forall i, j :: 0 <= i < j < |hits| ==> hits[i].chunk != hits[j].chunk
  }

  /** What a list gives an id, by the place it is at: one over sixty plus the rank, or nothing. */
  ghost predicate Gives(hits: seq<Hit>, id: string, part: real) {
    && (forall k :: 0 <= k < |hits| && hits[k].chunk == id ==> part == Reciprocal(k + 1))
    && (!Occurs(hits, |hits|, id) ==> part == 0.0)
  }

  lemma {:induction false} PartsOfDistinct(hits: seq<Hit>, n: nat, id: string)
    requires n <= |hits| && Distinct(hits)
    ensures SemanticPart(hits, n, id) == KeywordPart(hits, n, id)
    ensures forall k :: 0 <= k < n && hits[k].chunk == id ==> KeywordPart(hits, n, id) == Reciprocal(k + 1)
    ensures !Occurs(hits, n, id) ==> KeywordPart(hits, n, id) == 0.0
  {
    if n > 0 {
      PartsOfDistinct(hits, n - 1, id);
    }
  }

  /** Main result: with distinct ids in each list, a score is the sum of one over sixty plus the rank over the lists. */
  lemma {:induction false} ScoreIsSumOverLists(semantic: seq<Hit>, keyword: seq<Hit>, id: string)
    requires Distinct(semantic) && Distinct(keyword)
    ensures Gives(semantic, id, SemanticPart(semantic, |semantic|, id))
    ensures Gives(keyword, id, KeywordPart(keyword, |keyword|, id))
    ensures Score(semantic, keyword, id)
            == SemanticPart(semantic, |semantic|, id) + KeywordPart(keyword, |keyword|, id)
  {
    PartsOfDistinct(semantic, |semantic|, id);
    PartsOfDistinct(keyword, |keyword|, id);
  }

  // Both lists against one

  lemma {:induction false} Fraction(x: real, y: real, z: real)
    requires x > 0.0 && y > 0.0 && z > 0.0
    ensures 1.0 / x + 1.0 / y > 1.0 / z <==> z * (x + y) > x * y
  {
    var a, b, c := 1.0 / x, 1.0 / y, 1.0 / z;
    assert a * x == 1.0 && b * y == 1.0 && c * z == 1.0;
    var p := x * y;
    assert p > 0.0;
    assert (a + b) * p == x + y by {
      assert a * p == (a * x) * y;
      assert b * p == (b * y) * x;
    }
    assert c * p * z == p by {
      assert c * p * z == (c * z) * p;
    }
    if a + b > c {
      assert (a + b) * p > c * p;
      assert (x + y) * z > c * p * z;
    } else {
      assert (a + b) * p <= c * p;
      assert (x + y) * z <= c * p * z;
    }
  }

  lemma {:induction false} ReciprocalFalls(i: nat, j: nat)
    requires i <= j
    ensures 0.0 < Reciprocal(j) <= Reciprocal(i)
    ensures i < j ==> Reciprocal(j) < Reciprocal(i)
  {
    var x, y := (RRF_K + i) as real, (RRF_K + j) as real;
    assert 1.0 / x - 1.0 / y == (y - x) / (x * y);
  }

  predicate InBoth(semantic: seq<Hit>, keyword: seq<Hit>, id: string) {
    Occurs(semantic, |semantic|, id) && Occurs(keyword, |keyword|, id)
  }

  predicate InOne(semantic: seq<Hit>, keyword: seq<Hit>, id: string) {
    Occurs(semantic, |semantic|, id) != Occurs(keyword, |keyword|, id)
  }

  /** The two lists are short enough for two last places to beat one first place. */
  predicate ShortEnough(n: nat, m: nat) {
    (RRF_K + n) * (RRF_K + m) < (RRF_K + 1) * (RRF_K + n + RRF_K + m)
  }

  lemma {:induction false} ShortEnoughIff(n: nat, m: nat)
    ensures ShortEnough(n, m) <==> Reciprocal(n) + Reciprocal(m) > Reciprocal(1)
  {
    var x, y := (RRF_K + n) as real, (RRF_K + m) as real;
    Fraction(x, y, (RRF_K + 1) as real);
    assert ((RRF_K + n) * (RRF_K + m)) as real == x * y;
    assert ((RRF_K + 1) * (RRF_K + n + RRF_K + m)) as real == (RRF_K + 1) as real * (x + y);
  }

  lemma {:induction false} BothBeatsOne(semantic: seq<Hit>, keyword: seq<Hit>, a: string, b: string, n: nat, m: nat)
    requires Distinct(semantic) && Distinct(keyword) && |semantic| <= n && |keyword| <= m && ShortEnough(n, m)
    requires InBoth(semantic, keyword, a) && InOne(semantic, keyword, b)
    ensures Score(semantic, keyword, a) > Score(semantic, keyword, b)
  {
    ScoreIsSumOverLists(semantic, keyword, a);
    ScoreIsSumOverLists(semantic, keyword, b);
    var i :| 0 <= i < |semantic| && semantic[i].chunk == a;
    var j :| 0 <= j < |keyword| && keyword[j].chunk == a;
    ReciprocalFalls(i + 1, n);
    ReciprocalFalls(j + 1, m);
    ShortEnoughIff(n, m);
    if Occurs(semantic, |semantic|, b) {
      var k :| 0 <= k < |semantic| && semantic[k].chunk == b;
      ReciprocalFalls(1, k + 1);
    } else {
      var k :| 0 <= k < |keyword| && keyword[k].chunk == b;
      ReciprocalFalls(1, k + 1);
    }
  }

  /** n hits with distinct ids, the last of them a given one of another form. */
  function Filler(mark: char, n: nat, last: string): seq<Hit> {
    seq(n, r requires 0 <= r < n => Hit(if r == n - 1 then last else seq(r + 1, _ => mark), "", ""))
  }

  lemma {:induction false} FillerIsDistinct(mark: char, n: nat, last: char)
    requires mark != last
    ensures Distinct(Filler(mark, n, [last]))
    ensures forall k :: 0 <= k < n - 1 ==> Filler(mark, n, [last])[k].chunk[0] == mark
  {
    var hits := Filler(mark, n, [last]);
    forall i, j | 0 <= i < j < n ensures hits[i].chunk != hits[j].chunk {
      assert |hits[i].chunk| == i + 1 && hits[i].chunk[0] == mark;
      assert j < n - 1 ==> |hits[j].chunk| == j + 1;
    }
  }

  /** Two chunks of two lists of at most these lengths, one in both lists and one in one. */
  predicate Compared(n: nat, m: nat, semantic: seq<Hit>, keyword: seq<Hit>, a: string, b: string) {
    && Distinct(semantic) && Distinct(keyword) && |semantic| <= n && |keyword| <= m
    && InBoth(semantic, keyword, a) && InOne(semantic, keyword, b)
  }

  lemma {:induction false} FillersCompare(n: nat, m: nat, semantic: seq<Hit>, keyword: seq<Hit>)
    requires n >= 2 && m >= 2 && semantic == Filler('s', n, "a") && keyword == Filler('k', m, "a")
    ensures Compared(n, m, semantic, keyword, "a", "s") && Occurs(semantic, |semantic|, "s")
    ensures semantic[0].chunk == "s" && semantic[n - 1].chunk == "a" && keyword[m - 1].chunk == "a"
  {
    FillerIsDistinct('s', n, 'a');
    FillerIsDistinct('k', m, 'a');
    assert semantic[0].chunk == "s" && semantic[n - 1].chunk == "a" && keyword[m - 1].chunk == "a";
    assert forall k :: 0 <= k < m ==> keyword[k].chunk[0] == 'k' || keyword[k].chunk == "a";
  }

  /** Where the lists may be longer, a chunk last in both need not beat one first in one. */
  lemma {:induction false} LongListsTie(n: nat, m: nat)
    requires n >= 2 && m >= 2 && !ShortEnough(n, m)
    ensures exists semantic, keyword, a, b :: Compared(n, m, semantic, keyword, a, b)
                                              && Score(semantic, keyword, a) <= Score(semantic, keyword, b)
  {
    var semantic, keyword := Filler('s', n, "a"), Filler('k', m, "a");
    FillersCompare(n, m, semantic, keyword);
    ShortEnoughIff(n, m);
    ScoreIsSumOverLists(semantic, keyword, "a");
    ScoreIsSumOverLists(semantic, keyword, "s");
    assert Compared(n, m, semantic, keyword, "a", "s")
        && Score(semantic, keyword, "a") <= Score(semantic, keyword, "s");
  }

  lemma {:induction false} ShortSidesAreShortEnough(n: nat, m: nat)
    requires n < 2 || m < 2
    ensures ShortEnough(n, m)
  {
    if n < 2 {
      assert (RRF_K + n) * (RRF_K + m) <= (RRF_K + 1) * (RRF_K + m);
    } else {
      assert (RRF_K + n) * (RRF_K + m) <= (RRF_K + n) * (RRF_K + 1);
    }
  }

  ghost predicate BothAlwaysBeatsOne(n: nat, m: nat) {
    forall semantic, keyword, a, b ::
      Compared(n, m, semantic, keyword, a, b) ==> Score(semantic, keyword, a) > Score(semantic, keyword, b)
  }

  /**
    Main result, with its exact limit: over all pairs of lists of at most n and m hits, every chunk
    in both lists scores strictly above every chunk in one, if and only if the lengths are short
    enough; for two lists of one length that is up to 61 hits.
  */
  lemma {:induction false} BothBeatsOneIff(n: nat, m: nat)
    ensures BothAlwaysBeatsOne(n, m) <==> ShortEnough(n, m)
    ensures ShortEnough(n, n) <==> n <= 61
  {
    if ShortEnough(n, m) {
      forall semantic, keyword, a, b | Compared(n, m, semantic, keyword, a, b)
        ensures Score(semantic, keyword, a) > Score(semantic, keyword, b)
      {
        BothBeatsOne(semantic, keyword, a, b, n, m);
      }
    } else {
      if n < 2 || m < 2 {
        ShortSidesAreShortEnough(n, m);
      }
      LongListsTie(n, m);
    }
    EqualLengths(n);
  }

  lemma {:induction false} EqualLengths(n: nat)
    ensures ShortEnough(n, n) <==> n <= 61
  {
    var x := RRF_K + n;
    assert (RRF_K + 1) * (x + x) == 122 * x;
    assert x * x < 122 * x <==> x < 122;
  }

  // Ranking

  /** A stable sort by falling score: an entry goes before the first one that does not score above it. */
  function Insert(id: string, sorted: seq<string>, scores: map<string, real>): seq<string>
    requires id in scores && forall x :: x in sorted ==> x in scores
  {
    if sorted != [] && scores[sorted[0]] > scores[id] then [sorted[0]] + Insert(id, sorted[1..], scores)
    else [id] + sorted
  }

  function Sorted(ids: seq<string>, scores: map<string, real>): (r: seq<string>)
    requires forall x :: x in ids ==> x in scores
    ensures multiset(r) == multiset(ids)
  {
    if ids == [] then []
    else
      var rest := Sorted(ids[1..], scores);
      InsertKeeps(ids[0], rest, scores, ids[1..]);
      assert ids == [ids[0]] + ids[1..];
      Insert(ids[0], rest, scores)
  }

  lemma {:induction false} InsertKeeps(id: string, sorted: seq<string>, scores: map<string, real>, ids: seq<string>)
    requires multiset(sorted) == multiset(ids) && id in scores && forall x :: x in ids ==> x in scores
    ensures forall x :: x in sorted ==> x in multiset(sorted) && x in scores
    ensures multiset(Insert(id, sorted, scores)) == multiset(ids) + multiset{id}
  {
    forall x | x in sorted ensures x in multiset(sorted) && x in scores {
      assert x in multiset(ids);
    }
    InsertAdds(id, sorted, scores);
  }

  lemma {:induction false} InsertAdds(id: string, sorted: seq<string>, scores: map<string, real>)
    requires id in scores && forall x :: x in sorted ==> x in scores
    ensures multiset(Insert(id, sorted, scores)) == multiset(sorted) + multiset{id}
  {
    if sorted != [] {
      assert sorted == [sorted[0]] + sorted[1..];
      InsertAdds(id, sorted[1..], scores);
    }
  }

  predicate Precedes(ids: seq<string>, a: string, b: string) {
    exists i, j :: 0 <= i < j < |ids| && ids[i] == a && ids[j] == b
  }

  /** Falling scores, and equal scores in the given order. */
  ghost predicate Ranked(r: seq<string>, ids: seq<string>, scores: map<string, real>)
    requires forall x :: x in r ==> x in scores
  {
    forall i, j :: 0 <= i < j < |r| ==>
      scores[r[i]] > scores[r[j]] || (scores[r[i]] == scores[r[j]] && Precedes(ids, r[i], r[j]))
  }

  lemma {:induction false} SameMembers(r: seq<string>, ids: seq<string>)
    requires multiset(r) == multiset(ids)
    ensures forall x :: x in r <==> x in ids
    ensures |r| == |ids|
  {
    assert forall x :: x in r <==> x in multiset(r);
    assert forall x :: x in ids <==> x in multiset(ids);
    assert |multiset(r)| == |r| && |multiset(ids)| == |ids|;
  }

  lemma {:induction false} InsertMembers(id: string, sorted: seq<string>, scores: map<string, real>)
    requires id in scores && forall x :: x in sorted ==> x in scores
    ensures forall x :: x in Insert(id, sorted, scores) ==> x == id || x in sorted
  {
    if sorted != [] && scores[sorted[0]] > scores[id] {
      InsertMembers(id, sorted[1..], scores);
    }
  }

  /** Scores above or at those of all of `s`, and before them where they are the same. */
  ghost predicate Heads(head: string, s: seq<string>, ids: seq<string>, scores: map<string, real>)
    requires head in scores && forall x :: x in s ==> x in scores
  {
    forall k :: 0 <= k < |s| ==>
      scores[head] > scores[s[k]] || (scores[head] == scores[s[k]] && Precedes(ids, head, s[k]))
  }

  lemma {:induction false} HeadRanks(head: string, s: seq<string>, ids: seq<string>, scores: map<string, real>)
    requires head in scores && (forall x :: x in s ==> x in scores) && Heads(head, s, ids, scores)
             && Ranked(s, ids, scores)
    ensures forall x :: x in [head] + s ==> x in scores
    ensures Ranked([head] + s, ids, scores)
  {
    var r := [head] + s;
    forall i, j | 0 <= i < j < |r|
      ensures scores[r[i]] > scores[r[j]] || (scores[r[i]] == scores[r[j]] && Precedes(ids, r[i], r[j]))
    {
      assert r[j] == s[j - 1];
      assert i > 0 ==> r[i] == s[i - 1];
    }
  }

  lemma {:induction false} InsertRanks(id: string, sorted: seq<string>, ids: seq<string>, scores: map<string, real>)
    requires id in scores && (forall x :: x in sorted ==> x in scores) && Ranked(sorted, ids, scores)
    requires forall x :: x in sorted ==> Precedes(ids, id, x)
    ensures forall x :: x in Insert(id, sorted, scores) ==> x in scores
    ensures Ranked(Insert(id, sorted, scores), ids, scores)
  {
    InsertMembers(id, sorted, scores);
    if sorted != [] && scores[sorted[0]] > scores[id] {
      var rest := sorted[1..];
      assert forall k :: 0 <= k < |rest| ==> rest[k] == sorted[k + 1];
      InsertRanks(id, rest, ids, scores);
      InsertMembers(id, rest, scores);
      var tail := Insert(id, rest, scores);
      forall k | 0 <= k < |tail|
        ensures scores[sorted[0]] > scores[tail[k]]
                || (scores[sorted[0]] == scores[tail[k]] && Precedes(ids, sorted[0], tail[k]))
      {
        assert tail[k] in tail;
        if tail[k] != id {
          var l :| 0 <= l < |rest| && rest[l] == tail[k];
        }
      }
      HeadRanks(sorted[0], tail, ids, scores);
    } else {
      forall k | 0 <= k < |sorted|
        ensures scores[id] > scores[sorted[k]] || (scores[id] == scores[sorted[k]] && Precedes(ids, id, sorted[k]))
      {
        assert sorted[k] in sorted;
        assert scores[sorted[0]] >= scores[sorted[k]];
      }
      HeadRanks(id, sorted, ids, scores);
    }
  }

  lemma {:induction false} PrecedesInTail(ids: seq<string>, a: string, b: string)
    requires ids != [] && Precedes(ids[1..], a, b)
    ensures Precedes(ids, a, b)
  {
    var i, j :| 0 <= i < j < |ids[1..]| && ids[1..][i] == a && ids[1..][j] == b;
    assert ids[i + 1] == a && ids[j + 1] == b;
  }

  lemma {:induction false} RankedInTail(r: seq<string>, ids: seq<string>, scores: map<string, real>)
    requires ids != [] && (forall x :: x in r ==> x in scores) && Ranked(r, ids[1..], scores)
    ensures Ranked(r, ids, scores)
  {
    forall i, j | 0 <= i < j < |r|
      ensures scores[r[i]] > scores[r[j]] || (scores[r[i]] == scores[r[j]] && Precedes(ids, r[i], r[j]))
    {
      if !(scores[r[i]] > scores[r[j]]) {
        PrecedesInTail(ids, r[i], r[j]);
      }
    }
  }

  lemma {:induction false} SortedIsRanked(ids: seq<string>, scores: map<string, real>)
    requires forall x :: x in ids ==> x in scores
    ensures forall x :: x in Sorted(ids, scores) ==> x in scores
    ensures Ranked(Sorted(ids, scores), ids, scores)
  {
    SameMembers(Sorted(ids, scores), ids);
    if ids != [] {
      var rest := Sorted(ids[1..], scores);
      SameMembers(rest, ids[1..]);
      SortedIsRanked(ids[1..], scores);
      RankedInTail(rest, ids, scores);
      forall x | x in rest ensures Precedes(ids, ids[0], x) {
        assert x in ids[1..];
        var j :| 0 <= j < |ids[1..]| && ids[1..][j] == x;
        assert ids[j + 1] == x;
      }
      InsertRanks(ids[0], rest, ids, scores);
    }
  }

  function Ranking(semantic: seq<Hit>, keyword: seq<Hit>): seq<string> {
    Sorted(Order(semantic, keyword), Scores(semantic, keyword))
  }

  function Min(a: nat, b: nat): nat {
    if a <= b then a else b
  }

  predicate Hits(semantic: seq<Hit>, keyword: seq<Hit>, id: string) {
    Occurs(semantic, |semantic|, id) || Occurs(keyword, |keyword|, id)
  }

  lemma {:induction false} OrderHolds(semantic: seq<Hit>, keyword: seq<Hit>)
    ensures forall id :: id in Order(semantic, keyword) <==> Hits(semantic, keyword, id)
    ensures forall i, j :: 0 <= i < j < |Order(semantic, keyword)| ==>
                             Order(semantic, keyword)[i] != Order(semantic, keyword)[j]
  {
    var hits := semantic + keyword;
    FirstSeenHolds(hits, |hits|);
    forall id ensures Occurs(hits, |hits|, id) <==> Hits(semantic, keyword, id) {
      OccursInSum(semantic, keyword, |hits|, id);
    }
  }

  lemma {:induction false} OccursInSum(a: seq<Hit>, b: seq<Hit>, n: nat, id: string)
    requires |a| <= n <= |a| + |b|
    ensures Occurs(a + b, n, id) <==> Occurs(a, |a|, id) || Occurs(b, n - |a|, id)
  {
    var hits := a + b;
    forall k | 0 <= k < |a| && a[k].chunk == id ensures Occurs(hits, n, id) {
      assert hits[k].chunk == id;
    }
    forall k | 0 <= k < n - |a| && b[k].chunk == id ensures Occurs(hits, n, id) {
      assert hits[|a| + k].chunk == id;
    }
  }

  /** A higher score, or the same one and seen first. */
  predicate Better(semantic: seq<Hit>, keyword: seq<Hit>, a: string, b: string) {
    Score(semantic, keyword, a) > Score(semantic, keyword, b)
    || (Score(semantic, keyword, a) == Score(semantic, keyword, b) && Precedes(Order(semantic, keyword), a, b))
  }

  /** Distinct hits, best first, as many as asked for or all, each better than any hit left out. */
  ghost predicate IsTop(top: seq<string>, k: nat, semantic: seq<Hit>, keyword: seq<Hit>) {
    && |top| == Min(k, |Order(semantic, keyword)|)
    && (forall i, j :: 0 <= i < j < |top| ==> top[i] != top[j])
    && (forall i, j :: 0 <= i < j < |top| ==> Better(semantic, keyword, top[i], top[j]))
    && (forall id :: id in top ==> Hits(semantic, keyword, id))
    && (forall id, other :: id in top && other !in top && Hits(semantic, keyword, other) ==>
         Better(semantic, keyword, id, other))
  }

  lemma {:induction false} RankingHolds(semantic: seq<Hit>, keyword: seq<Hit>)
    ensures var r := Ranking(semantic, keyword);
            && |r| == |Order(semantic, keyword)|
            && (forall id :: id in r <==> Hits(semantic, keyword, id))
            && (forall i, j :: 0 <= i < j < |r| ==> r[i] != r[j])
  {
    var ids, r := Order(semantic, keyword), Ranking(semantic, keyword);
    OrderHolds(semantic, keyword);
    SameMembers(r, ids);
    forall i, j | 0 <= i < j < |r| ensures r[i] != r[j] {
      if r[i] == r[j] {
        TwiceInMultiset(r, i, j);
        OnceInMultiset(ids, r[i]);
      }
    }
  }

  lemma {:induction false} TwiceInMultiset(s: seq<string>, i: nat, j: nat)
    requires i < j < |s| && s[i] == s[j]
    ensures multiset(s)[s[i]] >= 2
  {
    assert s == s[..i] + [s[i]] + s[i + 1..j] + [s[j]] + s[j + 1..];
  }

  lemma {:induction false} OnceInMultiset(s: seq<string>, x: string)
    requires forall i, j :: 0 <= i < j < |s| ==> s[i] != s[j]
    ensures multiset(s)[x] <= 1
  {
    if s != [] {
      assert s == [s[0]] + s[1..];
      OnceInMultiset(s[1..], x);
      if x == s[0] {
        assert x !in s[1..];
        assert multiset(s[1..])[x] == 0;
      }
    }
  }

  lemma {:induction false} RankingIsBetter(semantic: seq<Hit>, keyword: seq<Hit>, i: nat, j: nat)
    requires i < j < |Ranking(semantic, keyword)|
    ensures Better(semantic, keyword, Ranking(semantic, keyword)[i], Ranking(semantic, keyword)[j])
  {
    var ids, scores, r := Order(semantic, keyword), Scores(semantic, keyword), Ranking(semantic, keyword);
    SortedIsRanked(ids, scores);
    SameMembers(r, ids);
    assert r[i] in r && r[j] in r;
  }

  /** Main result: every prefix of the ranking is a true selection of the best, with distinct ids. */
  lemma {:induction false} PrefixIsTop(semantic: seq<Hit>, keyword: seq<Hit>, k: nat)
    ensures IsTop(Ranking(semantic, keyword)[..Min(k, |Ranking(semantic, keyword)|)], k, semantic, keyword)
  {
    var r := Ranking(semantic, keyword);
    var top := r[..Min(k, |r|)];
    RankingHolds(semantic, keyword);
    forall i, j | 0 <= i < j < |r| ensures Better(semantic, keyword, r[i], r[j]) {
      RankingIsBetter(semantic, keyword, i, j);
    }
    BestFirst(semantic, keyword, r, top);
  }

  lemma {:induction false} BestFirst(semantic: seq<Hit>, keyword: seq<Hit>, r: seq<string>, top: seq<string>)
    requires top <= r && (forall id :: Hits(semantic, keyword, id) ==> id in r)
    requires forall i, j :: 0 <= i < j < |r| ==> Better(semantic, keyword, r[i], r[j])
    ensures forall id, other :: id in top && other !in top && Hits(semantic, keyword, other) ==>
             Better(semantic, keyword, id, other)
  {
    forall id, other | id in top && other !in top && Hits(semantic, keyword, other)
      ensures Better(semantic, keyword, id, other)
    {
      var i :| 0 <= i < |top| && top[i] == id;
      var j :| 0 <= j < |r| && r[j] == other;
      assert r[i] == id;
      assert forall l :: 0 <= l < |top| ==> r[l] == top[l];
    }
  }

  // Results

  function Labels(semantic: seq<Hit>, keyword: seq<Hit>): map<string, Data> {
    OrderHolds(semantic, keyword);
    FirstSeenHolds(semantic + keyword, |semantic| + |keyword|);
    map id | id in Order(semantic, keyword) :: Label(semantic, keyword, |semantic| + |keyword|, id)
  }

  /** The chunks of a document among the first n candidates; no document means all. */
  function Matching(ids: seq<string>, n: nat, document: string, scores: map<string, real>, data: map<string, Data>)
    : seq<Chunk>
    requires n <= |ids| && forall id :: id in ids ==> id in scores && id in data
  {
    if n == 0 then []
    else
      var before, id := Matching(ids, n - 1, document, scores, data), ids[n - 1];
      if document != "" && data[id].document != document then before
      else before + [Chunk(id, data[id].document, data[id].text, scores[id], data[id].source)]
  }

  function Key(c: Chunk): string {
    if |c.text| <= KEY_CHARS then c.text else c.text[..KEY_CHARS]
  }

  predicate KeySeen(chunks: seq<Chunk>, n: nat, key: string)
    requires n <= |chunks|
  {
    exists k :: 0 <= k < n && Key(chunks[k]) == key
  }

  /** The chunks whose text starts as no earlier one's does. */
  function Dedup(chunks: seq<Chunk>, n: nat): seq<Chunk>
    requires n <= |chunks|
  {
    if n == 0 then []
    else if KeySeen(chunks, n - 1, Key(chunks[n - 1])) then Dedup(chunks, n - 1)
    else Dedup(chunks, n - 1) + [chunks[n - 1]]
  }

  /** At least one chunk is collected before the number asked for is looked at. */
  function Wanted(k: nat): nat {
    if k == 0 then 1 else k
  }

  /** `cut` is the number of candidates: `k` itself, or more for a reranker that is then not available. */
  function Retrieved(semantic: seq<Hit>, keyword: seq<Hit>, k: nat, cut: nat, document: string, dedup: bool)
    : seq<Chunk> {
    RankingHolds(semantic, keyword);
    OrderHolds(semantic, keyword);
    var ranking := Ranking(semantic, keyword);
    var candidates := ranking[..Min(cut, |ranking|)];
    var all := Matching(candidates, |candidates|, document, Scores(semantic, keyword), Labels(semantic, keyword));
    var found := all[..Min(Wanted(k), |all|)];
    if dedup then Dedup(found, |found|) else found
  }

  lemma {:induction false} MatchingAll(ids: seq<string>, n: nat, scores: map<string, real>, data: map<string, Data>)
    requires n <= |ids| && forall id :: id in ids ==> id in scores && id in data
    ensures var all := Matching(ids, n, "", scores, data);
            |all| == n && forall i :: 0 <= i < n ==> all[i].id == ids[i] && all[i].score == scores[ids[i]]
  {
    if n > 0 {
      MatchingAll(ids, n - 1, scores, data);
    }
  }

  function Ids(chunks: seq<Chunk>): seq<string> {
    seq(|chunks|, i requires 0 <= i < |chunks| => chunks[i].id)
  }

  lemma {:induction false} CandidatesAreKnown(semantic: seq<Hit>, keyword: seq<Hit>, candidates: seq<string>)
    requires candidates <= Ranking(semantic, keyword)
    ensures forall id :: id in candidates ==> id in Scores(semantic, keyword) && id in Labels(semantic, keyword)
  {
    RankingHolds(semantic, keyword);
    OrderHolds(semantic, keyword);
    assert forall i :: 0 <= i < |candidates| ==> candidates[i] == Ranking(semantic, keyword)[i];
  }

  lemma {:induction false} RetrievedIds(semantic: seq<Hit>, keyword: seq<Hit>, k: nat, cut: nat, found: seq<Chunk>,
                                        top: seq<string>)
    requires found == Retrieved(semantic, keyword, k, cut, "", false)
    requires top == Ranking(semantic, keyword)[..Min(Min(Wanted(k), cut), |Ranking(semantic, keyword)|)]
    ensures Ids(found) == top
    ensures forall c :: c in found ==> c.score == Score(semantic, keyword, c.id)
  {
    var candidates := Ranking(semantic, keyword)[..Min(cut, |Ranking(semantic, keyword)|)];
    CandidatesAreKnown(semantic, keyword, candidates);
    MatchingAll(candidates, |candidates|, Scores(semantic, keyword), Labels(semantic, keyword));
    assert forall i :: 0 <= i < |candidates| ==> candidates[i] in candidates;
  }

  /**
    Without a document or deduplication the result is the true best of all hits, with their scores:
    as many as asked for, unless fewer candidates are looked at.
  */
  lemma {:induction false} RetrievedIsTop(semantic: seq<Hit>, keyword: seq<Hit>, k: nat, cut: nat)
    ensures var found := Retrieved(semantic, keyword, k, cut, "", false);
            && IsTop(Ids(found), Min(Wanted(k), cut), semantic, keyword)
            && forall c :: c in found ==> c.score == Score(semantic, keyword, c.id)
  {
    var top := Ranking(semantic, keyword)[..Min(Min(Wanted(k), cut), |Ranking(semantic, keyword)|)];
    RetrievedIds(semantic, keyword, k, cut, Retrieved(semantic, keyword, k, cut, "", false), top);
    PrefixIsTop(semantic, keyword, Min(Wanted(k), cut));
  }

  predicate DistinctKeys(chunks: seq<Chunk>) {
    forall i, j :: 0 <= i < j < |chunks| ==> Key(chunks[i]) != Key(chunks[j])
  }

  /** Repeated texts go, no text is lost, and doing it again changes nothing. */
  lemma {:induction false} DedupHolds(chunks: seq<Chunk>, n: nat)
    requires n <= |chunks|
    ensures DistinctKeys(Dedup(chunks, n))
    ensures forall key :: KeySeen(chunks, n, key) <==> KeySeen(Dedup(chunks, n), |Dedup(chunks, n)|, key)
  {
    if n > 0 {
      DedupHolds(chunks, n - 1);
      var before, after, last := Dedup(chunks, n - 1), Dedup(chunks, n), Key(chunks[n - 1]);
      forall key ensures KeySeen(chunks, n, key) <==> KeySeen(chunks, n - 1, key) || key == last {
        assert Key(chunks[n - 1]) == last;
      }
      forall key | KeySeen(before, |before|, key) ensures KeySeen(after, |after|, key) {
        var k :| 0 <= k < |before| && Key(before[k]) == key;
        assert Key(after[k]) == key;
      }
      if !KeySeen(chunks, n - 1, last) {
        assert Key(after[|after| - 1]) == last;
      }
    }
  }

  /** Texts are compared by their first hundred characters. */
  lemma {:induction false} KeyIsBeginning(c: Chunk)
    ensures Key(c) <= c.text && |Key(c)| == if |c.text| < 100 then |c.text| else 100
  {
  }

  /** The text of the chunk starts as that of none before it. */
  predicate IsFirst(chunks: seq<Chunk>, k: nat)
    requires k < |chunks|
  {
    !KeySeen(chunks, k, Key(chunks[k]))
  }

  /** Exactly the first ones are kept, in their order: each follows what is kept of the chunks before it. */
  lemma {:induction false} DedupKeepsFirst(chunks: seq<Chunk>, n: nat, k: nat)
    requires k < n <= |chunks|
    ensures Dedup(chunks, k) <= Dedup(chunks, n)
    ensures IsFirst(chunks, k) ==> Dedup(chunks, k) + [chunks[k]] <= Dedup(chunks, n)
    ensures |Dedup(chunks, k + 1)| == |Dedup(chunks, k)| + if IsFirst(chunks, k) then 1 else 0
    decreases n
  {
    if k < n - 1 {
      DedupKeepsFirst(chunks, n - 1, k);
    }
  }

  lemma {:induction false} DedupIsIdempotent(chunks: seq<Chunk>, n: nat)
    requires n <= |chunks| && DistinctKeys(chunks)
    ensures Dedup(chunks, n) == chunks[..n]
  {
    if n > 0 {
      DedupIsIdempotent(chunks, n - 1);
      assert chunks[..n] == chunks[..n - 1] + [chunks[n - 1]];
    }
  }

  lemma {:induction false} SemanticLabel(semantic: seq<Hit>, keyword: seq<Hit>, n: nat, id: string)
    requires n <= |semantic| && Occurs(semantic + keyword, n, id)
    ensures Label(semantic, keyword, n, id).source == Semantic
  {
    if (semantic + keyword)[n - 1].chunk != id {
      SemanticLabel(semantic, keyword, n - 1, id);
    }
  }

  /** With distinct ids the label says which lists a chunk was in; a repeated keyword id would be called hybrid. */
  lemma {:induction false} LabelSaysWhere(semantic: seq<Hit>, keyword: seq<Hit>, n: nat, id: string)
    requires |semantic| <= n <= |semantic| + |keyword| && Occurs(semantic + keyword, n, id) && Distinct(keyword)
    ensures Label(semantic, keyword, n, id).source
            == if !Occurs(keyword, n - |semantic|, id) then Semantic
               else if Occurs(semantic, |semantic|, id) then Hybrid else Keyword
  {
    OccursInSum(semantic, keyword, n, id);
    if n == |semantic| {
      SemanticLabel(semantic, keyword, n, id);
    } else {
      var hit := (semantic + keyword)[n - 1];
      assert hit == keyword[n - 1 - |semantic|];
      OccursInSum(semantic, keyword, n - 1, id);
      if hit.chunk != id {
        LabelSaysWhere(semantic, keyword, n - 1, id);
      }
    }
  }

  // The retriever's loops

  lemma {:induction false} AbsentParts(hits: seq<Hit>, n: nat, id: string)
    requires n <= |hits| && !Occurs(hits, n, id)
    ensures SemanticPart(hits, n, id) == 0.0 && KeywordPart(hits, n, id) == 0.0
  {
    if n > 0 {
      AbsentParts(hits, n - 1, id);
    }
  }

  /** One hit more: its id joins the order unless it is there, and no other id's occurrence changes. */
  lemma {:induction false} OneHitMore(hits: seq<Hit>, n: nat)
    requires n < |hits|
    ensures forall id :: id in FirstSeen(hits, n) <==> Occurs(hits, n, id)
    ensures forall id :: Occurs(hits, n + 1, id) <==> Occurs(hits, n, id) || id == hits[n].chunk
  {
    FirstSeenHolds(hits, n);
    assert hits[n].chunk == hits[n].chunk;
  }

  /** What the dictionaries hold after the semantic hits and the first `rank` keyword hits. */
  ghost predicate ScoresSoFar(semantic: seq<Hit>, keyword: seq<Hit>, rank: nat, scores: map<string, real>)
    requires rank <= |keyword|
  {
    && (forall id :: id in scores <==> Occurs(semantic + keyword, |semantic| + rank, id))
    && (forall id :: id in scores ==>
         scores[id] == SemanticPart(semantic, |semantic|, id) + KeywordPart(keyword, rank, id))
  }

  ghost predicate LabelsSoFar(semantic: seq<Hit>, keyword: seq<Hit>, rank: nat, data: map<string, Data>)
    requires rank <= |keyword|
  {
    && (forall id :: id in data <==> Occurs(semantic + keyword, |semantic| + rank, id))
    && (forall id :: id in data ==> data[id] == Label(semantic, keyword, |semantic| + rank, id))
  }

  function AddScore(scores: map<string, real>, id: string, score: real): map<string, real> {
    scores[id := (if id in scores then scores[id] else 0.0) + score]
  }

  lemma {:induction false} ScoresGrow(semantic: seq<Hit>, keyword: seq<Hit>, rank: nat, scores: map<string, real>)
    requires rank < |keyword| && ScoresSoFar(semantic, keyword, rank, scores)
    ensures ScoresSoFar(semantic, keyword, rank + 1, AddScore(scores, keyword[rank].chunk, Reciprocal(rank + 1)))
  {
    var id := keyword[rank].chunk;
    OneHitMore(semantic + keyword, |semantic| + rank);
    assert (semantic + keyword)[|semantic| + rank] == keyword[rank];
    if id !in scores {
      OccursInSum(semantic, keyword, |semantic| + rank, id);
      AbsentParts(semantic, |semantic|, id);
      AbsentParts(keyword, rank, id);
    }
  }

  lemma {:induction false} LabelsGrow(semantic: seq<Hit>, keyword: seq<Hit>, rank: nat, data: map<string, Data>)
    requires rank < |keyword| && LabelsSoFar(semantic, keyword, rank, data)
    ensures var hit := keyword[rank];
            LabelsSoFar(semantic, keyword, rank + 1,
                        data[hit.chunk := Data(hit.document, hit.text, if hit.chunk in data then Hybrid else Keyword)])
  {
    OneHitMore(semantic + keyword, |semantic| + rank);
    assert (semantic + keyword)[|semantic| + rank] == keyword[rank];
  }

  lemma {:induction false} SoFarIsAll(semantic: seq<Hit>, keyword: seq<Hit>, scores: map<string, real>,
                                      data: map<string, Data>)
    requires ScoresSoFar(semantic, keyword, |keyword|, scores) && LabelsSoFar(semantic, keyword, |keyword|, data)
    ensures scores == Scores(semantic, keyword) && data == Labels(semantic, keyword)
  {
    FirstSeenHolds(semantic + keyword, |semantic| + |keyword|);
  }

  lemma {:induction false} OrderGrows(semantic: seq<Hit>, keyword: seq<Hit>, rank: nat, scores: map<string, real>)
    requires rank < |keyword| && ScoresSoFar(semantic, keyword, rank, scores)
    ensures var order, id := FirstSeen(semantic + keyword, |semantic| + rank), keyword[rank].chunk;
            FirstSeen(semantic + keyword, |semantic| + rank + 1) == if id in scores then order else order + [id]
  {
    FirstSeenHolds(semantic + keyword, |semantic| + rank);
    assert (semantic + keyword)[|semantic| + rank] == keyword[rank];
  }

  /** The dictionaries; `order` is the order of their keys. */
  datatype Fusion = Fusion(order: seq<string>, scores: map<string, real>, data: map<string, Data>)

  function AddSemantic(f: Fusion, hit: Hit, rank: nat): Fusion {
    Fusion(if hit.chunk in f.scores then f.order else f.order + [hit.chunk],
           f.scores[hit.chunk := Reciprocal(rank)],
           f.data[hit.chunk := Data(hit.document, hit.text, Semantic)])
  }

  function AddKeyword(f: Fusion, hit: Hit, rank: nat): Fusion {
    Fusion(if hit.chunk in f.scores then f.order else f.order + [hit.chunk],
           AddScore(f.scores, hit.chunk, Reciprocal(rank)),
           f.data[hit.chunk := Data(hit.document, hit.text, if hit.chunk in f.data then Hybrid else Keyword)])
  }

  function FoldSemantic(semantic: seq<Hit>, n: nat): Fusion
    requires n <= |semantic|
  {
    if n == 0 then Fusion([], map[], map[]) else AddSemantic(FoldSemantic(semantic, n - 1), semantic[n - 1], n)
  }

  function FoldKeyword(semantic: seq<Hit>, keyword: seq<Hit>, n: nat): Fusion
    requires n <= |keyword|
  {
    if n == 0 then FoldSemantic(semantic, |semantic|)
    else AddKeyword(FoldKeyword(semantic, keyword, n - 1), keyword[n - 1], n)
  }

  lemma {:induction false} FoldSemanticHolds(semantic: seq<Hit>, keyword: seq<Hit>, n: nat)
    requires n <= |semantic|
    ensures var f, hits := FoldSemantic(semantic, n), semantic + keyword;
            && f.order == FirstSeen(hits, n)
            && (forall id :: id in f.scores <==> Occurs(hits, n, id))
            && (forall id :: id in f.data <==> Occurs(hits, n, id))
            && (forall id :: id in f.scores ==> f.scores[id] == SemanticPart(semantic, n, id))
            && (forall id :: id in f.data ==> f.data[id] == Label(semantic, keyword, n, id))
  {
    if n > 0 {
      FoldSemanticHolds(semantic, keyword, n - 1);
      OneHitMore(semantic + keyword, n - 1);
      assert (semantic + keyword)[n - 1] == semantic[n - 1];
    }
  }

  lemma {:induction false} SemanticScores(semantic: seq<Hit>, keyword: seq<Hit>, scores: map<string, real>)
    requires scores == FoldSemantic(semantic, |semantic|).scores
    ensures ScoresSoFar(semantic, keyword, 0, scores)
  {
    FoldSemanticHolds(semantic, keyword, |semantic|);
  }

  lemma {:induction false} SemanticLabels(semantic: seq<Hit>, keyword: seq<Hit>, data: map<string, Data>)
    requires data == FoldSemantic(semantic, |semantic|).data
    ensures LabelsSoFar(semantic, keyword, 0, data)
  {
    FoldSemanticHolds(semantic, keyword, |semantic|);
  }

  lemma {:induction false} ScoresStep(semantic: seq<Hit>, keyword: seq<Hit>, n: nat, f: Fusion,
                                      scores: map<string, real>)
    requires n < |keyword| && ScoresSoFar(semantic, keyword, n, f.scores)
             && scores == AddKeyword(f, keyword[n], n + 1).scores
    ensures ScoresSoFar(semantic, keyword, n + 1, scores)
  {
    ScoresGrow(semantic, keyword, n, f.scores);
  }

  lemma {:induction false} LabelsStep(semantic: seq<Hit>, keyword: seq<Hit>, n: nat, f: Fusion, data: map<string, Data>)
    requires n < |keyword| && LabelsSoFar(semantic, keyword, n, f.data) && data == AddKeyword(f, keyword[n], n + 1).data
    ensures LabelsSoFar(semantic, keyword, n + 1, data)
  {
    LabelsGrow(semantic, keyword, n, f.data);
  }

  lemma {:induction false} FoldScoresHold(semantic: seq<Hit>, keyword: seq<Hit>, n: nat, scores: map<string, real>)
    requires n <= |keyword| && scores == FoldKeyword(semantic, keyword, n).scores
    ensures ScoresSoFar(semantic, keyword, n, scores)
  {
    if n == 0 {
      SemanticScores(semantic, keyword, scores);
    } else {
      var before := FoldKeyword(semantic, keyword, n - 1);
      FoldScoresHold(semantic, keyword, n - 1, before.scores);
      ScoresStep(semantic, keyword, n - 1, before, scores);
    }
  }

  lemma {:induction false} FoldLabelsHold(semantic: seq<Hit>, keyword: seq<Hit>, n: nat, data: map<string, Data>)
    requires n <= |keyword| && data == FoldKeyword(semantic, keyword, n).data
    ensures LabelsSoFar(semantic, keyword, n, data)
  {
    if n == 0 {
      SemanticLabels(semantic, keyword, data);
    } else {
      var before := FoldKeyword(semantic, keyword, n - 1);
      FoldLabelsHold(semantic, keyword, n - 1, before.data);
      LabelsStep(semantic, keyword, n - 1, before, data);
    }
  }

  lemma {:induction false} FoldOrderGrows(semantic: seq<Hit>, keyword: seq<Hit>, n: nat, scores: map<string, real>)
    requires n < |keyword| && scores == FoldKeyword(semantic, keyword, n).scores
    ensures var order, id := FirstSeen(semantic + keyword, |semantic| + n), keyword[n].chunk;
            FirstSeen(semantic + keyword, |semantic| + n + 1) == if id in scores then order else order + [id]
  {
    FoldScoresHold(semantic, keyword, n, scores);
    OrderGrows(semantic, keyword, n, scores);
  }

  lemma {:induction false} FoldOrderHolds(semantic: seq<Hit>, keyword: seq<Hit>, n: nat)
    requires n <= |keyword|
    ensures FoldKeyword(semantic, keyword, n).order == FirstSeen(semantic + keyword, |semantic| + n)
  {
    if n == 0 {
      FoldSemanticHolds(semantic, keyword, |semantic|);
    } else {
      FoldOrderHolds(semantic, keyword, n - 1);
      FoldOrderGrows(semantic, keyword, n - 1, FoldKeyword(semantic, keyword, n - 1).scores);
    }
  }

  /** What the loops leave is the order of first sight, the fused scores and the labels. */
  lemma {:induction false} FoldIsFusion(semantic: seq<Hit>, keyword: seq<Hit>)
    ensures FoldKeyword(semantic, keyword, |keyword|)
            == Fusion(Order(semantic, keyword), Scores(semantic, keyword), Labels(semantic, keyword))
  {
    var f := FoldKeyword(semantic, keyword, |keyword|);
    FoldOrderHolds(semantic, keyword, |keyword|);
    FoldScoresHold(semantic, keyword, |keyword|, f.scores);
    FoldLabelsHold(semantic, keyword, |keyword|, f.data);
    SoFarIsAll(semantic, keyword, f.scores, f.data);
  }

  /** The first loop that fills the dictionaries. */
  method FuseSemantic(semantic: seq<Hit>)
    returns (order: seq<string>, scores: map<string, real>, data: map<string, Data>)
    ensures Fusion(order, scores, data) == FoldSemantic(semantic, |semantic|) && scores.Keys == data.Keys
  {
    order, scores, data := [], map[], map[];
    var rank := 1;
    while rank <= |semantic|
      invariant 1 <= rank <= |semantic| + 1 && Fusion(order, scores, data) == FoldSemantic(semantic, rank - 1)
      invariant scores.Keys == data.Keys
    {
      var hit := semantic[rank - 1];
      if hit.chunk !in scores {
        order := order + [hit.chunk];
      }
      scores := scores[hit.chunk := Reciprocal(rank)];
      data := data[hit.chunk := Data(hit.document, hit.text, Semantic)];
      rank := rank + 1;
    }
  }

  /** The second one, which continues where the first one ends. */
  method FuseKeyword(ghost semantic: seq<Hit>, keyword: seq<Hit>, order0: seq<string>, scores0: map<string, real>,
                     data0: map<string, Data>)
    returns (order: seq<string>, scores: map<string, real>, data: map<string, Data>)
    requires Fusion(order0, scores0, data0) == FoldSemantic(semantic, |semantic|) && scores0.Keys == data0.Keys
    ensures Fusion(order, scores, data) == FoldKeyword(semantic, keyword, |keyword|)
  {
    order, scores, data := order0, scores0, data0;
    var rank := 1;
    while rank <= |keyword|
      invariant 1 <= rank <= |keyword| + 1 && Fusion(order, scores, data) == FoldKeyword(semantic, keyword, rank - 1)
      invariant scores.Keys == data.Keys
    {
      var hit := keyword[rank - 1];
      var score := Reciprocal(rank);
      if hit.chunk in scores {
        scores := scores[hit.chunk := scores[hit.chunk] + score];
        data := data[hit.chunk := Data(hit.document, hit.text, Hybrid)];
      } else {
        order := order + [hit.chunk];
        scores := scores[hit.chunk := score];
        data := data[hit.chunk := Data(hit.document, hit.text, Keyword)];
      }
      rank := rank + 1;
    }
  }

  method Fuse(semantic: seq<Hit>, keyword: seq<Hit>)
    returns (order: seq<string>, scores: map<string, real>, data: map<string, Data>)
    ensures order == Order(semantic, keyword)
    ensures scores == Scores(semantic, keyword)
    ensures data == Labels(semantic, keyword)
  {
    order, scores, data := FuseSemantic(semantic);
    order, scores, data := FuseKeyword(semantic, keyword, order, scores, data);
    FoldIsFusion(semantic, keyword);
  }

  /** `retrieve`, after the two searches, without a reranker. */
  method Retrieve(semantic: seq<Hit>, keyword: seq<Hit>, k: nat, cut: nat, document: string, dedup: bool)
    returns (results: seq<Chunk>)
    ensures results == Retrieved(semantic, keyword, k, cut, document, dedup)
  {
    var order, scores, data := Fuse(semantic, keyword);
    OrderHolds(semantic, keyword);
    RankingHolds(semantic, keyword);
    var ranking := Sorted(order, scores);
    var candidates := ranking[..Min(cut, |ranking|)];
    results := Collect(candidates, k, document, scores, data);
    if dedup {
      results := RemoveRepeated(results);
    }
  }

  method Collect(ids: seq<string>, k: nat, document: string, scores: map<string, real>, data: map<string, Data>)
    returns (results: seq<Chunk>)
    requires forall id :: id in ids ==> id in scores && id in data
    ensures var all := Matching(ids, |ids|, document, scores, data);
            results == all[..Min(Wanted(k), |all|)]
  {
    results := [];
    var i := 0;
    while i < |ids|
      invariant i <= |ids| && results == Matching(ids, i, document, scores, data)
      invariant |results| == 0 || |results| < k
    {
      var id := ids[i];
      i := i + 1;
      if document != "" && data[id].document != document {
        continue;
      }
      results := results + [Chunk(id, data[id].document, data[id].text, scores[id], data[id].source)];
      if |results| >= k {
        MatchingGrows(ids, i, |ids|, document, scores, data);
        return;
      }
    }
  }

  lemma {:induction false} MatchingGrows(ids: seq<string>, n: nat, m: nat, document: string, scores: map<string, real>,
                                         data: map<string, Data>)
    requires n <= m <= |ids| && forall x :: x in ids ==> x in scores && x in data
    ensures Matching(ids, n, document, scores, data) <= Matching(ids, m, document, scores, data)
    decreases m
  {
    if n < m {
      MatchingGrows(ids, n, m - 1, document, scores, data);
    }
  }

  /** `_dedup`. */
  method RemoveRepeated(chunks: seq<Chunk>) returns (unique: seq<Chunk>)
    ensures unique == Dedup(chunks, |chunks|)
  {
    unique := [];
    var seen: set<string> := {};
    var i := 0;
    while i < |chunks|
      invariant i <= |chunks| && unique == Dedup(chunks, i)
      invariant forall key :: key in seen <==> KeySeen(chunks, i, key)
    {
      var key := Key(chunks[i]);
      if key !in seen {
        seen := seen + {key};
        unique := unique + [chunks[i]];
      }
      assert forall x :: KeySeen(chunks, i + 1, x) <==> KeySeen(chunks, i, x) || x == key;
      i := i + 1;
    }
  }
}
