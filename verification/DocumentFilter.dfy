/**
  The document filter of hybrid retrieval: it is applied after the cut to the best candidates of all
  documents, so a hit of the document asked for can be lost.
*/
module DocumentFilter {
  import opened RankFusion

  /** No document means every document. */
  predicate OfDocument(data: map<string, Data>, id: string, document: string) {
    document == "" || (id in data && data[id].document == document)
  }

  predicate DistinctIds(ids: seq<string>) {
    forall i, j :: 0 <= i < j < |ids| ==> ids[i] != ids[j]
  }

  predicate Known(ids: seq<string>, scores: map<string, real>, data: map<string, Data>) {
    forall id :: id in ids ==> id in scores && id in data
  }

  // Places

  lemma {:induction false} MatchingPlace(ids: seq<string>, i: nat, document: string, scores: map<string, real>,
                                         data: map<string, Data>)
    requires i < |ids| && Known(ids, scores, data) && OfDocument(data, ids[i], document)
    ensures var place, all := |Matching(ids, i, document, scores, data)|, Matching(ids, |ids|, document, scores, data);
            place < |all| && all[place].id == ids[i]
  {
    MatchingGrows(ids, i + 1, |ids|, document, scores, data);
  }

  lemma {:induction false} MatchingIsDistinct(ids: seq<string>, n: nat, document: string, scores: map<string, real>,
                                              data: map<string, Data>, all: seq<Chunk>)
    requires n <= |ids| && DistinctIds(ids) && Known(ids, scores, data)
             && all == Matching(ids, n, document, scores, data)
    ensures forall p :: 0 <= p < |all| ==> all[p].id in ids[..n]
    ensures DistinctIds(Ids(all))
  {
    if n > 0 {
      var before := Matching(ids, n - 1, document, scores, data);
      MatchingIsDistinct(ids, n - 1, document, scores, data, before);
      assert ids[..n] == ids[..n - 1] + [ids[n - 1]];
      assert ids[n - 1] !in ids[..n - 1];
      forall p | 0 <= p < |all| ensures all[p].id in ids[..n] {
        assert p < |before| ==> all[p] == before[p];
      }
      forall p, q | 0 <= p < q < |all| ensures Ids(all)[p] != Ids(all)[q] {
        assert Ids(before)[p] == all[p].id;
        assert q < |before| ==> Ids(before)[q] == all[q].id;
      }
    }
  }

  predicate Has(chunks: seq<Chunk>, id: string) {
    exists c :: c in chunks && c.id == id
  }

  lemma {:induction false} HasAtPlace(all: seq<Chunk>, place: nat, n: nat)
    requires DistinctIds(Ids(all)) && place < |all| && n <= |all|
    ensures Has(all[..n], all[place].id) <==> place < n
  {
    if place < n {
      assert all[..n][place] in all[..n];
    }
    forall c | c in all[..n] && c.id == all[place].id ensures place < n {
      var p :| 0 <= p < n && all[p] == c;
      assert Ids(all)[p] == Ids(all)[place];
    }
  }

  /** A candidate of the document is returned exactly when fewer than wanted of the document come before it. */
  lemma {:induction false} CandidateReturnedIff(ids: seq<string>, i: nat, document: string, wanted: nat,
                                                scores: map<string, real>, data: map<string, Data>, all: seq<Chunk>)
    requires i < |ids| && DistinctIds(ids) && Known(ids, scores, data) && OfDocument(data, ids[i], document)
    requires all == Matching(ids, |ids|, document, scores, data)
    ensures Has(all[..Min(wanted, |all|)], ids[i]) <==> |Matching(ids, i, document, scores, data)| < wanted
  {
    MatchingPlace(ids, i, document, scores, data);
    MatchingIsDistinct(ids, |ids|, document, scores, data, all);
    HasAtPlace(all, |Matching(ids, i, document, scores, data)|, Min(wanted, |all|));
  }

  // Counting

  /** Those of the first ids that are of the document. */
  function Chosen(ids: seq<string>, i: nat, document: string, data: map<string, Data>): set<string>
    requires i <= |ids|
  {
    set x | x in ids[..i] && OfDocument(data, x, document)
  }

  lemma {:induction false} ChosenGrows(ids: seq<string>, i: nat, document: string, data: map<string, Data>)
    requires i < |ids| && DistinctIds(ids)
    ensures ids[i] !in Chosen(ids, i, document, data)
    ensures Chosen(ids, i + 1, document, data)
            == Chosen(ids, i, document, data) + if OfDocument(data, ids[i], document) then {ids[i]} else {}
  {
    assert ids[..i + 1] == ids[..i] + [ids[i]];
    assert ids[i] !in ids[..i];
  }

  lemma {:induction false} CountMatching(ids: seq<string>, i: nat, document: string, scores: map<string, real>,
                                         data: map<string, Data>)
    requires i <= |ids| && DistinctIds(ids) && Known(ids, scores, data)
    ensures |Chosen(ids, i, document, data)| == |Matching(ids, i, document, scores, data)|
  {
    if i > 0 {
      CountMatching(ids, i - 1, document, scores, data);
      ChosenGrows(ids, i - 1, document, data);
    }
  }

  lemma {:induction false} SamePrefix(ids: seq<string>, i: nat, n: nat, document: string, scores: map<string, real>,
                                      data: map<string, Data>)
    requires i <= n <= |ids| && Known(ids, scores, data)
    ensures Known(ids[..n], scores, data)
    ensures Matching(ids[..n], i, document, scores, data) == Matching(ids, i, document, scores, data)
    decreases i
  {
    if i > 0 {
      SamePrefix(ids, i - 1, n, document, scores, data);
    }
  }

  // The ranking

  lemma {:induction false} BetterIsOneWay(semantic: seq<Hit>, keyword: seq<Hit>, a: string, b: string)
    requires Better(semantic, keyword, a, b)
    ensures !Better(semantic, keyword, b, a)
  {
    OrderHolds(semantic, keyword);
  }

  /** The hits of a document that are better than a given one. */
  ghost function Ahead(semantic: seq<Hit>, keyword: seq<Hit>, id: string, document: string): set<string> {
    set o | o in Order(semantic, keyword) && Better(semantic, keyword, o, id)
      && OfDocument(Labels(semantic, keyword), o, document)
  }

  lemma {:induction false} BetterIffEarlier(semantic: seq<Hit>, keyword: seq<Hit>, i: nat, j: nat)
    requires i < |Ranking(semantic, keyword)| && j < |Ranking(semantic, keyword)|
    ensures Better(semantic, keyword, Ranking(semantic, keyword)[j], Ranking(semantic, keyword)[i]) <==> j < i
  {
    var r := Ranking(semantic, keyword);
    if j < i {
      RankingIsBetter(semantic, keyword, j, i);
    } else if i < j {
      RankingIsBetter(semantic, keyword, i, j);
      BetterIsOneWay(semantic, keyword, r[i], r[j]);
    } else if Better(semantic, keyword, r[i], r[i]) {
      BetterIsOneWay(semantic, keyword, r[i], r[i]);
    }
  }

  lemma {:induction false} AheadIsBefore(semantic: seq<Hit>, keyword: seq<Hit>, r: seq<string>, i: nat,
                                         document: string)
    requires r == Ranking(semantic, keyword) && i < |r|
    ensures Ahead(semantic, keyword, r[i], document) == Chosen(r, i, document, Labels(semantic, keyword))
  {
    RankingHolds(semantic, keyword);
    OrderHolds(semantic, keyword);
    forall o ensures o in Order(semantic, keyword) && Better(semantic, keyword, o, r[i]) <==> o in r[..i] {
      if o in Order(semantic, keyword) {
        var j :| 0 <= j < |r| && r[j] == o;
        BetterIffEarlier(semantic, keyword, i, j);
        assert j < i ==> r[..i][j] == o;
      }
    }
  }

  lemma {:induction false} RankingIsKnown(semantic: seq<Hit>, keyword: seq<Hit>)
    ensures DistinctIds(Ranking(semantic, keyword))
    ensures Known(Ranking(semantic, keyword), Scores(semantic, keyword), Labels(semantic, keyword))
  {
    RankingHolds(semantic, keyword);
    OrderHolds(semantic, keyword);
  }

  lemma {:induction false} AheadCount(semantic: seq<Hit>, keyword: seq<Hit>, r: seq<string>, i: nat, document: string)
    requires r == Ranking(semantic, keyword) && i < |r|
    ensures Known(r, Scores(semantic, keyword), Labels(semantic, keyword))
    ensures |Ahead(semantic, keyword, r[i], document)|
            == |Matching(r, i, document, Scores(semantic, keyword), Labels(semantic, keyword))|
    ensures document == "" ==> |Ahead(semantic, keyword, r[i], document)| == i
  {
    RankingIsKnown(semantic, keyword);
    AheadIsBefore(semantic, keyword, r, i, document);
    CountMatching(r, i, document, Scores(semantic, keyword), Labels(semantic, keyword));
    MatchingAll(r, i, Scores(semantic, keyword), Labels(semantic, keyword));
  }

  lemma {:induction false} PlaceReturnedIff(semantic: seq<Hit>, keyword: seq<Hit>, k: nat, cut: nat, document: string,
                                            r: seq<string>, i: nat)
    requires r == Ranking(semantic, keyword) && i < |r| && OfDocument(Labels(semantic, keyword), r[i], document)
    ensures Known(r, Scores(semantic, keyword), Labels(semantic, keyword))
    ensures Has(Retrieved(semantic, keyword, k, cut, document, false), r[i])
            <==> i < cut && |Matching(r, i, document, Scores(semantic, keyword), Labels(semantic, keyword))| < Wanted(k)
  {
    RankingIsKnown(semantic, keyword);
    var scores, data := Scores(semantic, keyword), Labels(semantic, keyword);
    var n := Min(cut, |r|);
    SamePrefix(r, 0, n, document, scores, data);
    var all := Matching(r[..n], n, document, scores, data);
    if i < cut {
      SamePrefix(r, i, n, document, scores, data);
      CandidateReturnedIff(r[..n], i, document, Wanted(k), scores, data, all);
    } else {
      MatchingIsDistinct(r[..n], n, document, scores, data, all);
      assert r[i] !in r[..n];
    }
  }

  /**
    Main result: a hit of the document asked for is returned if and only if fewer hits of any document
    are better than it than candidates are looked at, and fewer hits of its document than are wanted.
  */
  lemma {:induction false} DocumentHitReturnedIff(semantic: seq<Hit>, keyword: seq<Hit>, k: nat, cut: nat,
                                                  document: string, id: string)
    requires Hits(semantic, keyword, id) && OfDocument(Labels(semantic, keyword), id, document)
    ensures Has(Retrieved(semantic, keyword, k, cut, document, false), id)
            <==> |Ahead(semantic, keyword, id, "")| < cut && |Ahead(semantic, keyword, id, document)| < Wanted(k)
  {
    RankingHolds(semantic, keyword);
    var r := Ranking(semantic, keyword);
    var i :| 0 <= i < |r| && r[i] == id;
    AheadCount(semantic, keyword, r, i, "");
    AheadCount(semantic, keyword, r, i, document);
    PlaceReturnedIff(semantic, keyword, k, cut, document, r, i);
  }

  /** Everything that is returned is a hit of the document asked for, with its score, text and source. */
  lemma {:induction false} FoundIsOfDocument(semantic: seq<Hit>, keyword: seq<Hit>, k: nat, cut: nat, document: string,
                                             c: Chunk)
    requires c in Retrieved(semantic, keyword, k, cut, document, false)
    ensures Hits(semantic, keyword, c.id) && OfDocument(Labels(semantic, keyword), c.id, document)
    ensures c.score == Score(semantic, keyword, c.id)
    ensures c.id in Labels(semantic, keyword) && Data(c.document, c.text, c.source) == Labels(semantic, keyword)[c.id]
  {
    RankingHolds(semantic, keyword);
    RankingIsKnown(semantic, keyword);
    var r := Ranking(semantic, keyword);
    var n := Min(cut, |r|);
    SamePrefix(r, 0, n, document, Scores(semantic, keyword), Labels(semantic, keyword));
    MatchingIsOfDocument(r[..n], n, document, Scores(semantic, keyword), Labels(semantic, keyword), c);
    OrderHolds(semantic, keyword);
  }

  lemma {:induction false} MatchingIsOfDocument(ids: seq<string>, n: nat, document: string, scores: map<string, real>,
                                                data: map<string, Data>, c: Chunk)
    requires n <= |ids| && Known(ids, scores, data) && c in Matching(ids, n, document, scores, data)
    ensures c.id in ids && OfDocument(data, c.id, document) && c.score == scores[c.id]
    ensures Data(c.document, c.text, c.source) == data[c.id]
  {
    if n > 0 && c in Matching(ids, n - 1, document, scores, data) {
      MatchingIsOfDocument(ids, n - 1, document, scores, data, c);
    }
  }

  /** Document and text of a chunk are those of its last hit, keyword hits being the later ones. */
  lemma {:induction false} LabelIsOfLastHit(semantic: seq<Hit>, keyword: seq<Hit>, n: nat, id: string, k: nat)
    requires n <= |semantic| + |keyword| && k < n && (semantic + keyword)[k].chunk == id
    requires forall l :: k < l < n ==> (semantic + keyword)[l].chunk != id
    ensures Occurs(semantic + keyword, n, id)
    ensures Label(semantic, keyword, n, id).document == (semantic + keyword)[k].document
    ensures Label(semantic, keyword, n, id).text == (semantic + keyword)[k].text
    decreases n
  {
    if k < n - 1 {
      LabelIsOfLastHit(semantic, keyword, n - 1, id, k);
    }
  }

  // Lost hits

  /** Each index is asked for twice the number of hits that are wanted. */
  predicate Fetched(hits: seq<Hit>, k: nat) {
    |hits| <= 2 * k
  }

  lemma {:induction false} FirstSeenIsShort(hits: seq<Hit>, n: nat)
    requires n <= |hits|
    ensures |FirstSeen(hits, n)| <= n
  {
    if n > 0 {
      FirstSeenIsShort(hits, n - 1);
    }
  }

  lemma {:induction false} AheadIsFewerThanHits(semantic: seq<Hit>, keyword: seq<Hit>, id: string)
    requires Hits(semantic, keyword, id)
    ensures |Ahead(semantic, keyword, id, "")| < |semantic| + |keyword|
  {
    RankingHolds(semantic, keyword);
    var r := Ranking(semantic, keyword);
    var i :| 0 <= i < |r| && r[i] == id;
    AheadCount(semantic, keyword, r, i, "");
    FirstSeenIsShort(semantic + keyword, |semantic| + |keyword|);
  }

  /** With as many candidates as hits can be fetched the cut loses nothing: the limit alone decides. */
  lemma {:induction false} WideCutLosesNothing(semantic: seq<Hit>, keyword: seq<Hit>, k: nat, cut: nat,
                                               document: string, id: string)
    requires Fetched(semantic, k) && Fetched(keyword, k) && 4 * k <= cut
    requires Hits(semantic, keyword, id) && OfDocument(Labels(semantic, keyword), id, document)
    ensures Has(Retrieved(semantic, keyword, k, cut, document, false), id)
            <==> |Ahead(semantic, keyword, id, document)| < Wanted(k)
  {
    AheadIsFewerThanHits(semantic, keyword, id);
    DocumentHitReturnedIff(semantic, keyword, k, cut, document, id);
  }

  predicate IsOnlyHit(semantic: seq<Hit>, keyword: seq<Hit>, document: string, id: string) {
    && Hits(semantic, keyword, id) && OfDocument(Labels(semantic, keyword), id, document)
    && forall o :: o in Order(semantic, keyword) && OfDocument(Labels(semantic, keyword), o, document) ==> o == id
  }

  lemma {:induction false} OnlyHitIsLostIff(semantic: seq<Hit>, keyword: seq<Hit>, k: nat, cut: nat, document: string,
                                              id: string, dedup: bool)
    requires IsOnlyHit(semantic, keyword, document, id)
    ensures Retrieved(semantic, keyword, k, cut, document, dedup) == [] <==> cut <= |Ahead(semantic, keyword, id, "")|
  {
    var found := Retrieved(semantic, keyword, k, cut, document, false);
    DocumentHitReturnedIff(semantic, keyword, k, cut, document, id);
    OrderHolds(semantic, keyword);
    if o :| o in Ahead(semantic, keyword, id, document) {
      BetterIsOneWay(semantic, keyword, o, id);
      assert false;
    }
    assert |Ahead(semantic, keyword, id, document)| == 0;
    if found != [] {
      FoundIsOfDocument(semantic, keyword, k, cut, document, found[0]);
      assert Has(found, id);
      assert KeySeen(found, |found|, Key(found[0]));
    }
    DedupHolds(found, |found|);
  }

  /** Two lists of n different hits, of which only the last one of the second list is of the document asked for. */
  predicate Crowded(n: nat, semantic: seq<Hit>, keyword: seq<Hit>) {
    && n > 0 && |semantic| == n && |keyword| == n && Distinct(semantic + keyword)
    && (forall l :: 0 <= l < n ==> semantic[l].document == "other")
    && (forall l :: 0 <= l < n - 1 ==> keyword[l].document == "other")
    && keyword[n - 1] == Hit("a", "wanted", "")
  }

  function Others(mark: char, n: nat): seq<Hit> {
    seq(n, r requires 0 <= r < n => Hit(seq(r + 1, _ => mark), "other", ""))
  }

  lemma {:induction false} OthersAre(mark: char, n: nat, hits: seq<Hit>)
    requires hits == Others(mark, n)
    ensures forall l :: 0 <= l < n ==> hits[l].document == "other"
    ensures forall l :: 0 <= l < n ==> |hits[l].chunk| == l + 1 && hits[l].chunk[0] == mark
  {
  }

  lemma {:induction false} DifferentMarks(a: seq<Hit>, b: seq<Hit>)
    requires forall l :: 0 <= l < |a| ==> |a[l].chunk| == l + 1 && a[l].chunk[0] == 's'
    requires forall l :: 0 <= l < |b| ==> |b[l].chunk| == l + 1 && b[l].chunk[0] == 'k'
    ensures Distinct(a + b + [Hit("a", "wanted", "")])
  {
    var hits := a + b + [Hit("a", "wanted", "")];
    forall i, j | 0 <= i < j < |hits| ensures hits[i].chunk != hits[j].chunk {
      assert hits[i] == if i < |a| then a[i] else b[i - |a|];
      if j < |hits| - 1 {
        assert hits[j] == if j < |a| then a[j] else b[j - |a|];
      }
    }
  }

  lemma {:induction false} CrowdsExist(n: nat)
    requires n > 0
    ensures exists semantic, keyword :: Crowded(n, semantic, keyword)
  {
    var semantic, others := Others('s', n), Others('k', n - 1);
    var keyword := others + [Hit("a", "wanted", "")];
    OthersAre('s', n, semantic);
    OthersAre('k', n - 1, others);
    DifferentMarks(semantic, others);
    assert semantic + keyword == semantic + others + [Hit("a", "wanted", "")];
    assert Crowded(n, semantic, keyword);
  }

  lemma {:induction false} DistinctParts(a: seq<Hit>, b: seq<Hit>)
    requires Distinct(a + b)
    ensures Distinct(a) && Distinct(b)
    ensures forall i, j :: 0 <= i < |a| && 0 <= j < |b| ==> a[i].chunk != b[j].chunk
  {
    var hits := a + b;
    assert forall i :: 0 <= i < |a| ==> hits[i] == a[i];
    forall i, j | 0 <= i < |a| && 0 <= j < |b| ensures a[i].chunk != b[j].chunk {
      assert hits[|a| + j] == b[j];
    }
    forall i, j | 0 <= i < j < |b| ensures b[i].chunk != b[j].chunk {
      assert hits[|a| + i] == b[i] && hits[|a| + j] == b[j];
    }
  }

  lemma {:induction false} DistinctIsFirstSeen(hits: seq<Hit>, n: nat)
    requires Distinct(hits) && n <= |hits|
    ensures |FirstSeen(hits, n)| == n && forall l :: 0 <= l < n ==> FirstSeen(hits, n)[l] == hits[l].chunk
  {
    if n > 0 {
      DistinctIsFirstSeen(hits, n - 1);
      var before := FirstSeen(hits, n - 1);
      forall l | 0 <= l < n - 1 ensures before[l] != hits[n - 1].chunk {
        assert hits[l].chunk != hits[n - 1].chunk;
      }
    }
  }

  lemma {:induction false} FirstIds(hits: seq<Hit>, n: nat, ids: set<string>)
    requires Distinct(hits) && n <= |hits| && ids == set l | 0 <= l < n :: hits[l].chunk
    ensures |ids| == n
  {
    if n > 0 {
      var before := set l | 0 <= l < n - 1 :: hits[l].chunk;
      FirstIds(hits, n - 1, before);
      assert ids == before + {hits[n - 1].chunk};
    }
  }

  lemma {:induction false} ScoreInDistinctLists(semantic: seq<Hit>, keyword: seq<Hit>, l: nat)
    requires Distinct(semantic + keyword)
    ensures l < |semantic| ==> Score(semantic, keyword, semantic[l].chunk) == Reciprocal(l + 1)
    ensures l < |keyword| ==> Score(semantic, keyword, keyword[l].chunk) == Reciprocal(l + 1)
  {
    DistinctParts(semantic, keyword);
    if l < |semantic| {
      ScoreIsSumOverLists(semantic, keyword, semantic[l].chunk);
      assert !Occurs(keyword, |keyword|, semantic[l].chunk);
    }
    if l < |keyword| {
      ScoreIsSumOverLists(semantic, keyword, keyword[l].chunk);
      assert !Occurs(semantic, |semantic|, keyword[l].chunk);
    }
  }

  /** In two lists without a common hit an earlier place is better, and the same place in the first list too. */
  lemma {:induction false} EarlierIsBetter(semantic: seq<Hit>, keyword: seq<Hit>, l: nat, j: nat)
    requires Distinct(semantic + keyword) && j < |keyword|
    ensures l < |semantic| && l <= j ==> Better(semantic, keyword, semantic[l].chunk, keyword[j].chunk)
    ensures l < j ==> Better(semantic, keyword, keyword[l].chunk, keyword[j].chunk)
  {
    var hits := semantic + keyword;
    ScoreInDistinctLists(semantic, keyword, l);
    ScoreInDistinctLists(semantic, keyword, j);
    if l <= j {
      ReciprocalFalls(l + 1, j + 1);
    }
    DistinctIsFirstSeen(hits, |hits|);
    if l < |semantic| {
      assert hits[l] == semantic[l] && hits[|semantic| + j] == keyword[j];
      assert Precedes(Order(semantic, keyword), semantic[l].chunk, keyword[j].chunk);
    }
  }

  lemma {:induction false} CrowdIsAhead(n: nat, semantic: seq<Hit>, keyword: seq<Hit>)
    requires Crowded(n, semantic, keyword)
    ensures 2 * n - 1 <= |Ahead(semantic, keyword, "a", "")|
  {
    var hits := semantic + keyword;
    DistinctIsFirstSeen(hits, 2 * n);
    var first := set l | 0 <= l < 2 * n - 1 :: hits[l].chunk;
    FirstIds(hits, 2 * n - 1, first);
    forall l | 0 <= l < 2 * n - 1 ensures hits[l].chunk in Ahead(semantic, keyword, "a", "") {
      EarlierIsBetter(semantic, keyword, if l < n then l else l - n, n - 1);
      assert Order(semantic, keyword)[l] == hits[l].chunk;
    }
    SubsetIsSmaller(first, Ahead(semantic, keyword, "a", ""));
  }

  lemma {:induction false} SubsetIsSmaller(a: set<string>, b: set<string>)
    requires a <= b
    ensures |a| <= |b|
  {
    assert b == a + (b - a);
  }

  lemma {:induction false} CrowdLabel(n: nat, semantic: seq<Hit>, keyword: seq<Hit>, m: nat, id: string)
    requires Crowded(n, semantic, keyword) && m <= 2 * n && Occurs(semantic + keyword, m, id)
    ensures Label(semantic, keyword, m, id).document == if id == "a" then "wanted" else "other"
    decreases m
  {
    var hits := semantic + keyword;
    assert hits[2 * n - 1] == keyword[n - 1];
    if hits[m - 1].chunk != id {
      CrowdLabel(n, semantic, keyword, m - 1, id);
    } else if m < 2 * n {
      assert hits[m - 1].chunk != "a";
    }
  }

  lemma {:induction false} CrowdHasOneHit(n: nat, semantic: seq<Hit>, keyword: seq<Hit>)
    requires Crowded(n, semantic, keyword)
    ensures IsOnlyHit(semantic, keyword, "wanted", "a")
  {
    var hits := semantic + keyword;
    assert keyword[n - 1].chunk == "a";
    OrderHolds(semantic, keyword);
    FirstSeenHolds(hits, |hits|);
    forall id | id in Order(semantic, keyword)
      ensures OfDocument(Labels(semantic, keyword), id, "wanted") <==> id == "a"
    {
      CrowdLabel(n, semantic, keyword, |hits|, id);
    }
  }

  /** Two lists that can be fetched, and the only hit of the document asked for, which is lost: nothing is returned. */
  predicate LosesOnlyHit(semantic: seq<Hit>, keyword: seq<Hit>, k: nat, cut: nat, document: string, id: string,
                         dedup: bool) {
    && Fetched(semantic, k) && Fetched(keyword, k) && Distinct(semantic) && Distinct(keyword)
    && document != "" && IsOnlyHit(semantic, keyword, document, id)
    && Retrieved(semantic, keyword, k, cut, document, dedup) == []
  }

  /**
    Main result on configurations: the only hit of a document can be lost if and only if fewer
    candidates are looked at than four times the hits wanted, which is what the two indexes can return.
  */
  lemma {:induction false} OnlyHitCanBeLostIff(k: nat, cut: nat, dedup: bool)
    ensures (exists semantic, keyword, document, id :: LosesOnlyHit(semantic, keyword, k, cut, document, id, dedup))
            <==> cut < 4 * k
  {
    if cut < 4 * k {
      CrowdsExist(2 * k);
      var semantic, keyword :| Crowded(2 * k, semantic, keyword);
      DistinctParts(semantic, keyword);
      CrowdHasOneHit(2 * k, semantic, keyword);
      CrowdIsAhead(2 * k, semantic, keyword);
      OnlyHitIsLostIff(semantic, keyword, k, cut, "wanted", "a", dedup);
      assert LosesOnlyHit(semantic, keyword, k, cut, "wanted", "a", dedup);
    }
    if semantic, keyword, document, id :| LosesOnlyHit(semantic, keyword, k, cut, document, id, dedup) {
      OnlyHitIsLostIff(semantic, keyword, k, cut, document, id, dedup);
      AheadIsFewerThanHits(semantic, keyword, id);
    }
  }
}
