/** Hybrid search: the candidates of a tenant, two rankings of them, and their fusion by
    reciprocal rank. Scores are exact rationals. */
module RankFusion {
  import opened Wrappers

  const RRF_K: nat := 60
  const PER_CHANNEL_LIMIT: nat := 50

  /** A stored chunk, by the row it belongs to and its place there. */
  datatype ChunkId = ChunkId(specId: nat, place: nat)

  datatype ChunkRow = ChunkRow(id: ChunkId, specId: nat, operationId: string, httpMethod: string, path: string, summary: string)
  datatype ConnRow = ConnRow(id: nat, tenant: string, connectorKey: Option<string>, specId: Option<nat>, createdAt: int)
  datatype Candidate = Candidate(chunk: ChunkRow, conn: ConnRow)
  datatype Hit = Hit(candidate: Candidate, score: real)

  // ---------- candidates: each chunk once, with a newest connection that reaches it ----------

  predicate Reaches(conn: ConnRow, chunk: ChunkRow, tenant: string, filter: Option<string>) {
    && conn.specId == Some(chunk.specId) && conn.tenant == tenant
    && (filter.Some? ==> conn.connectorKey == filter)
  }

  function Newest(conns: seq<ConnRow>, chunk: ChunkRow, tenant: string, filter: Option<string>): (r: Option<ConnRow>)
    ensures r.Some? <==> exists c :: c in conns && Reaches(c, chunk, tenant, filter)
    ensures r.Some? ==> r.value in conns && Reaches(r.value, chunk, tenant, filter)
    ensures r.Some? ==> forall c :: c in conns && Reaches(c, chunk, tenant, filter) ==> c.createdAt <= r.value.createdAt
  {
    if conns == [] then None
    else
      var rest := Newest(conns[1..], chunk, tenant, filter);
      assert forall c :: c in conns <==> c == conns[0] || c in conns[1..];
      if !Reaches(conns[0], chunk, tenant, filter) then rest
      else if rest.Some? && rest.value.createdAt > conns[0].createdAt then rest
      else Some(conns[0])
  }

  function Candidates(chunks: seq<ChunkRow>, conns: seq<ConnRow>, tenant: string, filter: Option<string>): seq<Candidate> {
    if chunks == [] then []
    else
      var rest := Candidates(chunks[1..], conns, tenant, filter);
      match Newest(conns, chunks[0], tenant, filter)
      case None => rest
      case Some(c) => [Candidate(chunks[0], c)] + rest
  }

  /** Chunk ids are a primary key. */
  ghost predicate DistinctIds(chunks: seq<ChunkRow>) {
    forall i, j :: 0 <= i < j < |chunks| ==> chunks[i].id != chunks[j].id
  }

  ghost predicate DistinctChunks(cands: seq<Candidate>) {
    forall i, j :: 0 <= i < j < |cands| ==> cands[i].chunk.id != cands[j].chunk.id
  }

  ghost predicate IsCandidate(c: Candidate, chunks: seq<ChunkRow>, conns: seq<ConnRow>, tenant: string, filter: Option<string>) {
    c.chunk in chunks && Newest(conns, c.chunk, tenant, filter) == Some(c.conn)
  }

  /** The candidate is a stored chunk with one of the tenant's connections on the chunk's row, of
      the connector asked for; none of those was created later. */
  ghost predicate ServedByNewest(c: Candidate, chunks: seq<ChunkRow>, conns: seq<ConnRow>, tenant: string, filter: Option<string>) {
    && c.chunk in chunks && c.conn in conns
    && c.conn.tenant == tenant && c.conn.specId == Some(c.chunk.specId) && (filter.Some? ==> c.conn.connectorKey == filter)
    && forall other :: other in conns && other.createdAt > c.conn.createdAt ==>
         other.tenant != tenant || other.specId != Some(c.chunk.specId) || (filter.Some? && other.connectorKey != filter)
  }

  lemma CandidateIsServed(c: Candidate, chunks: seq<ChunkRow>, conns: seq<ConnRow>, tenant: string, filter: Option<string>)
    requires IsCandidate(c, chunks, conns, tenant, filter)
    ensures ServedByNewest(c, chunks, conns, tenant, filter)
  {
    assert Reaches(c.conn, c.chunk, tenant, filter);
  }

  lemma {:induction false} CandidatesAreExact(chunks: seq<ChunkRow>, conns: seq<ConnRow>, tenant: string, filter: Option<string>)
    requires DistinctIds(chunks)
    ensures DistinctChunks(Candidates(chunks, conns, tenant, filter))
    ensures forall c :: c in Candidates(chunks, conns, tenant, filter) <==> IsCandidate(c, chunks, conns, tenant, filter)
  {
    if chunks != [] {
      CandidatesAreExact(chunks[1..], conns, tenant, filter);
      var rest, all := Candidates(chunks[1..], conns, tenant, filter), Candidates(chunks, conns, tenant, filter);
      assert forall ch :: ch in chunks <==> ch == chunks[0] || ch in chunks[1..];
      assert forall c :: c in all <==> c in rest || IsCandidate(c, [chunks[0]], conns, tenant, filter);
      forall c | c in rest
        ensures c.chunk.id != chunks[0].id
      {
        assert c.chunk in chunks[1..];
      }
    }
  }

  // ---------- scores ----------

  /** Ranks start at 1; a chunk that a channel did not return has none there. */
  function Term(k: nat, rank: Option<nat>): real
    requires rank.Some? ==> rank.value >= 1
  {
    match rank
    case None => 0.0
    case Some(r) => 1.0 / (k + r) as real
  }

  function Score(k: nat, semantic: Option<nat>, keyword: Option<nat>): real
    requires RankFrom1(semantic) && RankFrom1(keyword)
  {
    Term(k, semantic) + Term(k, keyword)
  }

  predicate RankFrom1(rank: Option<nat>) {
    rank.Some? ==> rank.value >= 1
  }

  lemma Reciprocal(a: real, b: real)
    requires 0.0 < a <= b
    ensures 0.0 < 1.0 / b <= 1.0 / a
    ensures a < b ==> 1.0 / b < 1.0 / a
  {
    assert 1.0 / a - 1.0 / b == (b - a) / (a * b);
  }

  lemma TermBounds(k: nat, rank: Option<nat>)
    requires RankFrom1(rank)
    ensures 0.0 <= Term(k, rank) <= 1.0 / (k + 1) as real
    ensures rank.Some? ==> Term(k, rank) > 0.0
  {
    if rank.Some? {
      Reciprocal((k + 1) as real, (k + rank.value) as real);
    }
  }

  predicate BetterRank(r: Option<nat>, than: Option<nat>) {
    r.Some? && (than.None? || r.value < than.value)
  }

  /** A score lies in (0, 2/61]. */
  lemma ScoreBounds(semantic: Option<nat>, keyword: Option<nat>)
    requires RankFrom1(semantic) && RankFrom1(keyword) && (semantic.Some? || keyword.Some?)
    ensures 0.0 < Score(RRF_K, semantic, keyword) <= 2.0 / 61.0
  {
    TermBounds(RRF_K, semantic);
    TermBounds(RRF_K, keyword);
  }

  /** A better rank in either channel is a better score. */
  lemma ScoreMonotone(k: nat, better: Option<nat>, worse: Option<nat>, other: Option<nat>)
    requires RankFrom1(better) && RankFrom1(worse) && RankFrom1(other) && BetterRank(better, worse)
    ensures Score(k, better, other) > Score(k, worse, other)
    ensures Score(k, other, better) > Score(k, other, worse)
  {
    TermBounds(k, better);
    if worse.Some? {
      Reciprocal((k + better.value) as real, (k + worse.value) as real);
    }
  }

  /** Ranks a and b together beat rank c alone. */
  predicate BeatsAt(k: nat, a: nat, b: nat, c: nat)
    requires a >= 1 && b >= 1 && c >= 1
  {
    1.0 / (k + a) as real + 1.0 / (k + b) as real > 1.0 / (k + c) as real
  }

  ghost predicate BothBeatsOne(k: nat, limit: nat) {
    forall a, b, c :: 1 <= a <= limit && 1 <= b <= limit && 1 <= c <= limit ==> BeatsAt(k, a, b, c)
  }

  /** Being found by both channels beats being found by one, whatever the ranks, exactly when
      the channels are cut at k + 1 or earlier; with k = 60 the cut is 50. */
  lemma DominanceExactlyUpToLimit(k: nat, limit: nat)
    requires limit >= 1
    ensures BothBeatsOne(k, limit) <==> limit <= k + 1
    ensures BothBeatsOne(60, 50)
  {
    if limit <= k + 1 {
      DominanceHolds(k, limit);
    } else {
      var far, near := (k + limit) as real, (k + 1) as real;
      assert far >= 2.0 * near;
      Reciprocal(2.0 * near, far);
      assert 1.0 / (2.0 * near) == (1.0 / near) / 2.0;
      assert !BeatsAt(k, limit, limit, 1);
    }
    DominanceHolds(RRF_K, PER_CHANNEL_LIMIT);
  }

  lemma DominanceHolds(k: nat, limit: nat)
    requires 1 <= limit <= k + 1
    ensures BothBeatsOne(k, limit)
  {
    forall a, b, c | 1 <= a <= limit && 1 <= b <= limit && 1 <= c <= limit
      ensures BeatsAt(k, a, b, c)
    {
      WorstPairBeatsBest(k, limit);
      Reciprocal((k + a) as real, (k + limit) as real);
      Reciprocal((k + b) as real, (k + limit) as real);
      Reciprocal((k + 1) as real, (k + c) as real);
    }
  }

  /** Twice the lowest term is more than the highest. */
  lemma WorstPairBeatsBest(k: nat, limit: nat)
    requires 1 <= limit <= k + 1
    ensures 1.0 / (k + limit) as real + 1.0 / (k + limit) as real > 1.0 / (k + 1) as real
  {
    var far, near := (k + limit) as real, (k + 1) as real;
    assert far < 2.0 * near;
    Reciprocal(far, 2.0 * near);
    assert 1.0 / (2.0 * near) == (1.0 / near) / 2.0;
  }

  // ---------- channels and their fusion ----------

  /** A channel returns the first PER_CHANNEL_LIMIT of its ranking. */
  function Channel(ranking: seq<ChunkId>): seq<ChunkId> {
    if |ranking| > PER_CHANNEL_LIMIT then ranking[..PER_CHANNEL_LIMIT] else ranking
  }

  function RankIn(channel: seq<ChunkId>, id: ChunkId): (rank: Option<nat>)
    ensures rank.Some? <==> id in channel
    ensures rank.Some? ==> 1 <= rank.value <= |channel| && channel[rank.value - 1] == id
  {
    if channel == [] then None
    else if channel[|channel| - 1] == id then Some(|channel|)
    else RankIn(channel[..|channel| - 1], id)
  }

  function FusedScore(id: ChunkId, semantic: seq<ChunkId>, keyword: seq<ChunkId>): real {
    Score(RRF_K, RankIn(Channel(semantic), id), RankIn(Channel(keyword), id))
  }

  predicate Fused(id: ChunkId, semantic: seq<ChunkId>, keyword: seq<ChunkId>) {
    id in Channel(semantic) || id in Channel(keyword)
  }

  /** The candidates some channel returned, each with its score. */
  function Hits(cands: seq<Candidate>, semantic: seq<ChunkId>, keyword: seq<ChunkId>): seq<Hit> {
    if cands == [] then []
    else
      var id, rest := cands[0].chunk.id, Hits(cands[1..], semantic, keyword);
      if Fused(id, semantic, keyword) then [Hit(cands[0], FusedScore(id, semantic, keyword))] + rest else rest
  }

  function Insert(h: Hit, hits: seq<Hit>): seq<Hit> {
    if hits == [] || h.score >= hits[0].score then [h] + hits else [hits[0]] + Insert(h, hits[1..])
  }

  function SortByScore(hits: seq<Hit>): seq<Hit> {
    if hits == [] then [] else Insert(hits[0], SortByScore(hits[1..]))
  }

  function Search(chunks: seq<ChunkRow>, conns: seq<ConnRow>, tenant: string, filter: Option<string>,
                  semantic: seq<ChunkId>, keyword: seq<ChunkId>, topK: nat): seq<Hit>
  {
    var sorted := SortByScore(Hits(Candidates(chunks, conns, tenant, filter), semantic, keyword));
    if |sorted| > topK then sorted[..topK] else sorted
  }

  ghost predicate Descending(hits: seq<Hit>) {
    forall i, j :: 0 <= i < j < |hits| ==> hits[i].score >= hits[j].score
  }

  lemma {:induction false} InsertIsPermutation(h: Hit, hits: seq<Hit>)
    ensures multiset(Insert(h, hits)) == multiset(hits) + multiset{h}
  {
    if hits != [] && h.score < hits[0].score {
      InsertIsPermutation(h, hits[1..]);
      assert hits == [hits[0]] + hits[1..];
    }
  }

  lemma InsertMembers(h: Hit, hits: seq<Hit>)
    ensures forall x :: x in Insert(h, hits) <==> x == h || x in hits
  {
    InsertIsPermutation(h, hits);
    forall x
      ensures x in Insert(h, hits) <==> x == h || x in hits
    {
      assert x in Insert(h, hits) <==> x in multiset(Insert(h, hits));
      assert x in hits <==> x in multiset(hits);
    }
  }

  lemma {:induction false} InsertKeeps(h: Hit, hits: seq<Hit>)
    requires Descending(hits)
    ensures Descending(Insert(h, hits))
  {
    if hits != [] && h.score < hits[0].score {
      InsertKeeps(h, hits[1..]);
      InsertMembers(h, hits[1..]);
      forall x | x in Insert(h, hits[1..])
        ensures x.score <= hits[0].score
      {
      }
    }
  }

  lemma {:induction false} SortKeeps(hits: seq<Hit>)
    ensures Descending(SortByScore(hits)) && multiset(SortByScore(hits)) == multiset(hits)
  {
    if hits != [] {
      SortKeeps(hits[1..]);
      InsertKeeps(hits[0], SortByScore(hits[1..]));
      InsertIsPermutation(hits[0], SortByScore(hits[1..]));
      assert hits == [hits[0]] + hits[1..];
    }
  }

  /** Some place among the first 50 of the ranking is the chunk's. */
  ghost predicate AmongFirst50(ranking: seq<ChunkId>, id: ChunkId) {
    exists i :: 0 <= i < 50 && i < |ranking| && ranking[i] == id
  }

  /** What the first `n` places of a ranking add to the chunk's score: each that is its own, from
      1 on, one over 60 and the place. */
  ghost function PlacesAdd(ranking: seq<ChunkId>, id: ChunkId, n: nat): real
    requires n <= |ranking|
  {
    if n == 0 then 0.0
    else PlacesAdd(ranking, id, n - 1) + if ranking[n - 1] == id then 1.0 / (60 + n) as real else 0.0
  }

  /** What fusion promises: a candidate that some channel has among its first 50 is found, and
      scores what its places there add. */
  ghost predicate Found(h: Hit, cands: seq<Candidate>, semantic: seq<ChunkId>, keyword: seq<ChunkId>) {
    var id := h.candidate.chunk.id;
    && h.candidate in cands
    && (AmongFirst50(semantic, id) || AmongFirst50(keyword, id))
    && h.score == PlacesAdd(semantic, id, Min(50, |semantic|)) + PlacesAdd(keyword, id, Min(50, |keyword|))
  }

  lemma {:induction false} PlacesAddOneTerm(ranking: seq<ChunkId>, id: ChunkId, n: nat)
    requires DistinctRanking(ranking) && n <= |ranking|
    ensures PlacesAdd(ranking, id, n) == Term(RRF_K, RankIn(ranking[..n], id))
  {
    if n > 0 {
      PlacesAddOneTerm(ranking, id, n - 1);
      assert ranking[..n][..n - 1] == ranking[..n - 1];
    }
  }

  lemma ChannelIsFirst50(ranking: seq<ChunkId>, id: ChunkId)
    ensures Channel(ranking) == ranking[..Min(50, |ranking|)]
    ensures id in Channel(ranking) <==> AmongFirst50(ranking, id)
  {
    assert ranking[..|ranking|] == ranking;
  }

  /** The hits are exactly what fusion promises, when each ranking lists a chunk once. */
  lemma HitsAreFound(cands: seq<Candidate>, semantic: seq<ChunkId>, keyword: seq<ChunkId>)
    ensures DistinctRanking(semantic) && DistinctRanking(keyword) ==>
              forall h :: IsHit(h, cands, semantic, keyword) <==> Found(h, cands, semantic, keyword)
  {
    if DistinctRanking(semantic) && DistinctRanking(keyword) {
      forall h
        ensures IsHit(h, cands, semantic, keyword) <==> Found(h, cands, semantic, keyword)
      {
        HitIsFound(h, cands, semantic, keyword);
      }
    }
  }

  lemma HitIsFound(h: Hit, cands: seq<Candidate>, semantic: seq<ChunkId>, keyword: seq<ChunkId>)
    requires DistinctRanking(semantic) && DistinctRanking(keyword)
    ensures IsHit(h, cands, semantic, keyword) <==> Found(h, cands, semantic, keyword)
  {
    var id := h.candidate.chunk.id;
    ChannelIsFirst50(semantic, id);
    ChannelIsFirst50(keyword, id);
    PlacesAddOneTerm(semantic, id, Min(50, |semantic|));
    PlacesAddOneTerm(keyword, id, Min(50, |keyword|));
  }

  /** A chunk's place in one ranking, from 0 on, and its term. */
  lemma {:induction false} PlaceTerm(ranking: seq<ChunkId>, i: nat, n: nat)
    requires DistinctRanking(ranking) && i < |ranking| && n <= |ranking|
    ensures PlacesAdd(ranking, ranking[i], n) == if i < n then 1.0 / (61 + i) as real else 0.0
  {
    if n > 0 {
      PlaceTerm(ranking, i, n - 1);
    }
  }

  ghost predicate IsHit(h: Hit, cands: seq<Candidate>, semantic: seq<ChunkId>, keyword: seq<ChunkId>) {
    var id := h.candidate.chunk.id;
    h.candidate in cands && Fused(id, semantic, keyword) && h.score == FusedScore(id, semantic, keyword)
  }

  ghost predicate DistinctHits(hits: seq<Hit>) {
    forall i, j :: 0 <= i < j < |hits| ==> hits[i].candidate.chunk.id != hits[j].candidate.chunk.id
  }

  lemma {:induction false} HitsAreExact(cands: seq<Candidate>, semantic: seq<ChunkId>, keyword: seq<ChunkId>)
    requires DistinctChunks(cands)
    ensures forall h :: h in Hits(cands, semantic, keyword) <==> IsHit(h, cands, semantic, keyword)
    ensures DistinctHits(Hits(cands, semantic, keyword))
  {
    if cands != [] {
      HitsAreExact(cands[1..], semantic, keyword);
      var rest, all := Hits(cands[1..], semantic, keyword), Hits(cands, semantic, keyword);
      assert forall c :: c in cands <==> c == cands[0] || c in cands[1..];
      assert forall h :: h in all <==> h in rest || IsHit(h, [cands[0]], semantic, keyword);
      forall h | h in rest
        ensures h.candidate.chunk.id != cands[0].chunk.id
      {
        assert h.candidate in cands[1..];
      }
    }
  }

  lemma InMultiset(a: seq<Hit>, b: seq<Hit>)
    requires multiset(a) == multiset(b)
    ensures |a| == |b|
    ensures forall h :: h in a <==> h in b
  {
    forall h
      ensures h in a <==> h in b
    {
      assert h in a <==> h in multiset(a);
      assert h in b <==> h in multiset(b);
    }
    assert |a| == |multiset(a)| && |b| == |multiset(b)|;
  }

  lemma {:induction false} InsertDistinct(h: Hit, hits: seq<Hit>)
    requires DistinctHits(hits)
    requires forall x :: x in hits ==> x.candidate.chunk.id != h.candidate.chunk.id
    ensures DistinctHits(Insert(h, hits))
  {
    if hits != [] && h.score < hits[0].score {
      InsertDistinct(h, hits[1..]);
      InsertMembers(h, hits[1..]);
      forall x | x in Insert(h, hits[1..])
        ensures x.candidate.chunk.id != hits[0].candidate.chunk.id
      {
      }
    }
  }

  lemma {:induction false} SortDistinct(hits: seq<Hit>)
    requires DistinctHits(hits)
    ensures DistinctHits(SortByScore(hits))
  {
    if hits != [] {
      SortDistinct(hits[1..]);
      SortKeeps(hits[1..]);
      InMultiset(SortByScore(hits[1..]), hits[1..]);
      InsertDistinct(hits[0], SortByScore(hits[1..]));
    }
  }

  /** The answer lists each chunk at most once, in descending score, bound to a newest of the
      tenant's connections that reach it; it has topK entries, or all there are, and whatever
      was found but is not listed scores no better than anything listed. */
  lemma SearchIsCorrect(chunks: seq<ChunkRow>, conns: seq<ConnRow>, tenant: string, filter: Option<string>,
                        semantic: seq<ChunkId>, keyword: seq<ChunkId>, topK: nat)
    requires DistinctIds(chunks)
    ensures var cands := Candidates(chunks, conns, tenant, filter);
            var answer := Search(chunks, conns, tenant, filter, semantic, keyword, topK);
            && DistinctHits(answer) && Descending(answer)
            && |answer| == Min(topK, |Hits(cands, semantic, keyword)|)
            && (forall h :: h in answer ==>
                  && IsHit(h, cands, semantic, keyword)
                  && IsCandidate(h.candidate, chunks, conns, tenant, filter))
            && (forall h :: IsHit(h, cands, semantic, keyword) && h !in answer ==>
                  |answer| == topK && forall x :: x in answer ==> x.score >= h.score)
    ensures DistinctRanking(semantic) && DistinctRanking(keyword) ==>
              forall h :: IsHit(h, Candidates(chunks, conns, tenant, filter), semantic, keyword) <==>
                          Found(h, Candidates(chunks, conns, tenant, filter), semantic, keyword)
    ensures forall h :: h in Search(chunks, conns, tenant, filter, semantic, keyword, topK) ==>
              ServedByNewest(h.candidate, chunks, conns, tenant, filter)
  {
    var cands := Candidates(chunks, conns, tenant, filter);
    CandidatesAreExact(chunks, conns, tenant, filter);
    BestOfSorted(cands, semantic, keyword, topK);
    HitsAreFound(cands, semantic, keyword);
    forall h | h in Search(chunks, conns, tenant, filter, semantic, keyword, topK)
      ensures IsHit(h, cands, semantic, keyword) && IsCandidate(h.candidate, chunks, conns, tenant, filter)
      ensures ServedByNewest(h.candidate, chunks, conns, tenant, filter)
    {
      ListedIsHit(chunks, conns, tenant, filter, semantic, keyword, topK, h);
    }
  }

  lemma BestOfSorted(cands: seq<Candidate>, semantic: seq<ChunkId>, keyword: seq<ChunkId>, topK: nat)
    requires DistinctChunks(cands)
    ensures var sorted := SortByScore(Hits(cands, semantic, keyword));
            var answer := if |sorted| > topK then sorted[..topK] else sorted;
            && DistinctHits(answer) && Descending(answer) && |answer| == Min(topK, |Hits(cands, semantic, keyword)|)
            && forall h :: IsHit(h, cands, semantic, keyword) && h !in answer ==>
                 |answer| == topK && forall x :: x in answer ==> x.score >= h.score
  {
    SortedHits(cands, semantic, keyword);
    TakeIsBest(SortByScore(Hits(cands, semantic, keyword)), topK);
  }

  lemma ListedIsHit(chunks: seq<ChunkRow>, conns: seq<ConnRow>, tenant: string, filter: Option<string>,
                    semantic: seq<ChunkId>, keyword: seq<ChunkId>, topK: nat, h: Hit)
    requires DistinctIds(chunks) && h in Search(chunks, conns, tenant, filter, semantic, keyword, topK)
    ensures IsHit(h, Candidates(chunks, conns, tenant, filter), semantic, keyword)
    ensures IsCandidate(h.candidate, chunks, conns, tenant, filter) && ServedByNewest(h.candidate, chunks, conns, tenant, filter)
  {
    var cands := Candidates(chunks, conns, tenant, filter);
    CandidatesAreExact(chunks, conns, tenant, filter);
    SortedHits(cands, semantic, keyword);
    assert h in SortByScore(Hits(cands, semantic, keyword));
    CandidateIsServed(h.candidate, chunks, conns, tenant, filter);
  }

  lemma SortedHits(cands: seq<Candidate>, semantic: seq<ChunkId>, keyword: seq<ChunkId>)
    requires DistinctChunks(cands)
    ensures var hits := Hits(cands, semantic, keyword);
            var sorted := SortByScore(hits);
            && DistinctHits(sorted) && Descending(sorted) && |sorted| == |hits|
            && forall h :: h in sorted <==> IsHit(h, cands, semantic, keyword)
  {
    var hits := Hits(cands, semantic, keyword);
    HitsAreExact(cands, semantic, keyword);
    SortKeeps(hits);
    SortDistinct(hits);
    InMultiset(SortByScore(hits), hits);
  }

  lemma TakeIsBest(sorted: seq<Hit>, topK: nat)
    requires Descending(sorted)
    ensures var answer := if |sorted| > topK then sorted[..topK] else sorted;
            forall h :: h in sorted && h !in answer ==>
              |answer| == topK && forall x :: x in answer ==> x.score >= h.score
  {
    var answer := if |sorted| > topK then sorted[..topK] else sorted;
    assert forall k :: 0 <= k < |answer| ==> answer[k] == sorted[k];
    forall h | h in sorted && h !in answer
      ensures |answer| == topK && forall x :: x in answer ==> x.score >= h.score
    {
      var i :| 0 <= i < |sorted| && sorted[i] == h;
      assert i >= |answer|;
    }
  }

  // ---------- how many come back ----------

  /** A channel that ranks every candidate, each once, and nothing else. */
  ghost predicate RanksAll(ranking: seq<ChunkId>, cands: seq<Candidate>) {
    && DistinctRanking(ranking)
    && (forall id :: id in ranking <==> exists c :: c in cands && c.chunk.id == id)
  }

  ghost predicate DistinctRanking(ranking: seq<ChunkId>) {
    forall i, j :: 0 <= i < j < |ranking| ==> ranking[i] != ranking[j]
  }

  function Ids(ids: seq<ChunkId>): set<ChunkId> {
    set id | id in ids
  }

  lemma {:induction false} DistinctIdsCount(ids: seq<ChunkId>)
    ensures |Ids(ids)| <= |ids| && (DistinctRanking(ids) ==> |Ids(ids)| == |ids|)
  {
    if ids != [] {
      var before, last := ids[..|ids| - 1], ids[|ids| - 1];
      DistinctIdsCount(before);
      assert Ids(ids) == Ids(before) + {last};
    }
  }

  function CandidateIds(cands: seq<Candidate>): (ids: seq<ChunkId>)
    ensures |ids| == |cands| && forall i :: 0 <= i < |cands| ==> ids[i] == cands[i].chunk.id
  {
    seq(|cands|, i requires 0 <= i < |cands| => cands[i].chunk.id)
  }

  function HitIds(hits: seq<Hit>): (ids: seq<ChunkId>)
    ensures |ids| == |hits| && forall i :: 0 <= i < |hits| ==> ids[i] == hits[i].candidate.chunk.id
  {
    seq(|hits|, i requires 0 <= i < |hits| => hits[i].candidate.chunk.id)
  }

  lemma RankingCount(ranking: seq<ChunkId>, cands: seq<Candidate>)
    requires RanksAll(ranking, cands) && DistinctChunks(cands)
    ensures |ranking| == |cands|
  {
    var ids := CandidateIds(cands);
    forall id
      ensures id in ids <==> id in ranking
    {
      if c :| c in cands && c.chunk.id == id {
        var i :| 0 <= i < |cands| && cands[i] == c;
        assert ids[i] == id;
      }
      if id in ids {
        var i :| 0 <= i < |ids| && ids[i] == id;
        assert cands[i] in cands;
      }
    }
    assert Ids(ids) == Ids(ranking);
    DistinctIdsCount(ids);
    DistinctIdsCount(ranking);
  }

  /** Every id of the semantic channel is a hit's. */
  lemma ChannelIsHit(cands: seq<Candidate>, semantic: seq<ChunkId>, keyword: seq<ChunkId>)
    requires RanksAll(semantic, cands) && DistinctChunks(cands)
    ensures Ids(Channel(semantic)) <= Ids(HitIds(Hits(cands, semantic, keyword)))
  {
    var hits := Hits(cands, semantic, keyword);
    HitsAreExact(cands, semantic, keyword);
    forall id | id in Channel(semantic)
      ensures id in HitIds(hits)
    {
      assert id in semantic;
      var c :| c in cands && c.chunk.id == id;
      var h := Hit(c, FusedScore(id, semantic, keyword));
      assert IsHit(h, cands, semantic, keyword);
      var i :| 0 <= i < |hits| && hits[i] == h;
      assert HitIds(hits)[i] == id;
    }
  }

  lemma SubsetIsSmaller(a: set<ChunkId>, b: set<ChunkId>)
    requires a <= b
    ensures |a| <= |b|
  {
    assert b == a + (b - a);
  }

  /** When the semantic channel ranks every candidate, as it does, the answer has topK entries
      or as many as there are candidates, up to the channel's limit. */
  lemma AnswerIsFilled(chunks: seq<ChunkRow>, conns: seq<ConnRow>, tenant: string, filter: Option<string>,
                       semantic: seq<ChunkId>, keyword: seq<ChunkId>, topK: nat)
    requires DistinctIds(chunks) && RanksAll(semantic, Candidates(chunks, conns, tenant, filter))
    ensures |Search(chunks, conns, tenant, filter, semantic, keyword, topK)| >=
            Min(topK, Min(50, |Candidates(chunks, conns, tenant, filter)|))
  {
    var cands := Candidates(chunks, conns, tenant, filter);
    CandidatesAreExact(chunks, conns, tenant, filter);
    SearchIsCorrect(chunks, conns, tenant, filter, semantic, keyword, topK);
    RankingCount(semantic, cands);
    var hits := Hits(cands, semantic, keyword);
    ChannelIsHit(cands, semantic, keyword);
    SubsetIsSmaller(Ids(Channel(semantic)), Ids(HitIds(hits)));
    DistinctIdsCount(Channel(semantic));
    DistinctIdsCount(HitIds(hits));
  }

  /** A candidate that is all the semantic channel has, with nothing from the other, is found. */
  lemma OnlyRanked(chunks: seq<ChunkRow>, conns: seq<ConnRow>, tenant: string, filter: Option<string>, cand: Candidate)
    returns (h: Hit)
    requires DistinctIds(chunks) && cand in Candidates(chunks, conns, tenant, filter)
    ensures h in Search(chunks, conns, tenant, filter, [cand.chunk.id], [], 1) && h.candidate == cand
  {
    var semantic, keyword := [cand.chunk.id], [];
    var cands := Candidates(chunks, conns, tenant, filter);
    CandidatesAreExact(chunks, conns, tenant, filter);
    HitsAreExact(cands, semantic, keyword);
    h := Hit(cand, FusedScore(cand.chunk.id, semantic, keyword));
    assert IsHit(h, cands, semantic, keyword);
    SearchIsCorrect(chunks, conns, tenant, filter, semantic, keyword, 1);
    var answer := Search(chunks, conns, tenant, filter, semantic, keyword, 1);
    if h !in answer {
      assert |answer| == 1;
      OnlyHit(cands, cand, answer[0]);
      assert false;
    }
  }

  lemma OnlyHit(cands: seq<Candidate>, cand: Candidate, h: Hit)
    requires DistinctChunks(cands) && cand in cands && IsHit(h, cands, [cand.chunk.id], [])
    ensures h == Hit(cand, FusedScore(cand.chunk.id, [cand.chunk.id], []))
  {
  }

  // ---------- one channel alone ----------

  lemma AloneScores(h: Hit, cands: seq<Candidate>, semantic: seq<ChunkId>) returns (i: nat)
    requires DistinctRanking(semantic) && Found(h, cands, semantic, [])
    ensures i < 50 && i < |semantic| && semantic[i] == h.candidate.chunk.id && h.score == 1.0 / (61 + i) as real
  {
    i :| 0 <= i < 50 && i < |semantic| && semantic[i] == h.candidate.chunk.id;
    PlaceTerm(semantic, i, Min(50, |semantic|));
  }

  lemma AloneIsFound(cands: seq<Candidate>, semantic: seq<ChunkId>, i: nat) returns (h: Hit)
    requires RanksAll(semantic, cands) && i < 50 && i < |semantic|
    ensures Found(h, cands, semantic, []) && h.candidate.chunk.id == semantic[i] && h.score == 1.0 / (61 + i) as real
  {
    assert semantic[i] in semantic;
    var c :| c in cands && c.chunk.id == semantic[i];
    h := Hit(c, 1.0 / (61 + i) as real);
    PlaceTerm(semantic, i, Min(50, |semantic|));
  }

  /** The answer to a search that no text matches, as far as it is used below. */
  ghost predicate AnswersAlone(answer: seq<Hit>, cands: seq<Candidate>, semantic: seq<ChunkId>, topK: nat) {
    && DistinctHits(answer) && Descending(answer) && |answer| <= topK
    && (forall h :: h in answer ==> Found(h, cands, semantic, []))
    && (forall h :: Found(h, cands, semantic, []) && h !in answer ==>
          |answer| == topK && forall x :: x in answer ==> x.score >= h.score)
  }

  /** The places of the answer's first `n` entries are 0 to n - 1, in order. */
  lemma {:induction false} AloneInOrder(answer: seq<Hit>, cands: seq<Candidate>, semantic: seq<ChunkId>, topK: nat, n: nat)
    requires AnswersAlone(answer, cands, semantic, topK) && RanksAll(semantic, cands) && n <= |answer|
    ensures n <= 50 && n <= |semantic|
    ensures forall i :: 0 <= i < n ==> answer[i].candidate.chunk.id == semantic[i]
  {
    if n > 0 {
      var k := n - 1;
      AloneInOrder(answer, cands, semantic, topK, k);
      var p := AloneScores(answer[k], cands, semantic);
      if p < k {
        assert false;
      }
      if p > k {
        var h := AloneIsFound(cands, semantic, k);
        Reciprocal((61 + k) as real, (61 + p) as real);
        assert h.score > answer[k].score;
        AloneNotPassedOver(answer, cands, semantic, topK, k, h);
        assert false;
      }
    }
  }

  lemma AloneNotPassedOver(answer: seq<Hit>, cands: seq<Candidate>, semantic: seq<ChunkId>, topK: nat, k: nat, h: Hit)
    requires AnswersAlone(answer, cands, semantic, topK) && RanksAll(semantic, cands) && k < |answer| && k < |semantic|
    requires Found(h, cands, semantic, []) && h.candidate.chunk.id == semantic[k]
    requires forall i :: 0 <= i < k ==> answer[i].candidate.chunk.id == semantic[i]
    ensures h.score <= answer[k].score
  {
    if h !in answer {
      assert answer[k] in answer;
    } else {
      var i :| 0 <= i < |answer| && answer[i] == h;
      if i < k {
        assert false;
      }
    }
  }

  /** When no text matches, the answer is the head of the semantic ranking, in its order: as many
      as asked for, as are ranked, or 50. */
  lemma SemanticAloneKeepsItsOrder(chunks: seq<ChunkRow>, conns: seq<ConnRow>, tenant: string, filter: Option<string>,
                                   semantic: seq<ChunkId>, topK: nat)
    requires DistinctIds(chunks) && RanksAll(semantic, Candidates(chunks, conns, tenant, filter))
    ensures HitIds(Search(chunks, conns, tenant, filter, semantic, [], topK)) == semantic[..Min(topK, Min(50, |semantic|))]
  {
    var cands := Candidates(chunks, conns, tenant, filter);
    var answer := Search(chunks, conns, tenant, filter, semantic, [], topK);
    SearchIsCorrect(chunks, conns, tenant, filter, semantic, [], topK);
    AloneInOrder(answer, cands, semantic, topK, |answer|);
    if |answer| < Min(topK, Min(50, |semantic|)) {
      var h := AloneIsFound(cands, semantic, |answer|);
      assert false;
    }
  }

  // ---------- both channels first ----------

  ghost predicate InBoth(h: Hit, semantic: seq<ChunkId>, keyword: seq<ChunkId>) {
    AmongFirst50(semantic, h.candidate.chunk.id) && AmongFirst50(keyword, h.candidate.chunk.id)
  }

  lemma BothScoresHigher(x: Hit, y: Hit, cands: seq<Candidate>, semantic: seq<ChunkId>, keyword: seq<ChunkId>)
    requires IsHit(x, cands, semantic, keyword) && IsHit(y, cands, semantic, keyword)
    requires !InBoth(x, semantic, keyword) && InBoth(y, semantic, keyword)
    ensures y.score > x.score
  {
    DominanceExactlyUpToLimit(RRF_K, PER_CHANNEL_LIMIT);
    ChannelIsFirst50(semantic, x.candidate.chunk.id);
    ChannelIsFirst50(keyword, x.candidate.chunk.id);
    ChannelIsFirst50(semantic, y.candidate.chunk.id);
    ChannelIsFirst50(keyword, y.candidate.chunk.id);
    var a := RankIn(Channel(semantic), y.candidate.chunk.id).value;
    var b := RankIn(Channel(keyword), y.candidate.chunk.id).value;
    var id := x.candidate.chunk.id;
    var c := if id in Channel(semantic) then RankIn(Channel(semantic), id).value else RankIn(Channel(keyword), id).value;
    assert BeatsAt(RRF_K, a, b, c);
  }

  /** In any answer, what both channels found stands before what only one of them found. */
  lemma BothChannelsComeFirst(chunks: seq<ChunkRow>, conns: seq<ConnRow>, tenant: string, filter: Option<string>,
                              semantic: seq<ChunkId>, keyword: seq<ChunkId>, topK: nat, i: nat, j: nat)
    requires DistinctIds(chunks)
    requires i < j < |Search(chunks, conns, tenant, filter, semantic, keyword, topK)|
    ensures var answer := Search(chunks, conns, tenant, filter, semantic, keyword, topK);
            InBoth(answer[j], semantic, keyword) ==> InBoth(answer[i], semantic, keyword)
  {
    SearchIsCorrect(chunks, conns, tenant, filter, semantic, keyword, topK);
    var answer := Search(chunks, conns, tenant, filter, semantic, keyword, topK);
    if InBoth(answer[j], semantic, keyword) && !InBoth(answer[i], semantic, keyword) {
      assert answer[i] in answer && answer[j] in answer;
      BothScoresHigher(answer[i], answer[j], Candidates(chunks, conns, tenant, filter), semantic, keyword);
      assert false;
    }
  }
}
