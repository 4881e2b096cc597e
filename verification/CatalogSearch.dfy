/** Hybrid search over the tables that the catalog's transactions leave behind. */
module CatalogSearch {
  import opened Wrappers
  import opened Json
  import Fetcher
  import opened Enricher
  import opened Catalog
  import opened Connections
  import opened Execution
  import opened StoredOperations
  import R = RankFusion

  // ---------- the tables as search reads them ----------

  function ChunkAt(db: Db, id: SpecId, place: nat): R.ChunkRow
    requires id in db.chunks && place < |db.chunks[id]|
  {
    var chunk := db.chunks[id][place].chunk;
    R.ChunkRow(R.ChunkId(id, place), id, chunk.operationId, chunk.httpMethod, chunk.path, chunk.summary)
  }

  predicate Stored(db: Db, ch: R.ChunkRow) {
    && ch.specId in db.chunks && ch.id.place < |db.chunks[ch.specId]|
    && ch == ChunkAt(db, ch.specId, ch.id.place)
  }

  function ConnAt(db: Db, c: ConnId): R.ConnRow
    requires c in db.conns
  {
    var conn := db.conns[c];
    R.ConnRow(c, conn.tenant, conn.connectorKey, conn.specId, conn.createdAt)
  }

  predicate Present(db: Db, conn: R.ConnRow) {
    conn.id in db.conns && conn == ConnAt(db, conn.id)
  }

  /** A listing of the two tables, in whatever order. */
  ghost predicate ListsTables(db: Db, chunks: seq<R.ChunkRow>, conns: seq<R.ConnRow>) {
    && R.DistinctIds(chunks)
    && (forall ch :: ch in chunks <==> Stored(db, ch))
    && (forall conn :: conn in conns <==> Present(db, conn))
  }

  // ---------- there is always a listing ----------

  lemma {:induction false} ListConns(db: Db, ids: set<ConnId>) returns (conns: seq<R.ConnRow>)
    requires ids <= db.conns.Keys
    ensures forall conn :: conn in conns <==> Present(db, conn) && conn.id in ids
  {
    conns := [];
    if ids != {} {
      var c :| c in ids;
      var rest := ListConns(db, ids - {c});
      conns := [ConnAt(db, c)] + rest;
    }
  }

  /** The chunks of one row. */
  function ChunksAt(db: Db, id: SpecId): (s: seq<R.ChunkRow>)
    requires id in db.chunks
    ensures |s| == |db.chunks[id]| && forall i :: 0 <= i < |s| ==> s[i] == ChunkAt(db, id, i)
  {
    seq(|db.chunks[id]|, i requires 0 <= i < |db.chunks[id]| => ChunkAt(db, id, i))
  }

  lemma {:induction false} ListChunks(db: Db, ids: set<SpecId>) returns (chunks: seq<R.ChunkRow>)
    requires ids <= db.chunks.Keys
    ensures R.DistinctIds(chunks)
    ensures forall ch :: ch in chunks <==> Stored(db, ch) && ch.specId in ids
  {
    chunks := [];
    if ids != {} {
      var id :| id in ids;
      var rest := ListChunks(db, ids - {id});
      chunks := ChunksAt(db, id) + rest;
      forall ch
        ensures ch in chunks <==> Stored(db, ch) && ch.specId in ids
      {
        if Stored(db, ch) && ch.specId == id {
          assert ChunksAt(db, id)[ch.id.place] == ch;
        }
      }
      forall i, j | 0 <= i < j < |chunks|
        ensures chunks[i].id != chunks[j].id
      {
        if |ChunksAt(db, id)| <= j {
          assert chunks[j] in rest;
        }
      }
    }
  }

  lemma ListingExists(db: Db) returns (chunks: seq<R.ChunkRow>, conns: seq<R.ConnRow>)
    ensures ListsTables(db, chunks, conns)
  {
    chunks := ListChunks(db, db.chunks.Keys);
    conns := ListConns(db, db.conns.Keys);
  }

  // ---------- what a search finds ----------

  /** The tenant's connection `c` gives access to the row, and the filter lets it through. */
  predicate Serves(db: Db, c: ConnId, tenant: string, filter: Option<string>, specId: SpecId) {
    && Refers(db, c, specId) && db.conns[c].tenant == tenant
    && (filter.Some? ==> db.conns[c].connectorKey == filter)
  }

  /** And none that does was created later. */
  ghost predicate ServesNewest(db: Db, c: ConnId, tenant: string, filter: Option<string>, specId: SpecId) {
    && Serves(db, c, tenant, filter, specId)
    && forall d :: Serves(db, d, tenant, filter, specId) ==> db.conns[d].createdAt <= db.conns[c].createdAt
  }

  /** What is shown of a hit is what the stored chunk in its place says. */
  predicate IsShown(ch: R.ChunkRow, rows: seq<ChunkRow>) {
    && ch.id.place < |rows|
    && var chunk := rows[ch.id.place].chunk;
       && ch.operationId == chunk.operationId && ch.httpMethod == chunk.httpMethod
       && ch.path == chunk.path && ch.summary == chunk.summary
  }

  /** After any run of transactions, every search hit is a stored chunk reached through a newest
      of the tenant's connections on its row: no tenant sees a row that none of its connections
      is on. That connection has recorded the row's hash, and is ready or, exactly when it has an
      error, failed. */
  lemma HitsComeFromTheCatalog(events: seq<Event>, chunks: seq<R.ChunkRow>, conns: seq<R.ConnRow>, tenant: string,
                               filter: Option<string>, semantic: seq<R.ChunkId>, keyword: seq<R.ChunkId>, topK: nat, h: R.Hit)
    requires ListsTables(AfterAll(events), chunks, conns)
    requires h in R.Search(chunks, conns, tenant, filter, semantic, keyword, topK)
    ensures var db, specId, c := AfterAll(events), h.candidate.chunk.specId, h.candidate.conn.id;
            && Stored(db, h.candidate.chunk) && specId in db.specs && IsShown(h.candidate.chunk, db.chunks[specId])
            && Present(db, h.candidate.conn) && ServesNewest(db, c, tenant, filter, specId)
            && db.conns[c].specHash == Some(db.specs[specId].identity.specHash)
            && db.conns[c].status == if db.conns[c].lastError.None? then Ready else Failed
  {
    HitIsCandidate(chunks, conns, tenant, filter, semantic, keyword, topK, h);
    NewestIsRight(AfterAll(events), conns, h, tenant, filter);
    EveryRunIsConsistent(events);
    ServingIsSound(AfterAll(events), h.candidate.conn.id, tenant, filter, h.candidate.chunk.specId);
  }

  lemma HitIsCandidate(chunks: seq<R.ChunkRow>, conns: seq<R.ConnRow>, tenant: string, filter: Option<string>,
                       semantic: seq<R.ChunkId>, keyword: seq<R.ChunkId>, topK: nat, h: R.Hit)
    requires R.DistinctIds(chunks) && h in R.Search(chunks, conns, tenant, filter, semantic, keyword, topK)
    ensures h.candidate.chunk in chunks
    ensures R.Newest(conns, h.candidate.chunk, tenant, filter) == Some(h.candidate.conn)
  {
    R.SearchIsCorrect(chunks, conns, tenant, filter, semantic, keyword, topK);
    assert R.IsCandidate(h.candidate, chunks, conns, tenant, filter);
  }

  lemma ServingIsSound(db: Db, c: ConnId, tenant: string, filter: Option<string>, specId: SpecId)
    requires Inv(db) && Serves(db, c, tenant, filter, specId)
    ensures specId in db.specs && db.conns[c].specHash == Some(db.specs[specId].identity.specHash)
    ensures db.conns[c].status == if db.conns[c].lastError.None? then Ready else Failed
  {
    assert Sound(db, db.conns[c]);
  }

  lemma NewestIsRight(db: Db, conns: seq<R.ConnRow>, h: R.Hit, tenant: string, filter: Option<string>)
    requires forall conn :: conn in conns <==> Present(db, conn)
    requires R.Newest(conns, h.candidate.chunk, tenant, filter) == Some(h.candidate.conn)
    ensures Present(db, h.candidate.conn) && ServesNewest(db, h.candidate.conn.id, tenant, filter, h.candidate.chunk.specId)
  {
    forall c | Serves(db, c, tenant, filter, h.candidate.chunk.specId)
      ensures db.conns[c].createdAt <= h.candidate.conn.createdAt
    {
      assert R.Reaches(ConnAt(db, c), h.candidate.chunk, tenant, filter);
    }
  }

  /** If the document loaded at execution is the one the row was made of, the hit's operation
      id is found in it. */
  lemma HitsAreExecutable(events: seq<Event>, chunks: seq<R.ChunkRow>, conns: seq<R.ConnRow>, tenant: string,
                          filter: Option<string>, semantic: seq<R.ChunkId>, keyword: seq<R.ChunkId>, topK: nat, h: R.Hit,
                          loaded: LoadedSpec)
    requires ListsTables(AfterAll(events), chunks, conns)
    requires h in R.Search(chunks, conns, tenant, filter, semantic, keyword, topK)
    requires h.candidate.chunk.specId in AfterAll(events).specs
    requires Unchanged(AfterAll(events).specs[h.candidate.chunk.specId], loaded) && DistinctKeys(PathsOf(loaded.document))
    ensures var found := FindOperation(loaded.document, h.candidate.chunk.operationId);
            found.Ok? && found.value.operationId == h.candidate.chunk.operationId
  {
    HitsComeFromTheCatalog(events, chunks, conns, tenant, filter, semantic, keyword, topK, h);
    StoredChunksAreExecutable(events, h.candidate.chunk.specId, h.candidate.chunk.id.place, loaded);
  }

  // ---------- the status of a hit's connection ----------

  predicate IsReady(db: Db, c: ConnId) {
    c in db.conns && db.conns[c].status == Ready
  }

  /** Whatever a tenant searches for, it gets operations of ready connections only. */
  ghost predicate ReadyOnly(db: Db, tenant: string, filter: Option<string>) {
    forall chunks, conns, semantic, keyword, topK: nat, h ::
      ListsTables(db, chunks, conns) && h in R.Search(chunks, conns, tenant, filter, semantic, keyword, topK) ==>
        IsReady(db, h.candidate.conn.id)
  }

  ghost predicate ReadyOnRows(db: Db, tenant: string, filter: Option<string>) {
    forall c, specId :: ServesNewest(db, c, tenant, filter, specId) && HasChunks(db, specId) ==> IsReady(db, c)
  }

  predicate HasChunks(db: Db, specId: SpecId) {
    specId in db.chunks && db.chunks[specId] != []
  }

  /** Search does not look at the status: hits are of ready connections only, exactly when on
      every row with chunks the connections it would name are ready. */
  lemma ReadyOnlyExactly(events: seq<Event>, tenant: string, filter: Option<string>)
    ensures ReadyOnly(AfterAll(events), tenant, filter) <==> ReadyOnRows(AfterAll(events), tenant, filter)
  {
    var db := AfterAll(events);
    if ReadyOnRows(db, tenant, filter) {
      forall chunks, conns, semantic, keyword, topK: nat, h |
        ListsTables(db, chunks, conns) && h in R.Search(chunks, conns, tenant, filter, semantic, keyword, topK)
        ensures IsReady(db, h.candidate.conn.id)
      {
        HitsComeFromTheCatalog(events, chunks, conns, tenant, filter, semantic, keyword, topK, h);
        assert HasChunks(db, h.candidate.chunk.specId);
      }
    }
    if ReadyOnly(db, tenant, filter) {
      forall c, specId | ServesNewest(db, c, tenant, filter, specId) && HasChunks(db, specId)
        ensures IsReady(db, c)
      {
        var chunks, conns, semantic, h := FoundThrough(db, c, tenant, filter, specId);
      }
    }
  }

  /** A newest connection on a row with chunks can be the one that a search names. */
  lemma FoundThrough(db: Db, c: ConnId, tenant: string, filter: Option<string>, specId: SpecId)
    returns (chunks: seq<R.ChunkRow>, conns: seq<R.ConnRow>, semantic: seq<R.ChunkId>, h: R.Hit)
    requires ServesNewest(db, c, tenant, filter, specId) && HasChunks(db, specId)
    ensures ListsTables(db, chunks, conns)
    ensures h in R.Search(chunks, conns, tenant, filter, semantic, [], 1) && h.candidate.conn.id == c
  {
    var listed;
    chunks, listed := ListingExists(db);
    conns := [ConnAt(db, c)] + listed;
    var ch := ChunkAt(db, specId, 0);
    semantic := [ch.id];
    NamedFirst(db, c, tenant, filter, specId, listed, ch);
    R.CandidatesAreExact(chunks, conns, tenant, filter);
    var cand := R.Candidate(ch, ConnAt(db, c));
    assert Stored(db, ch) && R.IsCandidate(cand, chunks, conns, tenant, filter);
    h := R.OnlyRanked(chunks, conns, tenant, filter, cand);
  }

  lemma NamedFirst(db: Db, c: ConnId, tenant: string, filter: Option<string>, specId: SpecId, listed: seq<R.ConnRow>, ch: R.ChunkRow)
    requires ServesNewest(db, c, tenant, filter, specId) && ch.specId == specId
    requires forall conn :: conn in listed <==> Present(db, conn)
    ensures R.Newest([ConnAt(db, c)] + listed, ch, tenant, filter) == Some(ConnAt(db, c))
    ensures forall conn :: conn in [ConnAt(db, c)] + listed <==> Present(db, conn)
  {
    var all := [ConnAt(db, c)] + listed;
    assert all[1..] == listed;
    var rest := R.Newest(listed, ch, tenant, filter);
    if rest.Some? {
      assert Serves(db, rest.value.id, tenant, filter, specId);
    }
  }

  /** It happens that a failed connection is searched: a document is uploaded, and a later
      reindex is rejected. */
  lemma FailedConnectionIsSearched() returns (events: seq<Event>)
    ensures |events| == 3 && events[0].Create? && events[1].Upload? && events[2].Reindex? && events[2].loaded.Rejected?
    ensures events[1].parsed.Ok? && Fetcher.DetectFormat(events[1].parsed.value.document) == Fetcher.OpenApi3
    ensures !ReadyOnly(AfterAll(events), "t", None)
  {
    var spec := LoadedSpec(OneGet("/a", "x"), "h");
    var env := Env(Embedder("m", 3, Some([[0.0, 0.0, 1.0]])), 7, 0);
    var upload, reindex := Upload("t", 0, "b", Ok(spec), env), Reindex("t", 0, Rejected("unreachable"), env);
    events := [] + [FIRST_CREATE] + [upload] + [reindex];
    AfterOneMore([], FIRST_CREATE);
    AfterOneMore([] + [FIRST_CREATE], upload);
    AfterOneMore([] + [FIRST_CREATE] + [upload], reindex);
    PathsOfOneGet("/a", "x");
    OneGetUploaded(spec, env);
    RejectedStaysOnRow(After(After(EMPTY, FIRST_CREATE), upload), reindex);
    ReadyOnlyExactly(events, "t", None);
  }

  lemma OneGetUploaded(spec: LoadedSpec, env: Env)
    requires spec == LoadedSpec(OneGet("/a", "x"), "h") && env.newId == 7
    requires env.emb.vectors.Some? && |env.emb.vectors.value| == 1
    ensures var after := After(After(EMPTY, FIRST_CREATE), Upload("t", 0, "b", Ok(spec), env));
            after.conns.Keys == {0} && after.conns[0].tenant == "t" && after.conns[0].specId == Some(7) && HasChunks(after, 7)
  {
    OneGetIsRead("/a", "x");
    OneChunk(spec.document, OperationFrom("/a", "get", Declared("x"), [], []));
    UploadMakesARow(spec, env);
  }

  lemma RejectedStaysOnRow(db: Db, reindex: Event)
    requires db.conns.Keys == {0} && db.conns[0].tenant == "t" && db.conns[0].specId == Some(7) && HasChunks(db, 7)
    requires reindex.Reindex? && reindex.tenant == "t" && reindex.c == 0 && reindex.loaded.Rejected?
    ensures !ReadyOnRows(After(db, reindex), "t", None)
  {
    var after := After(db, reindex);
    assert after.conns.Keys == {0} && after.chunks == db.chunks;
    assert ServesNewest(after, 0, "t", None, 7) && HasChunks(after, 7) && !IsReady(after, 0);
  }

  /** So a tenant none of whose connections is on a row, as after losing its only one, finds
      nothing. */
  lemma NoRowNoHits(events: seq<Event>, chunks: seq<R.ChunkRow>, conns: seq<R.ConnRow>, tenant: string,
                    filter: Option<string>, semantic: seq<R.ChunkId>, keyword: seq<R.ChunkId>, topK: nat)
    requires ListsTables(AfterAll(events), chunks, conns)
    requires forall c :: c in AfterAll(events).conns && AfterAll(events).conns[c].tenant == tenant ==>
               AfterAll(events).conns[c].specId.None?
    ensures R.Search(chunks, conns, tenant, filter, semantic, keyword, topK) == []
  {
    var answer := R.Search(chunks, conns, tenant, filter, semantic, keyword, topK);
    if answer != [] {
      HitsComeFromTheCatalog(events, chunks, conns, tenant, filter, semantic, keyword, topK, answer[0]);
      assert false;
    }
  }

  /** Conversely, every chunk of a row that one of the tenant's connections is on, and that the
      filter lets through, is a candidate. */
  lemma ReachableIsCandidate(db: Db, chunks: seq<R.ChunkRow>, conns: seq<R.ConnRow>, tenant: string, filter: Option<string>,
                             c: ConnId, specId: SpecId, place: nat)
    requires ListsTables(db, chunks, conns) && Serves(db, c, tenant, filter, specId)
    requires specId in db.chunks && place < |db.chunks[specId]|
    ensures exists cand :: cand in R.Candidates(chunks, conns, tenant, filter) && cand.chunk == ChunkAt(db, specId, place)
  {
    var ch := ChunkAt(db, specId, place);
    R.CandidatesAreExact(chunks, conns, tenant, filter);
    assert Stored(db, ch) && Present(db, ConnAt(db, c));
    assert R.Reaches(ConnAt(db, c), ch, tenant, filter);
    var cand := R.Candidate(ch, R.Newest(conns, ch, tenant, filter).value);
    assert R.IsCandidate(cand, chunks, conns, tenant, filter);
  }
}
