/** The shared catalog of indexed documents: a row per document identity, its chunks, and the
    connections that point at it. */
module Catalog {
  import opened Wrappers
  import opened Json
  import opened Enricher
  import opened Chunker

  type SpecId = nat
  type ConnId = nat

  /** The modes of a connection; each also names a kind of source. */
  datatype Mode = Builtin | OpenapiUrl | OpenapiUpload | BareUrl

  datatype Status = Pending | Indexing | Ready | Failed

  /** `specUrl` is held in its normal form (lower-case scheme and host, no trailing slash). */
  datatype Connection = Connection(
    tenant: string, connectorKey: Option<string>, mode: Mode, specUrl: Option<string>, blob: Option<string>,
    status: Status, lastError: Option<string>, lastIndexedAt: Option<int>,
    endpointCount: nat, specHash: Option<string>, specId: Option<SpecId>, createdAt: int)

  datatype Identity = Identity(sourceType: Mode, sourceKey: string, specHash: string, model: string, dim: nat)

  datatype SpecRow = SpecRow(identity: Identity, operationCount: nat, rawSpec: seq<Field>)

  type Vector = seq<real>

  datatype ChunkRow = ChunkRow(chunk: SpecChunk, embedding: Vector)

  datatype Db = Db(specs: map<SpecId, SpecRow>, chunks: map<SpecId, seq<ChunkRow>>, conns: map<ConnId, Connection>)

  datatype LoadedSpec = LoadedSpec(document: seq<Field>, rawHash: string)

  /** An embedding provider, and what it answers this time; None when it raises. */
  datatype Embedder = Embedder(model: string, dim: nat, vectors: Option<seq<Vector>>)

  datatype IndexResult = IndexResult(operationCount: nat, chunkCount: nat, specHash: string, reused: bool)

  datatype Failure = BadDocument(error: PyError) | DuplicateId | EmbeddingRaised | CountMismatch | LoadRaised | VaultRaised

  /** What a transaction has written so far, and what the call returned or raised. */
  datatype Outcome<T> = Outcome(db: Db, result: Result<T, Failure>)

  // ---------- identity ----------

  predicate Given(s: Option<string>) {
    s.Some? && s.value != []
  }

  function ResolveSource(conn: Connection, specHash: string): (Mode, string) {
    if conn.mode == Builtin && Given(conn.connectorKey) then (Builtin, conn.connectorKey.value)
    else if conn.mode == OpenapiUrl && Given(conn.specUrl) then (OpenapiUrl, conn.specUrl.value)
    else if conn.mode == OpenapiUpload then (OpenapiUpload, specHash)
    else (BareUrl, if Given(conn.connectorKey) then conn.connectorKey.value else "bare")
  }

  function IdentityOf(conn: Connection, specHash: string, emb: Embedder): Identity {
    var (sourceType, sourceKey) := ResolveSource(conn, specHash);
    Identity(sourceType, sourceKey, specHash, emb.model, emb.dim)
  }

  /** The source of a connection, mode by mode: a builtin connection's connector, a URL connection's
      URL, an upload's own hash; where what the mode needs is missing, and for a bare URL, the
      connector or else the word "bare". */
  lemma ResolveSourceMeaning(conn: Connection, specHash: string)
    ensures var key := if conn.connectorKey.Some? && conn.connectorKey.value != "" then conn.connectorKey.value else "bare";
            var source := ResolveSource(conn, specHash);
            match conn.mode
            case Builtin => source == (if key == "bare" && conn.connectorKey != Some("bare") then BareUrl else Builtin, key)
            case OpenapiUrl =>
              source == if conn.specUrl.Some? && conn.specUrl.value != "" then (OpenapiUrl, conn.specUrl.value) else (BareUrl, key)
            case OpenapiUpload => source == (OpenapiUpload, specHash)
            case BareUrl => source == (BareUrl, key)
  {
  }

  /** The two connections read the same source. */
  predicate SameSource(a: Connection, b: Connection) {
    || (a.mode == b.mode == Builtin && Given(a.connectorKey) && a.connectorKey == b.connectorKey)
    || (a.mode == b.mode == OpenapiUrl && Given(a.specUrl) && a.specUrl == b.specUrl)
    || (a.mode == b.mode == OpenapiUpload)
    || (WithoutSource(a) && WithoutSource(b) && KeyOrBare(a) == KeyOrBare(b))
  }

  predicate WithoutSource(conn: Connection) {
    match conn.mode
    case Builtin => !Given(conn.connectorKey)
    case OpenapiUrl => !Given(conn.specUrl)
    case OpenapiUpload => false
    case BareUrl => true
  }

  function KeyOrBare(conn: Connection): string {
    if conn.connectorKey.None? || conn.connectorKey.value == "" then "bare" else conn.connectorKey.value
  }

  /** Two indexings meet on one row of the catalog, whosever the connections are, exactly when
      source, document and embedding space are the same. */
  lemma RowsAreSharedExactly(a: Connection, b: Connection, hashA: string, hashB: string, embA: Embedder, embB: Embedder)
    ensures IdentityOf(a, hashA, embA) == IdentityOf(b, hashB, embB) <==>
              SameSource(a, b) && hashA == hashB && embA.model == embB.model && embA.dim == embB.dim
  {
  }

  ghost predicate UniqueIdentity(db: Db) {
    forall a, b :: a in db.specs && b in db.specs && db.specs[a].identity == db.specs[b].identity ==> a == b
  }

  ghost function Existing(db: Db, identity: Identity): (r: Option<SpecId>)
    ensures r.Some? ==> r.value in db.specs && db.specs[r.value].identity == identity
    ensures r.None? ==> forall id :: id in db.specs ==> db.specs[id].identity != identity
  {
    if exists id :: id in db.specs && db.specs[id].identity == identity then
      var id :| id in db.specs && db.specs[id].identity == identity;
      Some(id)
    else None
  }

  // ---------- what is written ----------

  function WithConn(db: Db, c: ConnId, conn: Connection): Db {
    db.(conns := db.conns[c := conn])
  }

  function Bound(db: Db, c: ConnId, id: SpecId): Db
    requires c in db.conns
  {
    WithConn(db, c, db.conns[c].(specId := Some(id)))
  }

  predicate Refers(db: Db, c: ConnId, id: SpecId) {
    c in db.conns && db.conns[c].specId == Some(id)
  }

  predicate ReferencedByOther(db: Db, id: SpecId, exclude: ConnId) {
    exists d :: d in db.conns && d != exclude && Refers(db, d, id)
  }

  /** The foreign key's SET NULL. */
  function Detached(conns: map<ConnId, Connection>, id: SpecId): map<ConnId, Connection> {
    map c | c in conns :: if conns[c].specId == Some(id) then conns[c].(specId := None) else conns[c]
  }

  /** Deleting a row: its chunks cascade, references to it are nulled. */
  function Dropped(db: Db, id: SpecId): Db {
    Db(db.specs - {id}, db.chunks - {id}, Detached(db.conns, id))
  }

  function Collected(db: Db, specId: Option<SpecId>, exclude: ConnId): Db {
    if specId.None? || ReferencedByOther(db, specId.value, exclude) || specId.value !in db.specs then db
    else Dropped(db, specId.value)
  }

  function Embedded(chunks: seq<SpecChunk>, vectors: Option<seq<Vector>>): (r: Result<seq<ChunkRow>, Failure>)
    ensures r.Ok? <==> chunks == [] || (vectors.Some? && |vectors.value| == |chunks|)
    ensures r.Ok? ==>
              && |r.value| == |chunks|
              && forall i :: 0 <= i < |chunks| ==> r.value[i].chunk == chunks[i] && r.value[i].embedding == vectors.value[i]
  {
    if chunks == [] then Ok([])
    else if vectors.None? then Err(EmbeddingRaised)
    else if |vectors.value| != |chunks| then Err(CountMismatch)
    else Ok(seq(|chunks|, i requires 0 <= i < |chunks| => ChunkRow(chunks[i], vectors.value[i])))
  }

  function ChunksOf(specHash: string, connectorKey: Option<string>, document: seq<Field>): Result<seq<SpecChunk>, PyError> {
    match EnrichSpec(document)
    case Err(e) => Err(e)
    case Ok(ops) => OperationsToChunks(specHash, connectorKey, ops)
  }

  function Inserted(db: Db, id: SpecId, row: SpecRow, rows: seq<ChunkRow>): Db {
    db.(specs := db.specs[id := row], chunks := db.chunks[id := rows])
  }

  /** The fresh path of indexing: embed the document and bind the connection to a new row. */
  function IndexedFresh(db: Db, c: ConnId, spec: LoadedSpec, emb: Embedder, newId: SpecId): Outcome<IndexResult>
    requires c in db.conns
  {
    var conn := db.conns[c];
    match ChunksOf(spec.rawHash, conn.connectorKey, spec.document)
    case Err(e) => Outcome(db, Err(BadDocument(e)))
    case Ok(chunks) =>
      if newId in db.specs then Outcome(db, Err(DuplicateId))
      else
        var n := |EnrichSpec(spec.document).value|;
        var row := SpecRow(IdentityOf(conn, spec.rawHash, emb), n, spec.document);
        match Embedded(chunks, emb.vectors)
        case Err(e) => Outcome(Inserted(db, newId, row, []), Err(e))
        case Ok(rows) =>
          Outcome(Collected(Bound(Inserted(db, newId, row, rows), c, newId), conn.specId, c),
                  Ok(IndexResult(n, |chunks|, spec.rawHash, false)))
  }

  ghost function Indexed(db: Db, c: ConnId, spec: LoadedSpec, emb: Embedder, newId: SpecId): Outcome<IndexResult>
    requires c in db.conns
  {
    var conn := db.conns[c];
    match Existing(db, IdentityOf(conn, spec.rawHash, emb))
    case None => IndexedFresh(db, c, spec, emb, newId)
    case Some(id) =>
      var n := db.specs[id].operationCount;
      Outcome(Collected(Bound(db, c, id), conn.specId, c), Ok(IndexResult(n, n, spec.rawHash, true)))
  }

  /** Indexing succeeds exactly when the row is there already, or when the document can be read and
      chunked, the id drawn is free and the provider answers with one vector per chunk, if there is
      any chunk; a failure leaves connections and earlier rows as they were. */
  lemma IndexingSucceedsExactly(db: Db, c: ConnId, spec: LoadedSpec, emb: Embedder, newId: SpecId)
    requires c in db.conns
    ensures var out := Indexed(db, c, spec, emb, newId);
            && (out.result.Ok? <==>
                  || (exists id :: id in db.specs && db.specs[id].identity == IdentityOf(db.conns[c], spec.rawHash, emb))
                  || (CanBeEmbedded(spec.document, emb.vectors) && newId !in db.specs))
            && (out.result.Err? ==>
                  && out.db.conns == db.conns
                  && forall id :: id in db.specs ==> id in out.db.specs && out.db.specs[id] == db.specs[id])
  {
    var conn := db.conns[c];
    ChunksExistExactly(spec.rawHash, conn.connectorKey, spec.document);
    if Existing(db, IdentityOf(conn, spec.rawHash, emb)).None? && ChunksOf(spec.rawHash, conn.connectorKey, spec.document).Ok? {
      ChunksFollowOperations(spec.rawHash, conn.connectorKey, EnrichSpec(spec.document).value);
    }
  }

  /** Every operation of the document can be read and has a mapping for its responses, and there is
      a vector for each. */
  ghost predicate CanBeEmbedded(document: seq<Field>, vectors: Option<seq<Vector>>) {
    && EnrichSpec(document).Ok?
    && (forall op :: op in EnrichSpec(document).value ==> op.responses.Obj?)
    && (EnrichSpec(document).value == [] || (vectors.Some? && |vectors.value| == |EnrichSpec(document).value|))
  }

  lemma ChunksExistExactly(specHash: string, connectorKey: Option<string>, document: seq<Field>)
    ensures ChunksOf(specHash, connectorKey, document).Ok? <==>
              EnrichSpec(document).Ok? && forall op :: op in EnrichSpec(document).value ==> op.responses.Obj?
  {
    if EnrichSpec(document).Ok? {
      ChunksSucceedExactly(specHash, connectorKey, EnrichSpec(document).value);
    }
  }

  // ---------- the session ----------

  /** A database session: the tables as the transaction sees them. */
  class Session {
    var specs: map<SpecId, SpecRow>
    var chunks: map<SpecId, seq<ChunkRow>>
    var conns: map<ConnId, Connection>

    constructor (db: Db)
      ensures Tables() == db
    {
      specs, chunks, conns := db.specs, db.chunks, db.conns;
    }

    function Tables(): Db
      reads this
    {
      Db(specs, chunks, conns)
    }

    method Rollback(db: Db)
      modifies this
      ensures Tables() == db
    {
      specs, chunks, conns := db.specs, db.chunks, db.conns;
    }

    method FindSpec(identity: Identity) returns (found: Option<SpecId>)
      requires UniqueIdentity(Tables())
      ensures found == Existing(Tables(), identity)
    {
      if exists id :: id in specs && specs[id].identity == identity {
        var id :| id in specs && specs[id].identity == identity;
        return Some(id);
      }
      return None;
    }

    method GcOrphan(specId: Option<SpecId>, exclude: ConnId)
      modifies this
      ensures Tables() == Collected(old(Tables()), specId, exclude)
    {
      if specId.None? {
        return;
      }
      var stillReferenced := exists c :: c in conns && c != exclude && conns[c].specId == specId;
      assert stillReferenced <==> ReferencedByOther(Tables(), specId.value, exclude) by {
        assert forall c :: c in conns ==> (Refers(Tables(), c, specId.value) <==> conns[c].specId == specId);
      }
      if stillReferenced {
        return;
      }
      if specId.value in specs {
        specs := specs - {specId.value};
        chunks := chunks - {specId.value};
        conns := Detached(conns, specId.value);
      }
    }

    method IndexSpec(c: ConnId, spec: LoadedSpec, emb: Embedder, newId: SpecId) returns (r: Result<IndexResult, Failure>)
      requires c in conns && UniqueIdentity(Tables())
      modifies this
      ensures Outcome(Tables(), r) == Indexed(old(Tables()), c, spec, emb, newId)
    {
      var conn := conns[c];
      var identity := IdentityOf(conn, spec.rawHash, emb);
      var existing := FindSpec(identity);
      var previous := conn.specId;
      if existing.Some? {
        var row := specs[existing.value];
        conns := conns[c := conn.(specId := existing)];
        GcOrphan(previous, c);
        return Ok(IndexResult(row.operationCount, row.operationCount, spec.rawHash, true));
      }
      r := IndexAnew(c, spec, emb, newId);
    }

    /** The fresh path. */
    method IndexAnew(c: ConnId, spec: LoadedSpec, emb: Embedder, newId: SpecId) returns (r: Result<IndexResult, Failure>)
      requires c in conns
      modifies this
      ensures Outcome(Tables(), r) == IndexedFresh(old(Tables()), c, spec, emb, newId)
    {
      var conn := conns[c];
      var operations := Enrich(spec.document);
      if operations.Err? {
        return Err(BadDocument(operations.error));
      }
      var made := MakeChunks(spec.rawHash, conn.connectorKey, operations.value);
      if made.Err? {
        return Err(BadDocument(made.error));
      }
      if newId in specs {
        return Err(DuplicateId);
      }
      specs := specs[newId := SpecRow(IdentityOf(conn, spec.rawHash, emb), |operations.value|, spec.document)];
      chunks := chunks[newId := []];
      var rows := Embedded(made.value, emb.vectors);
      if rows.Err? {
        return Err(rows.error);
      }
      chunks := chunks[newId := rows.value];
      conns := conns[c := conn.(specId := Some(newId))];
      assert Tables() == Bound(Inserted(old(Tables()), newId, specs[newId], rows.value), c, newId);
      GcOrphan(conn.specId, c);
      return Ok(IndexResult(|operations.value|, |made.value|, spec.rawHash, false));
    }
  }

  // ---------- the catalog's invariant ----------

  ghost predicate References(db: Db) {
    forall c :: c in db.conns && db.conns[c].specId.Some? ==> db.conns[c].specId.value in db.specs
  }

  /** The stored chunks are those of the stored document, chunked for `key`. */
  ghost predicate ChunkedFor(row: SpecRow, rows: seq<ChunkRow>, key: Option<string>) {
    var made := ChunksOf(row.identity.specHash, key, row.rawSpec);
    && made.Ok? && |rows| == |made.value|
    && (forall i :: 0 <= i < |rows| ==> rows[i].chunk == made.value[i])
    && row.operationCount == |rows|
    && (row.identity.sourceType == Builtin ==> key == Some(row.identity.sourceKey) && Given(key))
  }

  ghost predicate Exact(row: SpecRow, rows: seq<ChunkRow>) {
    exists key :: ChunkedFor(row, rows, key)
  }

  ghost predicate Consistent(db: Db) {
    && UniqueIdentity(db) && References(db) && db.chunks.Keys == db.specs.Keys
    && (forall id :: id in db.specs ==> Exact(db.specs[id], db.chunks[id]))
  }

  lemma ChunkCount(specHash: string, key: Option<string>, document: seq<Field>)
    requires ChunksOf(specHash, key, document).Ok?
    ensures |ChunksOf(specHash, key, document).value| == |EnrichSpec(document).value|
  {
    ChunksFollowOperations(specHash, key, EnrichSpec(document).value);
  }

  lemma DroppingKeepsConsistent(db: Db, id: SpecId)
    requires Consistent(db)
    ensures Consistent(Dropped(db, id))
  {
    var after := Dropped(db, id);
    assert forall k :: k in after.specs ==> k in db.specs && after.specs[k] == db.specs[k] && after.chunks[k] == db.chunks[k];
  }

  lemma CollectingKeepsConsistent(db: Db, specId: Option<SpecId>, exclude: ConnId)
    requires Consistent(db)
    ensures Consistent(Collected(db, specId, exclude))
  {
    if specId.Some? {
      DroppingKeepsConsistent(db, specId.value);
    }
  }

  lemma BindingKeepsConsistent(db: Db, c: ConnId, id: SpecId)
    requires Consistent(db) && c in db.conns && id in db.specs
    ensures Consistent(Bound(db, c, id))
  {
  }

  lemma InsertingKeepsUnique(db: Db, id: SpecId, row: SpecRow, rows: seq<ChunkRow>)
    requires UniqueIdentity(db) && Existing(db, row.identity).None?
    ensures UniqueIdentity(Inserted(db, id, row, rows))
  {
  }

  lemma InsertingKeepsConsistent(db: Db, id: SpecId, row: SpecRow, rows: seq<ChunkRow>)
    requires Consistent(db) && Exact(row, rows) && Existing(db, row.identity).None?
    ensures Consistent(Inserted(db, id, row, rows))
  {
    var after := Inserted(db, id, row, rows);
    InsertingKeepsUnique(db, id, row, rows);
    forall k | k in after.specs
      ensures Exact(after.specs[k], after.chunks[k])
    {
      if k != id {
        assert after.specs[k] == db.specs[k] && after.chunks[k] == db.chunks[k];
      }
    }
  }

  lemma FreshRowIsExact(conn: Connection, spec: LoadedSpec, emb: Embedder)
    requires ChunksOf(spec.rawHash, conn.connectorKey, spec.document).Ok?
    requires Embedded(ChunksOf(spec.rawHash, conn.connectorKey, spec.document).value, emb.vectors).Ok?
    ensures Exact(SpecRow(IdentityOf(conn, spec.rawHash, emb), |EnrichSpec(spec.document).value|, spec.document),
                  Embedded(ChunksOf(spec.rawHash, conn.connectorKey, spec.document).value, emb.vectors).value)
  {
    ChunkCount(spec.rawHash, conn.connectorKey, spec.document);
    var row := SpecRow(IdentityOf(conn, spec.rawHash, emb), |EnrichSpec(spec.document).value|, spec.document);
    var rows := Embedded(ChunksOf(spec.rawHash, conn.connectorKey, spec.document).value, emb.vectors).value;
    assert ChunkedFor(row, rows, conn.connectorKey);
  }

  /** Indexing keeps the catalog consistent. */
  lemma IndexingKeepsConsistent(db: Db, c: ConnId, spec: LoadedSpec, emb: Embedder, newId: SpecId)
    requires Consistent(db) && c in db.conns && Indexed(db, c, spec, emb, newId).result.Ok?
    ensures Consistent(Indexed(db, c, spec, emb, newId).db)
  {
    var conn := db.conns[c];
    match Existing(db, IdentityOf(conn, spec.rawHash, emb)) {
      case Some(id) =>
        BindingKeepsConsistent(db, c, id);
        CollectingKeepsConsistent(Bound(db, c, id), conn.specId, c);
      case None =>
        FreshRowIsExact(conn, spec, emb);
        var row := SpecRow(IdentityOf(conn, spec.rawHash, emb), |EnrichSpec(spec.document).value|, spec.document);
        var rows := Embedded(ChunksOf(spec.rawHash, conn.connectorKey, spec.document).value, emb.vectors).value;
        var inserted := Inserted(db, newId, row, rows);
        InsertingKeepsConsistent(db, newId, row, rows);
        BindingKeepsConsistent(inserted, c, newId);
        CollectingKeepsConsistent(Bound(inserted, c, newId), conn.specId, c);
    }
  }
}
