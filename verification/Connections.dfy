/** The transactions on connections: creating, reindexing, uploading a document, reindexing in
    the background, deleting. Each runs in a session that commits or rolls back as a whole. */
module Connections {
  import opened Wrappers
  import opened Json
  import opened Enricher
  import opened Chunker
  import Fetcher
  import opened Catalog
  import opened CatalogTheorems

  /** What loading a document gives: the document, none at all, a fetch or validation error,
      or any other exception. */
  datatype Loaded = Loaded(spec: LoadedSpec) | NoSpec | Rejected(message: string) | Raised

  /** What the embedding provider answers, the id that is drawn, and the time. */
  datatype Env = Env(emb: Embedder, newId: SpecId, now: int)

  const NO_SOURCE := "no spec source configured: provide a spec_url or upload an OpenAPI document"

  const NOTHING_INDEXED := IndexResult(0, 0, "", false)

  datatype CreateInput = CreateInput(mode: Mode, connectorKey: Option<string>, baseUrl: Option<string>,
                                     specUrl: Option<string>, hasCredentials: bool)

  datatype CreateFailure = InputError(message: string) | Vault | IdTaken

  // ---------- writing a connection ----------

  function MarkedFailed(conn: Connection, message: string): Connection {
    conn.(status := Failed, lastError := Some(message))
  }

  function MarkedReady(conn: Connection, now: int): Connection {
    conn.(status := Ready, lastIndexedAt := Some(now), lastError := None)
  }

  function MarkedIndexed(conn: Connection, result: IndexResult, now: int): Connection {
    MarkedReady(conn.(endpointCount := result.operationCount, specHash := Some(result.specHash)), now)
  }

  predicate Owned(db: Db, tenant: string, c: ConnId) {
    c in db.conns && db.conns[c].tenant == tenant
  }

  // ---------- the transactions ----------

  /** Indexing a document that has been loaded, and recording it on the connection. */
  ghost function IndexedAndRecorded(db: Db, c: ConnId, spec: LoadedSpec, env: Env): Outcome<Option<IndexResult>>
    requires c in db.conns
  {
    var out := Indexed(WithConn(db, c, db.conns[c].(status := Indexing)), c, spec, env.emb, env.newId);
    match out.result
    case Err(e) => Outcome(out.db, Err(e))
    case Ok(result) =>
      IndexingKeepsConnections(WithConn(db, c, db.conns[c].(status := Indexing)), c, spec, env.emb, env.newId);
      Outcome(WithConn(out.db, c, MarkedIndexed(out.db.conns[c], result, env.now)), Ok(Some(result)))
  }

  lemma IndexingKeepsConnections(db: Db, c: ConnId, spec: LoadedSpec, emb: Embedder, newId: SpecId)
    requires c in db.conns
    ensures Indexed(db, c, spec, emb, newId).db.conns.Keys == db.conns.Keys
  {
  }

  ghost function Reindexed(db: Db, tenant: string, c: ConnId, loaded: Loaded, env: Env): Outcome<Option<IndexResult>> {
    if !Owned(db, tenant, c) then Outcome(db, Ok(None))
    else
      match loaded
      case Raised => Outcome(db, Err(LoadRaised))
      case Rejected(message) => Outcome(WithConn(db, c, MarkedFailed(db.conns[c], message)), Ok(Some(NOTHING_INDEXED)))
      case NoSpec =>
        if db.conns[c].mode == BareUrl
        then Outcome(WithConn(db, c, MarkedReady(db.conns[c], env.now)), Ok(Some(NOTHING_INDEXED)))
        else Outcome(WithConn(db, c, MarkedFailed(db.conns[c], NO_SOURCE)), Ok(Some(NOTHING_INDEXED)))
      case Loaded(spec) => IndexedAndRecorded(db, c, spec, env)
  }

  /** How a reindex that has no document to index ends: another tenant's connection is not found;
      a bare URL is ready without a document, any other mode is told that it needs a source; a
      document that is refused is the connection's error; anything else is raised. */
  lemma ReindexWithoutDocument(db: Db, tenant: string, c: ConnId, loaded: Loaded, env: Env)
    requires !loaded.Loaded?
    ensures var out := Reindexed(db, tenant, c, loaded, env);
            if c !in db.conns || db.conns[c].tenant != tenant then out == Outcome(db, Ok(None))
            else
              var conn := db.conns[c];
              match loaded
              case Raised => out == Outcome(db, Err(LoadRaised))
              case Rejected(message) =>
                && out.result == Ok(Some(IndexResult(0, 0, "", false)))
                && out.db == db.(conns := db.conns[c := conn.(status := Failed, lastError := Some(message))])
              case NoSpec =>
                && out.result == Ok(Some(IndexResult(0, 0, "", false)))
                && out.db == db.(conns := db.conns[c :=
                     if conn.mode == BareUrl then conn.(status := Ready, lastIndexedAt := Some(env.now), lastError := None)
                     else conn.(status := Failed, lastError :=
                            Some("no spec source configured: provide a spec_url or upload an OpenAPI document"))])
  {
  }

  method ReindexConnection(session: Session, tenant: string, c: ConnId, loaded: Loaded, env: Env)
    returns (r: Result<Option<IndexResult>, Failure>)
    requires UniqueIdentity(session.Tables())
    modifies session
    ensures Outcome(session.Tables(), r) == Reindexed(old(session.Tables()), tenant, c, loaded, env)
  {
    if c !in session.conns || session.conns[c].tenant != tenant {
      return Ok(None);
    }
    var conn := session.conns[c];
    match loaded {
      case Raised =>
        return Err(LoadRaised);
      case Rejected(message) =>
        session.conns := session.conns[c := conn.(status := Failed, lastError := Some(message))];
        return Ok(Some(NOTHING_INDEXED));
      case NoSpec =>
        if conn.mode == BareUrl {
          session.conns := session.conns[c := conn.(status := Ready, lastIndexedAt := Some(env.now), lastError := None)];
        } else {
          session.conns := session.conns[c := conn.(status := Failed, lastError := Some(NO_SOURCE))];
        }
        return Ok(Some(NOTHING_INDEXED));
      case Loaded(spec) =>
        r := IndexAndRecord(session, c, spec, env);
    }
  }

  method IndexAndRecord(session: Session, c: ConnId, spec: LoadedSpec, env: Env) returns (r: Result<Option<IndexResult>, Failure>)
    requires c in session.conns && UniqueIdentity(session.Tables())
    modifies session
    ensures Outcome(session.Tables(), r) == IndexedAndRecorded(old(session.Tables()), c, spec, env)
  {
    session.conns := session.conns[c := session.conns[c].(status := Indexing)];
    IndexingKeepsConnections(session.Tables(), c, spec, env.emb, env.newId);
    var indexed := session.IndexSpec(c, spec, env.emb, env.newId);
    if indexed.Err? {
      return Err(indexed.error);
    }
    var result, conn := indexed.value, session.conns[c];
    conn := conn.(endpointCount := result.operationCount, specHash := Some(result.specHash));
    conn := conn.(status := Ready, lastIndexedAt := Some(env.now), lastError := None);
    session.conns := session.conns[c := conn];
    return Ok(Some(result));
  }

  ghost function Uploaded(db: Db, tenant: string, c: ConnId, blob: string, parsed: Result<LoadedSpec, string>, env: Env)
    : Outcome<Option<IndexResult>>
  {
    if !Owned(db, tenant, c) then Outcome(db, Ok(None))
    else
      match parsed
      case Err(message) => Outcome(WithConn(db, c, MarkedFailed(db.conns[c], message)), Ok(Some(NOTHING_INDEXED)))
      case Ok(spec) => IndexedAndRecorded(WithConn(db, c, db.conns[c].(blob := Some(blob))), c, spec, env)
  }

  method IngestUploadedSpec(session: Session, tenant: string, c: ConnId, blob: string, parsed: Result<LoadedSpec, string>, env: Env)
    returns (r: Result<Option<IndexResult>, Failure>)
    requires UniqueIdentity(session.Tables())
    modifies session
    ensures Outcome(session.Tables(), r) == Uploaded(old(session.Tables()), tenant, c, blob, parsed, env)
  {
    if c !in session.conns || session.conns[c].tenant != tenant {
      return Ok(None);
    }
    if parsed.Err? {
      session.conns := session.conns[c := session.conns[c].(status := Failed, lastError := Some(parsed.error))];
      return Ok(Some(NOTHING_INDEXED));
    }
    session.conns := session.conns[c := session.conns[c].(blob := Some(blob))];
    r := IndexAndRecord(session, c, parsed.value, env);
  }

  function InputErrorOf(data: CreateInput, known: set<string>): Option<string> {
    if data.mode == Builtin && !Given(data.connectorKey) then Some("builtin mode requires connector_key")
    else if data.mode == OpenapiUrl && !Given(data.specUrl) then Some("openapi_url mode requires spec_url")
    else if data.mode == BareUrl && !Given(data.baseUrl) then Some("bare_url mode requires base_url")
    else if Given(data.connectorKey) && data.connectorKey.value !in known && data.mode == Builtin
    then Some("unknown connector_key: " + data.connectorKey.value)
    else None
  }

  /** Exactly these inputs are accepted. */
  lemma AcceptedExactly(data: CreateInput, known: set<string>)
    ensures InputErrorOf(data, known).None? <==>
              match data.mode
              case Builtin => data.connectorKey.Some? && data.connectorKey.value != "" && data.connectorKey.value in known
              case OpenapiUrl => data.specUrl.Some? && data.specUrl.value != ""
              case BareUrl => data.baseUrl.Some? && data.baseUrl.value != ""
              case OpenapiUpload => true
    ensures InputErrorOf(data, known).Some? ==>
              InputErrorOf(data, known).value ==
                match data.mode
                case Builtin =>
                  if data.connectorKey.None? || data.connectorKey.value == "" then "builtin mode requires connector_key"
                  else "unknown connector_key: " + data.connectorKey.value
                case OpenapiUrl => "openapi_url mode requires spec_url"
                case BareUrl => "bare_url mode requires base_url"
                case OpenapiUpload => ""
  {
  }

  function NewConnection(tenant: string, data: CreateInput, now: int): Connection {
    Connection(tenant, data.connectorKey, data.mode, data.specUrl, None, Pending, None, None, 0, None, None, now)
  }

  method CreateConnection(session: Session, tenant: string, data: CreateInput, known: set<string>, newId: ConnId, vaultRaises: bool, now: int)
    returns (r: Result<ConnId, CreateFailure>)
    modifies session
    ensures r.Ok? <==> InputErrorOf(data, known).None? && newId !in old(session.conns) && !(data.hasCredentials && vaultRaises)
    ensures r.Ok? ==> r.value == newId
    ensures match InputErrorOf(data, known)
            case Some(message) => r == Err(InputError(message))
            case None => r.Err? ==> r.error == if newId in old(session.conns) then IdTaken else Vault
    ensures session.specs == old(session.specs) && session.chunks == old(session.chunks)
    ensures session.conns ==
            if r.Err? && !r.error.Vault? then old(session.conns)
            else old(session.conns)[newId := Connection(tenant, data.connectorKey, data.mode, data.specUrl, None, Pending,
                                                        None, None, 0, None, None, now)]
  {
    var invalid := InputErrorOf(data, known);
    if invalid.Some? {
      return Err(InputError(invalid.value));
    }
    if newId in session.conns {
      return Err(IdTaken);
    }
    session.conns := session.conns[newId := NewConnection(tenant, data, now)];
    if data.hasCredentials && vaultRaises {
      return Err(Vault);
    }
    return Ok(newId);
  }

  function Deleted(db: Db, tenant: string, c: ConnId): Db {
    if Owned(db, tenant, c) then db.(conns := db.conns - {c}) else db
  }

  method DeleteConnection(session: Session, tenant: string, c: ConnId) returns (deleted: bool)
    modifies session
    ensures session.Tables() == Deleted(old(session.Tables()), tenant, c)
    ensures deleted <==> c in old(session.conns) && old(session.conns)[c].tenant == tenant
    ensures session.specs == old(session.specs) && session.chunks == old(session.chunks)
    ensures session.conns == if deleted then old(session.conns) - {c} else old(session.conns)
  {
    if c !in session.conns || session.conns[c].tenant != tenant {
      return false;
    }
    session.conns := session.conns - {c};
    return true;
  }

  // ---------- commit and rollback ----------

  /** A scope: the changes stay when nothing was raised and the commit succeeds. */
  function Committed<T>(db: Db, out: Outcome<T>, commits: bool): Db {
    if out.result.Ok? && commits then out.db else db
  }

  function FailureRecorded(db: Db, tenant: string, c: ConnId, message: string): Db {
    if Owned(db, tenant, c) then WithConn(db, c, MarkedFailed(db.conns[c], "indexing failed: " + message)) else db
  }

  /** Reindexing in a session of its own: a failure is rolled back and then recorded on the
      connection in another session, which may itself fail to commit. */
  ghost function ReindexedInBackground(db: Db, tenant: string, c: ConnId, loaded: Loaded, env: Env,
                                       commits: bool, message: string, records: bool): Db
  {
    var out := Reindexed(db, tenant, c, loaded, env);
    if out.result.Ok? && commits then out.db
    else if records then FailureRecorded(db, tenant, c, message)
    else db
  }

  method ReindexInNewSession(session: Session, tenant: string, c: ConnId, loaded: Loaded, env: Env,
                             commits: bool, message: string, records: bool)
    returns (r: Option<IndexResult>)
    requires UniqueIdentity(session.Tables())
    modifies session
    ensures session.Tables() == ReindexedInBackground(old(session.Tables()), tenant, c, loaded, env, commits, message, records)
    ensures r == var out := Reindexed(old(session.Tables()), tenant, c, loaded, env);
                 if out.result.Ok? && commits then out.result.value else None
  {
    var before := session.Tables();
    var indexed := ReindexConnection(session, tenant, c, loaded, env);
    if indexed.Ok? && commits {
      return indexed.value;
    }
    session.Rollback(before);
    if c in session.conns && session.conns[c].tenant == tenant {
      var conn := session.conns[c];
      session.conns := session.conns[c := conn.(status := Failed, lastError := Some("indexing failed: " + message))];
    }
    if !records {
      session.Rollback(before);
    }
    return None;
  }

  // ---------- runs ----------

  /** A transaction as it ends, whichever way its parts go. */
  datatype Event =
    | Create(tenant: string, data: CreateInput, known: set<string>, id: ConnId, now: int)
    | Reindex(tenant: string, c: ConnId, loaded: Loaded, env: Env)
    | Upload(tenant: string, c: ConnId, blob: string, parsed: Result<LoadedSpec, string>, env: Env)
    | Background(tenant: string, c: ConnId, loaded: Loaded, env: Env, commits: bool, message: string, records: bool)
    | Delete(tenant: string, c: ConnId)
    | RolledBack

  ghost function After(db: Db, e: Event): Db {
    match e
    case Create(tenant, data, known, id, now) =>
      if InputErrorOf(data, known).None? && id !in db.conns then WithConn(db, id, NewConnection(tenant, data, now)) else db
    case Reindex(tenant, c, loaded, env) => Committed(db, Reindexed(db, tenant, c, loaded, env), true)
    case Upload(tenant, c, blob, parsed, env) => Committed(db, Uploaded(db, tenant, c, blob, parsed, env), true)
    case Background(tenant, c, loaded, env, commits, message, records) =>
      ReindexedInBackground(db, tenant, c, loaded, env, commits, message, records)
    case Delete(tenant, c) => Deleted(db, tenant, c)
    case RolledBack => db
  }

  const EMPTY := Db(map[], map[], map[])

  ghost function AfterAll(events: seq<Event>): Db {
    if events == [] then EMPTY else After(AfterAll(events[..|events| - 1]), events[|events| - 1])
  }

  // ---------- the status machine ----------

  /** What holds of a committed connection. */
  predicate Settled(conn: Connection) {
    && conn.status != Indexing
    && (conn.status == Pending ==> conn.lastError.None? && conn.lastIndexedAt.None? && conn.specId.None?)
    && (conn.status == Ready ==> conn.lastError.None? && conn.lastIndexedAt.Some?)
    && (conn.status == Failed ==> conn.lastError.Some?)
  }

  /** A connection that is on a row has recorded that row: its hash and count, and a source
      that is the connection's own. */
  predicate Recorded(db: Db, conn: Connection) {
    conn.specId.Some? ==>
      && conn.specId.value in db.specs
      && var row := db.specs[conn.specId.value];
         && conn.specHash == Some(row.identity.specHash) && conn.endpointCount == row.operationCount
         && ResolveSource(conn, row.identity.specHash) == (row.identity.sourceType, row.identity.sourceKey)
  }

  predicate Sound(db: Db, conn: Connection) {
    Settled(conn) && Recorded(db, conn)
  }

  ghost predicate AllSound(db: Db) {
    forall c :: c in db.conns ==> Sound(db, db.conns[c])
  }

  ghost predicate Inv(db: Db) {
    Consistent(db) && AllSound(db)
  }

  lemma MarkingStaysSound(db: Db, conn: Connection, message: string, now: int, blob: string)
    requires Sound(db, conn)
    ensures Sound(db, MarkedFailed(conn, message)) && Sound(db, MarkedReady(conn, now)) && Sound(db, conn.(blob := Some(blob)))
  {
  }

  lemma WritingKeepsConsistent(db: Db, c: ConnId, conn: Connection)
    requires Consistent(db) && (conn.specId.Some? ==> conn.specId.value in db.specs)
    ensures Consistent(WithConn(db, c, conn))
  {
  }

  lemma WritingKeepsInv(db: Db, c: ConnId, conn: Connection)
    requires Consistent(db) && (forall d :: d in db.conns && d != c ==> Sound(db, db.conns[d])) && Sound(db, conn)
    ensures Inv(WithConn(db, c, conn))
  {
    WritingKeepsConsistent(db, c, conn);
    forall d | d in WithConn(db, c, conn).conns
      ensures Sound(WithConn(db, c, conn), WithConn(db, c, conn).conns[d])
    {
      assert d == c || Sound(db, db.conns[d]);
    }
  }

  /** Sound after recording, though not before. */
  lemma IndexingKeepsInv(db: Db, c: ConnId, spec: LoadedSpec, env: Env)
    requires Inv(db) && c in db.conns && IndexedAndRecorded(db, c, spec, env).result.Ok?
    ensures Inv(IndexedAndRecorded(db, c, spec, env).db)
  {
    var conn := db.conns[c].(status := Indexing);
    WritingKeepsConsistent(db, c, conn);
    IndexingKeepsConsistent(WithConn(db, c, conn), c, spec, env.emb, env.newId);
    IndexingSparesOthers(db, c, conn, spec, env);
    RecordingIsSound(WithConn(db, c, conn), c, spec, env);
    var out := Indexed(WithConn(db, c, conn), c, spec, env.emb, env.newId);
    WritingKeepsInv(out.db, c, MarkedIndexed(out.db.conns[c], out.result.value, env.now));
  }

  lemma RecordingIsSound(start: Db, c: ConnId, spec: LoadedSpec, env: Env)
    requires Consistent(start) && c in start.conns && Indexed(start, c, spec, env.emb, env.newId).result.Ok?
    ensures var out := Indexed(start, c, spec, env.emb, env.newId);
            c in out.db.conns && Sound(out.db, MarkedIndexed(out.db.conns[c], out.result.value, env.now))
  {
    BoundExactlyUnlessSoleOwner(start, c, spec, env.emb, env.newId);
    BoundRowCounts(start, c, spec, env.emb, env.newId);
  }

  lemma IndexingSparesOthers(db: Db, c: ConnId, conn: Connection, spec: LoadedSpec, env: Env)
    requires Inv(db) && c in db.conns && Consistent(WithConn(db, c, conn))
    requires Indexed(WithConn(db, c, conn), c, spec, env.emb, env.newId).result.Ok?
    ensures var after := Indexed(WithConn(db, c, conn), c, spec, env.emb, env.newId).db;
            && after.conns.Keys == db.conns.Keys
            && forall d :: d in db.conns && d != c ==> Sound(after, after.conns[d])
  {
    var start := WithConn(db, c, conn);
    CollectionIsSafeAndComplete(start, c, spec, env.emb, env.newId);
    var after := Indexed(start, c, spec, env.emb, env.newId).db;
    forall d | d in db.conns && d != c
      ensures Sound(after, after.conns[d])
    {
      assert after.conns[d] == db.conns[d] && Sound(db, db.conns[d]);
      if db.conns[d].specId.Some? {
        assert Refers(start, d, db.conns[d].specId.value);
      }
    }
  }

  lemma ReindexingKeepsInv(db: Db, tenant: string, c: ConnId, loaded: Loaded, env: Env)
    requires Inv(db) && Reindexed(db, tenant, c, loaded, env).result.Ok?
    ensures Inv(Reindexed(db, tenant, c, loaded, env).db)
  {
    if Owned(db, tenant, c) {
      match loaded {
        case Loaded(spec) => IndexingKeepsInv(db, c, spec, env);
        case Rejected(message) => FailingKeepsInv(db, c, message);
        case NoSpec =>
          FailingKeepsInv(db, c, NO_SOURCE);
          MarkingStaysSound(db, db.conns[c], "", env.now, "");
          WritingKeepsInv(db, c, MarkedReady(db.conns[c], env.now));
        case Raised => assert false;
      }
    }
  }

  lemma FailingKeepsInv(db: Db, c: ConnId, message: string)
    requires Inv(db) && c in db.conns
    ensures Inv(WithConn(db, c, MarkedFailed(db.conns[c], message)))
  {
    MarkingStaysSound(db, db.conns[c], message, 0, "");
    WritingKeepsInv(db, c, MarkedFailed(db.conns[c], message));
  }

  lemma UploadingKeepsInv(db: Db, tenant: string, c: ConnId, blob: string, parsed: Result<LoadedSpec, string>, env: Env)
    requires Inv(db) && Uploaded(db, tenant, c, blob, parsed, env).result.Ok?
    ensures Inv(Uploaded(db, tenant, c, blob, parsed, env).db)
  {
    if Owned(db, tenant, c) {
      match parsed {
        case Err(message) => FailingKeepsInv(db, c, message);
        case Ok(spec) =>
          MarkingStaysSound(db, db.conns[c], "", 0, blob);
          WritingKeepsInv(db, c, db.conns[c].(blob := Some(blob)));
          IndexingKeepsInv(WithConn(db, c, db.conns[c].(blob := Some(blob))), c, spec, env);
      }
    }
  }

  lemma DeletingKeepsInv(db: Db, tenant: string, c: ConnId)
    requires Inv(db)
    ensures Inv(Deleted(db, tenant, c))
  {
  }

  lemma EventKeepsInv(db: Db, e: Event)
    requires Inv(db)
    ensures Inv(After(db, e))
  {
    match e {
      case Create(tenant, data, known, id, now) => WritingKeepsInv(db, id, NewConnection(tenant, data, now));
      case Reindex(tenant, c, loaded, env) =>
        if Reindexed(db, tenant, c, loaded, env).result.Ok? {
          ReindexingKeepsInv(db, tenant, c, loaded, env);
        }
      case Upload(tenant, c, blob, parsed, env) =>
        if Uploaded(db, tenant, c, blob, parsed, env).result.Ok? {
          UploadingKeepsInv(db, tenant, c, blob, parsed, env);
        }
      case Background(tenant, c, loaded, env, commits, message, records) =>
        if Reindexed(db, tenant, c, loaded, env).result.Ok? {
          ReindexingKeepsInv(db, tenant, c, loaded, env);
        }
        if Owned(db, tenant, c) {
          FailingKeepsInv(db, c, "indexing failed: " + message);
        }
      case Delete(tenant, c) => DeletingKeepsInv(db, tenant, c);
      case RolledBack =>
    }
  }

  /** After any run of transactions: identities are unique, every reference names a row, every
      row's chunks are those of its document, every connection's status is settled, and every
      connection on a row has recorded that row. */
  lemma {:induction false} EveryRunIsConsistent(events: seq<Event>)
    ensures Inv(AfterAll(events))
  {
    if events != [] {
      EveryRunIsConsistent(events[..|events| - 1]);
      EventKeepsInv(AfterAll(events[..|events| - 1]), events[|events| - 1]);
    }
  }

  // ---------- orphans ----------

  lemma WritingKeepsNoOrphan(db: Db, c: ConnId, conn: Connection)
    requires NoOrphans(db) && (c in db.conns ==> conn.specId == db.conns[c].specId)
    ensures NoOrphans(WithConn(db, c, conn))
  {
    forall id | id in db.specs
      ensures Referenced(WithConn(db, c, conn), id)
    {
      var d :| Refers(db, d, id);
      assert Refers(WithConn(db, c, conn), d, id);
    }
  }

  lemma IndexingKeepsNoOrphan(db: Db, c: ConnId, spec: LoadedSpec, env: Env)
    requires Consistent(db) && NoOrphans(db) && c in db.conns && IndexedAndRecorded(db, c, spec, env).result.Ok?
    ensures NoOrphans(IndexedAndRecorded(db, c, spec, env).db)
  {
    var conn := db.conns[c].(status := Indexing);
    var start := WithConn(db, c, conn);
    assert Consistent(start) && NoOrphans(start) by {
      WritingKeepsConsistent(db, c, conn);
      WritingKeepsNoOrphan(db, c, conn);
    }
    var out := Indexed(start, c, spec, env.emb, env.newId);
    assert NoOrphans(out.db) by {
      IndexingLeavesNoOrphan(start, c, spec, env.emb, env.newId);
    }
    IndexingKeepsConnections(start, c, spec, env.emb, env.newId);
    WritingKeepsNoOrphan(out.db, c, MarkedIndexed(out.db.conns[c], out.result.value, env.now));
  }

  lemma EventLeavesNoOrphan(db: Db, e: Event)
    requires Inv(db) && NoOrphans(db) && !e.Delete?
    ensures NoOrphans(After(db, e))
  {
    match e {
      case Create(tenant, data, known, id, now) =>
        if id !in db.conns {
          WritingKeepsNoOrphan(db, id, NewConnection(tenant, data, now));
        }
      case Reindex(tenant, c, loaded, env) => ReindexingLeavesNoOrphan(db, tenant, c, loaded, env);
      case Upload(tenant, c, blob, parsed, env) => UploadingLeavesNoOrphan(db, tenant, c, blob, parsed, env);
      case Background(tenant, c, loaded, env, commits, message, records) =>
        ReindexingLeavesNoOrphan(db, tenant, c, loaded, env);
        if Owned(db, tenant, c) {
          WritingKeepsNoOrphan(db, c, MarkedFailed(db.conns[c], "indexing failed: " + message));
        }
      case RolledBack =>
    }
  }

  lemma ReindexingLeavesNoOrphan(db: Db, tenant: string, c: ConnId, loaded: Loaded, env: Env)
    requires Inv(db) && NoOrphans(db)
    ensures Reindexed(db, tenant, c, loaded, env).result.Ok? ==> NoOrphans(Reindexed(db, tenant, c, loaded, env).db)
  {
    if Owned(db, tenant, c) {
      match loaded {
        case Loaded(spec) =>
          if IndexedAndRecorded(db, c, spec, env).result.Ok? {
            IndexingKeepsNoOrphan(db, c, spec, env);
          }
        case Rejected(message) => WritingKeepsNoOrphan(db, c, MarkedFailed(db.conns[c], message));
        case NoSpec =>
          WritingKeepsNoOrphan(db, c, MarkedFailed(db.conns[c], NO_SOURCE));
          WritingKeepsNoOrphan(db, c, MarkedReady(db.conns[c], env.now));
        case Raised =>
      }
    }
  }

  lemma UploadingLeavesNoOrphan(db: Db, tenant: string, c: ConnId, blob: string, parsed: Result<LoadedSpec, string>, env: Env)
    requires Inv(db) && NoOrphans(db)
    ensures Uploaded(db, tenant, c, blob, parsed, env).result.Ok? ==> NoOrphans(Uploaded(db, tenant, c, blob, parsed, env).db)
  {
    if Owned(db, tenant, c) {
      match parsed {
        case Err(message) => WritingKeepsNoOrphan(db, c, MarkedFailed(db.conns[c], message));
        case Ok(spec) =>
          var start := WithConn(db, c, db.conns[c].(blob := Some(blob)));
          WritingKeepsConsistent(db, c, db.conns[c].(blob := Some(blob)));
          WritingKeepsNoOrphan(db, c, db.conns[c].(blob := Some(blob)));
          if IndexedAndRecorded(start, c, spec, env).result.Ok? {
            IndexingKeepsNoOrphan(start, c, spec, env);
          }
      }
    }
  }

  /** Without deletions no run leaves a row that nobody refers to. */
  lemma {:induction false} RunsWithoutDeletionLeaveNoOrphan(events: seq<Event>)
    requires forall e :: e in events ==> !e.Delete?
    ensures NoOrphans(AfterAll(events))
  {
    if events != [] {
      RunsWithoutDeletionLeaveNoOrphan(events[..|events| - 1]);
      EveryRunIsConsistent(events[..|events| - 1]);
      EventLeavesNoOrphan(AfterAll(events[..|events| - 1]), events[|events| - 1]);
    }
  }

  /** Deleting a connection removes no row, and leaves one without referrers exactly when the
      connection was the last on it. */
  lemma DeletionOrphansExactlyItsOwnRow(db: Db, tenant: string, c: ConnId, id: SpecId)
    requires Consistent(db) && Owned(db, tenant, c) && id in db.specs && Referenced(db, id)
    ensures Deleted(db, tenant, c).specs == db.specs
    ensures !Referenced(Deleted(db, tenant, c), id) <==> db.conns[c].specId == Some(id) && !ReferencedByOther(db, id, c)
  {
    var after := Deleted(db, tenant, c);
    assert forall d :: Refers(after, d, id) <==> d != c && Refers(db, d, id);
    if ReferencedByOther(db, id, c) {
      var d :| d in db.conns && d != c && Refers(db, d, id);
      assert Refers(after, d, id);
    }
  }

  // ---------- a failed transaction ----------

  /** A background run that does not get through changes nothing but, at most, the status and
      error of the connection it was for. */
  lemma FailedBackgroundRunIsIsolated(db: Db, tenant: string, c: ConnId, loaded: Loaded, env: Env,
                                      commits: bool, message: string, records: bool)
    requires !commits || Reindexed(db, tenant, c, loaded, env).result.Err?
    ensures var after := ReindexedInBackground(db, tenant, c, loaded, env, commits, message, records);
            && after.specs == db.specs && after.chunks == db.chunks && after.conns.Keys == db.conns.Keys
            && (forall d :: d in db.conns && d != c ==> after.conns[d] == db.conns[d])
            && (c in db.conns ==>
                  after.conns[c] == if records && db.conns[c].tenant == tenant
                                    then db.conns[c].(status := Failed, lastError := Some("indexing failed: " + message))
                                    else db.conns[c])
  {
  }

  /** One that gets through leaves what the reindex did, whatever the second transaction would say. */
  lemma BackgroundRunStays(db: Db, tenant: string, c: ConnId, loaded: Loaded, env: Env, message: string, records: bool)
    requires Reindexed(db, tenant, c, loaded, env).result.Ok?
    ensures ReindexedInBackground(db, tenant, c, loaded, env, true, message, records) == Reindexed(db, tenant, c, loaded, env).db
  {
  }

  // ---------- ready without a row ----------

  /** After a successful reindex the connection reads ready with the document's count, and it
      is on a row exactly unless it was alone on the row of this very document. */
  lemma ReadyHasARowExactlyUnlessSoleOwner(db: Db, tenant: string, c: ConnId, spec: LoadedSpec, env: Env)
    requires Consistent(db) && Owned(db, tenant, c) && Reindexed(db, tenant, c, Loaded(spec), env).result.Ok?
    ensures var out := Reindexed(db, tenant, c, Loaded(spec), env);
            && c in out.db.conns && out.db.conns[c].status == Ready && out.db.conns[c].specHash == Some(spec.rawHash)
            && out.result.value.Some? && out.db.conns[c].endpointCount == out.result.value.value.operationCount
            && out.db.conns[c] == db.conns[c].(status := Ready, lastIndexedAt := Some(env.now), lastError := None,
                                               endpointCount := out.result.value.value.operationCount,
                                               specHash := Some(spec.rawHash), specId := out.db.conns[c].specId)
            && (out.db.conns[c].specId.None? <==> ReindexesItsOwnRow(db, c, spec, env.emb))
  {
    RecordedHasARowExactlyUnlessSoleOwner(db, c, spec, env);
  }

  lemma RecordedHasARowExactlyUnlessSoleOwner(db: Db, c: ConnId, spec: LoadedSpec, env: Env)
    requires Consistent(db) && c in db.conns && IndexedAndRecorded(db, c, spec, env).result.Ok?
    ensures var out := IndexedAndRecorded(db, c, spec, env);
            && c in out.db.conns && out.db.conns[c].status == Ready && out.db.conns[c].specHash == Some(spec.rawHash)
            && out.result.value.Some? && out.db.conns[c].endpointCount == out.result.value.value.operationCount
            && out.db.conns[c] == db.conns[c].(status := Ready, lastIndexedAt := Some(env.now), lastError := None,
                                               endpointCount := out.result.value.value.operationCount,
                                               specHash := Some(spec.rawHash), specId := out.db.conns[c].specId)
            && (out.db.conns[c].specId.None? <==> ReindexesItsOwnRow(db, c, spec, env.emb))
  {
    var conn := db.conns[c].(status := Indexing);
    WritingKeepsConsistent(db, c, conn);
    IndexingIsRecorded(db, c, spec, env);
    BoundExactlyUnlessSoleOwner(WithConn(db, c, conn), c, spec, env.emb, env.newId);
    StatusDecidesNothing(db, c, spec, env.emb);
  }

  /** An upload is settled in the same way: refused, its message is the connection's error; indexed,
      the document stays with the connection. */
  lemma UploadIsRecorded(db: Db, tenant: string, c: ConnId, blob: string, parsed: Result<LoadedSpec, string>, env: Env)
    requires Consistent(db) && c in db.conns && db.conns[c].tenant == tenant
    ensures var out := Uploaded(db, tenant, c, blob, parsed, env);
            match parsed
            case Err(message) =>
              && out.result == Ok(Some(IndexResult(0, 0, "", false)))
              && out.db == db.(conns := db.conns[c := db.conns[c].(status := Failed, lastError := Some(message))])
            case Ok(spec) => out.result.Ok? ==>
              && c in out.db.conns && out.result.value.Some?
              && out.db.conns[c] == db.conns[c].(blob := Some(blob), status := Ready, lastIndexedAt := Some(env.now), lastError := None,
                                                 endpointCount := out.result.value.value.operationCount,
                                                 specHash := Some(spec.rawHash), specId := out.db.conns[c].specId)
  {
    if parsed.Ok? && Uploaded(db, tenant, c, blob, parsed, env).result.Ok? {
      WritingKeepsConsistent(db, c, db.conns[c].(blob := Some(blob)));
      RecordedHasARowExactlyUnlessSoleOwner(WithConn(db, c, db.conns[c].(blob := Some(blob))), c, parsed.value, env);
    }
  }

  lemma IndexingIsRecorded(db: Db, c: ConnId, spec: LoadedSpec, env: Env)
    requires c in db.conns && IndexedAndRecorded(db, c, spec, env).result.Ok?
    ensures var out := Indexed(WithConn(db, c, db.conns[c].(status := Indexing)), c, spec, env.emb, env.newId);
            var recorded := IndexedAndRecorded(db, c, spec, env);
            && out.result.Ok? && c in out.db.conns && c in recorded.db.conns
            && recorded.result == Ok(Some(out.result.value)) && out.result.value.specHash == spec.rawHash
            && recorded.db.conns[c] == MarkedIndexed(out.db.conns[c], out.result.value, env.now)
  {
  }

  lemma StatusDecidesNothing(db: Db, c: ConnId, spec: LoadedSpec, emb: Embedder)
    requires UniqueIdentity(db) && c in db.conns
    ensures ReindexesItsOwnRow(WithConn(db, c, db.conns[c].(status := Indexing)), c, spec, emb) <==> ReindexesItsOwnRow(db, c, spec, emb)
  {
    var conn := db.conns[c].(status := Indexing);
    var start := WithConn(db, c, conn);
    if conn.specId.Some? {
      OthersDecide(db, start, c, conn, conn.specId.value);
    }
    assert IdentityOf(conn, spec.rawHash, emb) == IdentityOf(db.conns[c], spec.rawHash, emb);
    SameExisting(db, start, IdentityOf(conn, spec.rawHash, emb));
  }

  lemma SameExisting(a: Db, b: Db, identity: Identity)
    requires a.specs == b.specs && UniqueIdentity(a)
    ensures Existing(a, identity) == Existing(b, identity)
  {
  }

  lemma AfterOneMore(events: seq<Event>, e: Event)
    ensures AfterAll(events + [e]) == After(AfterAll(events), e)
  {
    var all := events + [e];
    assert all[..|all| - 1] == events;
  }

  /** An OpenAPI document without paths. */
  const EMPTY_API: seq<Field> :=
    [Field("openapi", Str("3.0.3")),
     Field("info", Obj([Field("title", Str("T")), Field("version", Str("1"))])),
     Field("paths", Obj([]))]

  /** It happens: a document is uploaded and then reindexed with nothing changed. */
  lemma SoleOwnerLosesItsRow() returns (events: seq<Event>)
    ensures |events| == 3 && events[0].Create? && events[1].Upload? && events[2].Reindex?
    ensures events[1].parsed.Ok? && events[2].loaded == Loaded(events[1].parsed.value)
    ensures Fetcher.DetectFormat(events[1].parsed.value.document) == Fetcher.OpenApi3
    ensures var db := AfterAll(events);
            0 in db.conns && db.conns[0].status == Ready && db.conns[0].specId == None && db.specs == map[]
  {
    var spec := LoadedSpec(EMPTY_API, "h");
    var env := Env(Embedder("m", 3, None), 7, 0);
    var create := FIRST_CREATE;
    var upload := Upload("t", 0, "b", Ok(spec), env);
    var reindex := Reindex("t", 0, Loaded(spec), env);
    events := [] + [create] + [upload] + [reindex];
    AfterOneMore([], create);
    AfterOneMore([] + [create], upload);
    AfterOneMore([] + [create] + [upload], reindex);
    NoChunks();
    ChunkCount("h", None, EMPTY_API);
    UploadMakesARow(spec, env);
    EventKeepsInv(EMPTY, create);
    EventKeepsInv(After(EMPTY, create), upload);
    ReindexLosesIt(After(After(EMPTY, create), upload), spec, env);
  }

  /** The example's document passes as OpenAPI 3 and has no operation, and so no chunk. */
  lemma NoChunks()
    ensures Fetcher.DetectFormat(EMPTY_API) == Fetcher.OpenApi3
    ensures EnrichSpec(EMPTY_API) == Ok([]) && ChunksOf("h", None, EMPTY_API) == Ok([])
  {
    assert EMPTY_API[1..][1..][0] == Field("paths", Obj([]));
    assert Get(EMPTY_API[1..][1..], "paths") == Some(Obj([]));
    assert Get(EMPTY_API[1..], "paths") == Some(Obj([]));
    assert Get(EMPTY_API, "paths") == Some(Obj([]));
    assert Get(EMPTY_API, "openapi") == Some(Str("3.0.3"));
  }

  const FIRST_CREATE := Create("t", CreateInput(OpenapiUpload, None, None, None, false), {}, 0, 0)

  predicate CanBeIndexed(spec: LoadedSpec, emb: Embedder) {
    && ChunksOf(spec.rawHash, None, spec.document).Ok?
    && Embedded(ChunksOf(spec.rawHash, None, spec.document).value, emb.vectors).Ok?
  }

  /** The first upload there is makes the first row. */
  lemma UploadMakesARow(spec: LoadedSpec, env: Env)
    requires CanBeIndexed(spec, env.emb)
    ensures var after := After(After(EMPTY, FIRST_CREATE), Upload("t", 0, "b", Ok(spec), env));
            && after.conns.Keys == {0} && after.conns[0].tenant == "t" && after.conns[0].mode == OpenapiUpload
            && after.conns[0].specId == Some(env.newId) && after.conns[0].status == Ready
            && after.specs == map[env.newId := FirstRow(spec, env.emb)]
            && after.chunks == map[env.newId := Embedded(ChunksOf(spec.rawHash, None, spec.document).value, env.emb.vectors).value]
  {
    var db := After(EMPTY, FIRST_CREATE);
    var conn := db.conns[0].(blob := Some("b"), status := Indexing);
    assert WithConn(EMPTY, 0, conn) == WithConn(WithConn(db, 0, db.conns[0].(blob := Some("b"))), 0, conn);
    FirstIndexing(conn, spec, env.emb, env.newId);
  }

  function FirstRow(spec: LoadedSpec, emb: Embedder): SpecRow
    requires EnrichSpec(spec.document).Ok?
  {
    SpecRow(Identity(OpenapiUpload, spec.rawHash, spec.rawHash, emb.model, emb.dim), |EnrichSpec(spec.document).value|, spec.document)
  }

  lemma FirstIndexing(conn: Connection, spec: LoadedSpec, emb: Embedder, newId: SpecId)
    requires CanBeIndexed(spec, emb)
    requires conn.mode == OpenapiUpload && conn.connectorKey.None? && conn.specId.None?
    ensures var out := Indexed(WithConn(EMPTY, 0, conn), 0, spec, emb, newId);
            var rows := Embedded(ChunksOf(spec.rawHash, None, spec.document).value, emb.vectors).value;
            && out.result.Ok?
            && out.db.specs == map[newId := FirstRow(spec, emb)] && out.db.chunks == map[newId := rows]
            && out.db.conns == map[0 := conn.(specId := Some(newId))]
  {
    var start := WithConn(EMPTY, 0, conn);
    var rows := Embedded(ChunksOf(spec.rawHash, None, spec.document).value, emb.vectors).value;
    assert IdentityOf(conn, spec.rawHash, emb) == FirstRow(spec, emb).identity;
    assert Existing(start, FirstRow(spec, emb).identity).None?;
    assert Indexed(start, 0, spec, emb, newId).db == Bound(Inserted(start, newId, FirstRow(spec, emb), rows), 0, newId);
  }

  lemma ReindexLosesIt(db: Db, spec: LoadedSpec, env: Env)
    requires Consistent(db) && env.emb == Embedder("m", 3, None) && spec.rawHash == "h"
    requires db.conns.Keys == {0} && db.conns[0].specId == Some(7) && db.conns[0].mode == OpenapiUpload && db.conns[0].tenant == "t"
    requires db.specs == map[7 := SpecRow(Identity(OpenapiUpload, "h", "h", "m", 3), 0, spec.document)]
    ensures var after := After(db, Reindex("t", 0, Loaded(spec), env));
            after.specs == map[] && 0 in after.conns && after.conns[0].specId == None && after.conns[0].status == Ready
  {
    var conn := db.conns[0].(status := Indexing);
    assert IdentityOf(conn, "h", env.emb) == db.specs[7].identity;
  }
}
