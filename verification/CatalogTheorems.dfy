/** What indexing does to the shared catalog: which rows it removes, whom it rebinds, and that
    reusing a row gives what indexing afresh would. */
module CatalogTheorems {
  import opened Wrappers
  import opened Json
  import opened Enricher
  import opened Chunker
  import opened Catalog

  /** The row that indexing binds the connection to. */
  ghost function Target(db: Db, c: ConnId, spec: LoadedSpec, emb: Embedder, newId: SpecId): SpecId
    requires c in db.conns
  {
    match Existing(db, IdentityOf(db.conns[c], spec.rawHash, emb))
    case Some(id) => id
    case None => newId
  }

  /** The tables after binding, before the previous row is looked at. */
  ghost function Rebound(db: Db, c: ConnId, spec: LoadedSpec, emb: Embedder, newId: SpecId): Db
    requires c in db.conns && Indexed(db, c, spec, emb, newId).result.Ok?
  {
    var conn := db.conns[c];
    match Existing(db, IdentityOf(conn, spec.rawHash, emb))
    case Some(id) => Bound(db, c, id)
    case None =>
      var rows := Embedded(ChunksOf(spec.rawHash, conn.connectorKey, spec.document).value, emb.vectors).value;
      var row := SpecRow(IdentityOf(conn, spec.rawHash, emb), |EnrichSpec(spec.document).value|, spec.document);
      Bound(Inserted(db, newId, row, rows), c, newId)
  }

  lemma RebindThenCollect(db: Db, c: ConnId, spec: LoadedSpec, emb: Embedder, newId: SpecId)
    requires c in db.conns && Indexed(db, c, spec, emb, newId).result.Ok?
    ensures Indexed(db, c, spec, emb, newId).db == Collected(Rebound(db, c, spec, emb, newId), db.conns[c].specId, c)
    ensures Existing(db, IdentityOf(db.conns[c], spec.rawHash, emb)).None? ==> newId !in db.specs
  {
  }

  /** Binding adds at most the target and changes no other connection. */
  lemma RebindingIsLocal(db: Db, c: ConnId, spec: LoadedSpec, emb: Embedder, newId: SpecId)
    requires db.chunks.Keys == db.specs.Keys && c in db.conns && Indexed(db, c, spec, emb, newId).result.Ok?
    ensures Indexed(db, c, spec, emb, newId).db == Collected(Rebound(db, c, spec, emb, newId), db.conns[c].specId, c)
    ensures var mid, target := Rebound(db, c, spec, emb, newId), Target(db, c, spec, emb, newId);
            && mid.conns == db.conns[c := db.conns[c].(specId := Some(target))]
            && mid.specs.Keys == db.specs.Keys + {target} && mid.chunks.Keys == db.chunks.Keys + {target}
            && (forall id :: id in db.specs ==> mid.specs[id] == db.specs[id] && mid.chunks[id] == db.chunks[id])
            && mid.specs[target].identity == IdentityOf(db.conns[c], spec.rawHash, emb)
  {
    RebindThenCollect(db, c, spec, emb, newId);
    match Existing(db, IdentityOf(db.conns[c], spec.rawHash, emb)) {
      case Some(id) =>
        assert db.specs.Keys + {id} == db.specs.Keys && db.chunks.Keys + {id} == db.chunks.Keys;
      case None =>
        assert newId !in db.specs && newId !in db.chunks;
    }
  }

  lemma OthersDecide(db: Db, mid: Db, c: ConnId, conn: Connection, id: SpecId)
    requires mid.conns == db.conns[c := conn]
    ensures ReferencedByOther(mid, id, c) <==> ReferencedByOther(db, id, c)
  {
    assert forall d :: d != c ==> (Refers(mid, d, id) <==> Refers(db, d, id));
  }

  /** Collecting removes the row exactly when no other connection refers to it, and nothing else. */
  lemma CollectingIsExact(mid: Db, specId: Option<SpecId>, c: ConnId)
    ensures var after := Collected(mid, specId, c);
            && after.conns.Keys == mid.conns.Keys
            && (forall d :: d in mid.conns && d != c ==> after.conns[d] == mid.conns[d])
            && (forall id :: id in after.specs <==> id in mid.specs && !(specId == Some(id) && !ReferencedByOther(mid, id, c)))
            && (forall id :: id in after.specs ==> after.specs[id] == mid.specs[id])
            && (c in mid.conns ==> after.conns[c] == if mid.conns[c].specId.Some? && mid.conns[c].specId == specId
                                                        && specId.value in mid.specs && !ReferencedByOther(mid, specId.value, c)
                                                     then mid.conns[c].(specId := None) else mid.conns[c])
  {
    if specId.Some? && specId.value in mid.specs && !ReferencedByOther(mid, specId.value, c) {
      forall d | d in mid.conns && d != c
        ensures Collected(mid, specId, c).conns[d] == mid.conns[d]
      {
        assert !Refers(mid, d, specId.value);
      }
    }
  }

  lemma CollectingKeepsChunks(mid: Db, specId: Option<SpecId>, c: ConnId, id: SpecId)
    requires mid.chunks.Keys == mid.specs.Keys && id in Collected(mid, specId, c).specs
    ensures id in Collected(mid, specId, c).chunks && Collected(mid, specId, c).chunks[id] == mid.chunks[id]
  {
  }

  /** Indexing touches no other connection; of the rows there before, it removes the one the
      connection was on exactly when no other connection is on it; and it adds at most the
      row it binds to. */
  lemma CollectionIsSafeAndComplete(db: Db, c: ConnId, spec: LoadedSpec, emb: Embedder, newId: SpecId)
    requires Consistent(db) && c in db.conns && Indexed(db, c, spec, emb, newId).result.Ok?
    ensures var after, previous := Indexed(db, c, spec, emb, newId).db, db.conns[c].specId;
            && after.conns.Keys == db.conns.Keys
            && (forall d :: d in db.conns && d != c ==> after.conns[d] == db.conns[d])
            && (forall id :: id in db.specs ==> (id !in after.specs <==> previous == Some(id) && !ReferencedByOther(db, id, c)))
            && (forall id :: id in after.specs ==> id in db.specs || id == Target(db, c, spec, emb, newId))
            && (forall id :: id in db.specs && id in after.specs ==>
                  after.specs[id] == db.specs[id] && id in after.chunks && after.chunks[id] == db.chunks[id])
  {
    RebindingIsLocal(db, c, spec, emb, newId);
    AfterCollecting(db, Rebound(db, c, spec, emb, newId), c, Target(db, c, spec, emb, newId));
  }

  /** The same, of the collection step alone. */
  lemma AfterCollecting(db: Db, mid: Db, c: ConnId, target: SpecId)
    requires c in db.conns && mid.conns == db.conns[c := db.conns[c].(specId := Some(target))]
    requires mid.specs.Keys == db.specs.Keys + {target} && mid.chunks.Keys == mid.specs.Keys == db.chunks.Keys + {target}
    requires forall id :: id in db.specs ==> id in db.chunks && mid.specs[id] == db.specs[id] && mid.chunks[id] == db.chunks[id]
    ensures var after, previous := Collected(mid, db.conns[c].specId, c), db.conns[c].specId;
            && after.conns.Keys == db.conns.Keys
            && (forall d :: d in db.conns && d != c ==> after.conns[d] == db.conns[d])
            && (forall id :: id in db.specs ==> (id !in after.specs <==> previous == Some(id) && !ReferencedByOther(db, id, c)))
            && (forall id :: id in after.specs ==> id in db.specs || id == target)
            && (forall id :: id in db.specs && id in after.specs ==>
                  after.specs[id] == db.specs[id] && id in after.chunks && after.chunks[id] == db.chunks[id])
  {
    var previous := db.conns[c].specId;
    CollectingIsExact(mid, previous, c);
    forall id | id in db.specs
      ensures ReferencedByOther(mid, id, c) <==> ReferencedByOther(db, id, c)
    {
      OthersDecide(db, mid, c, mid.conns[c], id);
    }
    forall id | id in db.specs && id in Collected(mid, previous, c).specs
      ensures id in Collected(mid, previous, c).chunks && Collected(mid, previous, c).chunks[id] == db.chunks[id]
    {
      CollectingKeepsChunks(mid, previous, c, id);
    }
  }

  // ---------- where the connection ends up ----------

  /** The document is unchanged since this connection's row was made, and no other connection
      is on that row. */
  ghost predicate ReindexesItsOwnRow(db: Db, c: ConnId, spec: LoadedSpec, emb: Embedder) {
    && c in db.conns && db.conns[c].specId.Some?
    && Existing(db, IdentityOf(db.conns[c], spec.rawHash, emb)) == db.conns[c].specId
    && !ReferencedByOther(db, db.conns[c].specId.value, c)
  }

  /** After a successful indexing the connection is on a row of this source, document and
      embedding space, exactly unless it was the only one on that very row before: then the
      row is gone and the connection is on none. */
  lemma BoundExactlyUnlessSoleOwner(db: Db, c: ConnId, spec: LoadedSpec, emb: Embedder, newId: SpecId)
    requires Consistent(db) && c in db.conns && Indexed(db, c, spec, emb, newId).result.Ok?
    ensures var after := Indexed(db, c, spec, emb, newId).db;
            && c in after.conns
            && after.conns[c] == db.conns[c].(specId := after.conns[c].specId)
            && (after.conns[c].specId.None? <==> ReindexesItsOwnRow(db, c, spec, emb))
            && (after.conns[c].specId.None? ==> db.conns[c].specId.value !in after.specs)
            && (after.conns[c].specId.Some? ==>
                  && after.conns[c].specId.value in after.specs
                  && after.specs[after.conns[c].specId.value].identity == IdentityOf(db.conns[c], spec.rawHash, emb))
  {
    var previous, target := db.conns[c].specId, Target(db, c, spec, emb, newId);
    var mid := Rebound(db, c, spec, emb, newId);
    RebindingIsLocal(db, c, spec, emb, newId);
    CollectingIsExact(mid, previous, c);
    OthersDecide(db, mid, c, mid.conns[c], target);
  }

  /** The row that the connection is on counts what the call has reported. */
  lemma BoundRowCounts(db: Db, c: ConnId, spec: LoadedSpec, emb: Embedder, newId: SpecId)
    requires Consistent(db) && c in db.conns && Indexed(db, c, spec, emb, newId).result.Ok?
    ensures var out := Indexed(db, c, spec, emb, newId);
            && out.result.value.specHash == spec.rawHash
            && (c in out.db.conns && out.db.conns[c].specId.Some? && out.db.conns[c].specId.value in out.db.specs ==>
                  out.db.specs[out.db.conns[c].specId.value].operationCount == out.result.value.operationCount)
  {
    var mid := Rebound(db, c, spec, emb, newId);
    RebindThenCollect(db, c, spec, emb, newId);
    RebindingIsLocal(db, c, spec, emb, newId);
    CollectingIsExact(mid, db.conns[c].specId, c);
    assert mid.specs[Target(db, c, spec, emb, newId)].operationCount == Indexed(db, c, spec, emb, newId).result.value.operationCount;
  }

  /** A row lost that way comes back with the next indexing. */
  lemma NextIndexingRestores(db: Db, c: ConnId, spec: LoadedSpec, emb: Embedder, newId: SpecId, next: LoadedSpec, nextId: SpecId)
    requires Consistent(db) && ReindexesItsOwnRow(db, c, spec, emb) && Indexed(db, c, spec, emb, newId).result.Ok?
    requires var after := Indexed(db, c, spec, emb, newId).db;
             c in after.conns && Indexed(after, c, next, emb, nextId).result.Ok?
    ensures var again := Indexed(Indexed(db, c, spec, emb, newId).db, c, next, emb, nextId).db;
            c in again.conns && again.conns[c].specId.Some? && again.conns[c].specId.value in again.specs
  {
    BoundExactlyUnlessSoleOwner(db, c, spec, emb, newId);
    IndexingKeepsConsistent(db, c, spec, emb, newId);
    BoundExactlyUnlessSoleOwner(Indexed(db, c, spec, emb, newId).db, c, next, emb, nextId);
  }

  // ---------- no orphans ----------

  ghost predicate Referenced(db: Db, id: SpecId) {
    exists c :: Refers(db, c, id)
  }

  ghost predicate NoOrphans(db: Db) {
    forall id :: id in db.specs ==> Referenced(db, id)
  }

  /** Indexing leaves no row that nobody refers to. */
  lemma IndexingLeavesNoOrphan(db: Db, c: ConnId, spec: LoadedSpec, emb: Embedder, newId: SpecId)
    requires Consistent(db) && NoOrphans(db) && c in db.conns && Indexed(db, c, spec, emb, newId).result.Ok?
    ensures NoOrphans(Indexed(db, c, spec, emb, newId).db)
  {
    var after, target := Indexed(db, c, spec, emb, newId).db, Target(db, c, spec, emb, newId);
    CollectionIsSafeAndComplete(db, c, spec, emb, newId);
    TargetIsHeld(db, c, spec, emb, newId);
    forall id | id in after.specs && id != target
      ensures Referenced(after, id)
    {
      var any :| Refers(db, any, id);
      assert ReferencedByOther(db, id, c);
      var d :| d in db.conns && d != c && Refers(db, d, id);
      assert Refers(after, d, id);
    }
  }

  lemma TargetIsHeld(db: Db, c: ConnId, spec: LoadedSpec, emb: Embedder, newId: SpecId)
    requires Consistent(db) && c in db.conns && Indexed(db, c, spec, emb, newId).result.Ok?
    ensures var after, target := Indexed(db, c, spec, emb, newId).db, Target(db, c, spec, emb, newId);
            target in after.specs ==> Refers(after, c, target)
  {
    var previous, target := db.conns[c].specId, Target(db, c, spec, emb, newId);
    var mid := Rebound(db, c, spec, emb, newId);
    RebindingIsLocal(db, c, spec, emb, newId);
    CollectingIsExact(mid, previous, c);
  }

  // ---------- reuse and recomputation ----------

  /** If equal hashes mean equal documents, taking over a row reports what making it anew in
      a catalog without it would, given one vector per chunk, and its chunks are the new ones
      up to the connector line, or entirely so when the source is a builtin connector. */
  lemma ReuseEqualsRecompute(db: Db, c: ConnId, spec: LoadedSpec, emb: Embedder, newId: SpecId, id: SpecId, vectors: seq<Vector>)
    requires Consistent(db) && c in db.conns
    requires Existing(db, IdentityOf(db.conns[c], spec.rawHash, emb)) == Some(id)
    requires db.specs[id].rawSpec == spec.document
    requires newId !in db.specs && |vectors| == db.specs[id].operationCount
    ensures var reused := Indexed(db, c, spec, emb, newId);
            var anew := Indexed(Dropped(db, id), c, spec, emb.(vectors := Some(vectors)), newId);
            var key := db.conns[c].connectorKey;
            && reused.result.Ok? && anew.result == Ok(reused.result.value.(reused := false))
            && newId in anew.db.chunks && |anew.db.chunks[newId]| == |db.chunks[id]|
            && (exists made :: SameChunks(db.chunks[id], anew.db.chunks[newId], made, key))
            && (db.conns[c].mode == Builtin && Given(key) ==>
                  forall i :: 0 <= i < |db.chunks[id]| ==> db.chunks[id][i].chunk == anew.db.chunks[newId][i].chunk)
  {
    var key :| ChunkedFor(db.specs[id], db.chunks[id], key);
    var made := Recomputed(db, c, spec, emb, newId, id, vectors, key);
    var rows := Indexed(Dropped(db, id), c, spec, emb.(vectors := Some(vectors)), newId).db.chunks[newId];
    forall i | 0 <= i < |rows|
      ensures SameButConnector(db.chunks[id][i].chunk, rows[i].chunk, key, db.conns[c].connectorKey)
    {
      assert rows[i].chunk == made[i];
    }
    if key == db.conns[c].connectorKey {
      SameKeySameChunks(db.chunks[id], rows, key);
    }
    assert SameChunks(db.chunks[id], rows, key, db.conns[c].connectorKey);
  }

  lemma SameKeySameChunks(a: seq<ChunkRow>, b: seq<ChunkRow>, key: Option<string>)
    requires SameChunks(a, b, key, key)
    ensures forall i :: 0 <= i < |a| ==> a[i].chunk == b[i].chunk
  {
  }

  lemma Recomputed(db: Db, c: ConnId, spec: LoadedSpec, emb: Embedder, newId: SpecId, id: SpecId, vectors: seq<Vector>, key: Option<string>)
    returns (made: seq<SpecChunk>)
    requires Consistent(db) && c in db.conns
    requires Existing(db, IdentityOf(db.conns[c], spec.rawHash, emb)) == Some(id)
    requires db.specs[id].rawSpec == spec.document
    requires newId !in db.specs && |vectors| == db.specs[id].operationCount
    requires ChunkedFor(db.specs[id], db.chunks[id], key)
    ensures |made| == |db.chunks[id]|
    ensures forall i :: 0 <= i < |made| ==> SameButConnector(db.chunks[id][i].chunk, made[i], key, db.conns[c].connectorKey)
    ensures var after := Indexed(Dropped(db, id), c, spec, emb.(vectors := Some(vectors)), newId);
            && after.result == Ok(IndexResult(|made|, |made|, spec.rawHash, false))
            && newId in after.db.chunks && |after.db.chunks[newId]| == |made|
            && forall i :: 0 <= i < |made| ==> after.db.chunks[newId][i].chunk == made[i]
  {
    var before := Dropped(db, id);
    made := OwnChunks(db.specs[id], db.chunks[id], key, db.conns[c].connectorKey);
    NothingElseExists(db, id);
    DroppingKeepsSource(db, id, c, spec.rawHash, emb);
    FreshIsStored(before, c, spec, emb.(vectors := Some(vectors)), newId);
  }

  ghost predicate SameChunks(a: seq<ChunkRow>, b: seq<ChunkRow>, keyA: Option<string>, keyB: Option<string>) {
    |a| == |b| && forall i :: 0 <= i < |a| ==> SameButConnector(a[i].chunk, b[i].chunk, keyA, keyB)
  }

  lemma OwnChunks(row: SpecRow, rows: seq<ChunkRow>, key: Option<string>, own: Option<string>) returns (made: seq<SpecChunk>)
    requires ChunkedFor(row, rows, key)
    ensures ChunksOf(row.identity.specHash, own, row.rawSpec) == Ok(made)
    ensures |made| == |rows| == row.operationCount == |EnrichSpec(row.rawSpec).value|
    ensures forall i :: 0 <= i < |made| ==> SameButConnector(rows[i].chunk, made[i], key, own)
  {
    SameEitherWay(row.identity.specHash, key, own, row.rawSpec);
    made := ChunksOf(row.identity.specHash, own, row.rawSpec).value;
  }

  lemma DroppingKeepsSource(db: Db, id: SpecId, c: ConnId, specHash: string, emb: Embedder)
    requires c in db.conns
    ensures c in Dropped(db, id).conns && Dropped(db, id).conns[c].connectorKey == db.conns[c].connectorKey
    ensures IdentityOf(Dropped(db, id).conns[c], specHash, emb) == IdentityOf(db.conns[c], specHash, emb)
  {
  }

  lemma NothingElseExists(db: Db, id: SpecId)
    requires Consistent(db) && id in db.specs
    ensures Existing(Dropped(db, id), db.specs[id].identity) == None
    ensures Consistent(Dropped(db, id))
  {
    DroppingKeepsConsistent(db, id);
  }

  lemma SameEitherWay(specHash: string, keyA: Option<string>, keyB: Option<string>, document: seq<Field>)
    requires ChunksOf(specHash, keyA, document).Ok?
    ensures ChunksOf(specHash, keyB, document).Ok?
    ensures var a, b := ChunksOf(specHash, keyA, document).value, ChunksOf(specHash, keyB, document).value;
            |a| == |b| == |EnrichSpec(document).value| && forall i :: 0 <= i < |a| ==> SameButConnector(a[i], b[i], keyA, keyB)
  {
    ChunksDifferOnlyInConnector(specHash, keyA, keyB, EnrichSpec(document).value);
  }

  /** The fresh path stores what it has computed. */
  lemma FreshIsStored(db: Db, c: ConnId, spec: LoadedSpec, emb: Embedder, newId: SpecId)
    requires Consistent(db) && c in db.conns && newId !in db.specs
    requires Existing(db, IdentityOf(db.conns[c], spec.rawHash, emb)).None?
    requires ChunksOf(spec.rawHash, db.conns[c].connectorKey, spec.document).Ok?
    requires Embedded(ChunksOf(spec.rawHash, db.conns[c].connectorKey, spec.document).value, emb.vectors).Ok?
    ensures var after := Indexed(db, c, spec, emb, newId);
            var made := ChunksOf(spec.rawHash, db.conns[c].connectorKey, spec.document).value;
            && after.result == Ok(IndexResult(|EnrichSpec(spec.document).value|, |made|, spec.rawHash, false))
            && newId in after.db.specs && after.db.specs[newId].rawSpec == spec.document
            && after.db.specs[newId].operationCount == |made|
            && newId in after.db.chunks
            && after.db.chunks[newId] == Embedded(made, emb.vectors).value
            && (forall i :: 0 <= i < |made| ==>
                  after.db.chunks[newId][i] == ChunkRow(made[i], emb.vectors.value[i]))
  {
    RebindingIsLocal(db, c, spec, emb, newId);
    assert db.conns[c].specId != Some(newId);
    ChunkCount(spec.rawHash, db.conns[c].connectorKey, spec.document);
  }
}
