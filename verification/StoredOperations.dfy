/** From a stored chunk to the operation that is executed for it. Execution looks the chunk's id
    up in the document that the connection's connector loads at that time, never in the stored
    row. */
module StoredOperations {
  import opened Wrappers
  import opened Json
  import opened Texts
  import opened Enricher
  import opened EnricherTheorems
  import opened Chunker
  import Fetcher
  import opened Catalog
  import opened Connections
  import opened Execution
  import opened SwaggerPreservation

  /** The loaded document has the hash of the row, and, as equal hashes are taken to mean equal
      documents, is the one that the row was made of. */
  ghost predicate Unchanged(row: SpecRow, loaded: LoadedSpec) {
    && loaded.rawHash == row.identity.specHash
    && loaded.document == row.rawSpec
  }

  predicate SameEndpoint(op: Operation, chunk: SpecChunk) {
    op.path == chunk.path && op.httpMethod == chunk.httpMethod
  }

  /** After any run of transactions, as long as the document loaded is the one the row was made
      of, a stored chunk's id is found in it, and it is the chunk's own endpoint exactly when no
      chunk made from an earlier operation has that id. */
  lemma StoredChunksAreExecutable(events: seq<Event>, id: SpecId, i: nat, loaded: LoadedSpec)
    requires id in AfterAll(events).specs && id in AfterAll(events).chunks && i < |AfterAll(events).chunks[id]|
    requires Unchanged(AfterAll(events).specs[id], loaded) && DistinctKeys(PathsOf(loaded.document))
    ensures var rows := AfterAll(events).chunks[id];
            var chunk := rows[i].chunk;
            var found := FindOperation(loaded.document, chunk.operationId);
            && found.Ok? && found.value.operationId == chunk.operationId
            && (SameEndpoint(found.value, chunk) <==> forall j :: 0 <= j < i ==> rows[j].chunk.operationId != chunk.operationId)
  {
    EveryRunIsConsistent(events);
    RowIsExecutable(AfterAll(events).specs[id], AfterAll(events).chunks[id], i);
  }

  lemma RowIsExecutable(row: SpecRow, rows: seq<ChunkRow>, i: nat)
    requires Exact(row, rows) && i < |rows| && DistinctKeys(PathsOf(row.rawSpec))
    ensures var chunk := rows[i].chunk;
            var found := FindOperation(row.rawSpec, chunk.operationId);
            && found.Ok? && found.value.operationId == chunk.operationId
            && (SameEndpoint(found.value, chunk) <==> forall j :: 0 <= j < i ==> rows[j].chunk.operationId != chunk.operationId)
  {
    var key :| ChunkedFor(row, rows, key);
    var ops := EnrichSpec(row.rawSpec).value;
    IndexedIsExecutable(row.rawSpec, row.identity.specHash, key, i);
    forall j | 0 <= j <= i
      ensures rows[j].chunk.operationId == ops[j].operationId
    {
      ChunkCarries(row.identity.specHash, key, ops, j);
    }
  }

  // ---------- when the document has changed ----------

  /** `k` is the first operation with this id. */
  ghost predicate FirstWithId(ops: seq<Operation>, id: string, k: int) {
    && 0 <= k < |ops| && ops[k].operationId == id
    && forall j :: 0 <= j < k ==> ops[j].operationId != id
  }

  /** Whatever document is loaded: the id is found exactly when the document still has an
      operation with it, and what is executed is the chunk's endpoint exactly when that is the
      first such operation. */
  lemma ExecutedEndpoint(document: seq<Field>, chunk: SpecChunk)
    requires EnrichSpec(document).Ok?
    ensures var ops, found := EnrichSpec(document).value, FindOperation(document, chunk.operationId);
            && (found.Ok? <==> exists op :: op in ops && op.operationId == chunk.operationId)
            && (found.Ok? && SameEndpoint(found.value, chunk) <==>
                  exists k :: FirstWithId(ops, chunk.operationId, k) && SameEndpoint(ops[k], chunk))
  {
    var ops := EnrichSpec(document).value;
    var first := First(ops, chunk.operationId);
    if first < |ops| {
      assert FirstWithId(ops, chunk.operationId, first);
      assert ops[first] in ops;
      assert forall k :: FirstWithId(ops, chunk.operationId, k) ==> k == first;
    }
  }

  /** An OpenAPI document with one operation, declared with an id. */
  function OneGet(path: string, id: string): seq<Field> {
    [Field("openapi", Str("3.0.3")),
     Field("info", Obj([Field("title", Str("T")), Field("version", Str("1"))])),
     Field("paths", Obj([Field(path, Obj([Field("get", Obj(Declared(id)))]))]))]
  }

  function Declared(id: string): seq<Field> {
    [Field("operationId", Str(id)), Field("responses", Obj([Field("200", Obj([Field("description", Str("OK"))]))]))]
  }

  lemma PathsOfOneGet(path: string, id: string)
    ensures PathsOf(OneGet(path, id)) == [Field(path, Obj([Field("get", Obj(Declared(id)))]))]
    ensures Fetcher.DetectFormat(OneGet(path, id)) == Fetcher.OpenApi3
  {
    var doc := OneGet(path, id);
    assert doc[1..][1..][0] == doc[2];
    assert Get(doc[1..][1..], "paths") == Some(doc[2].value);
    assert Get(doc[1..], "paths") == Some(doc[2].value);
    assert Get(doc, "paths") == Some(doc[2].value);
    assert Get(doc, "openapi") == Some(Str("3.0.3"));
  }

  lemma UndeclaredMethod(path: string, item: seq<Field>, methods: seq<string>)
    requires methods != [] && Get(item, methods[|methods| - 1]) == None
    ensures EnrichItem(path, item, methods) == EnrichItem(path, item, methods[..|methods| - 1])
  {
    var before := EnrichItem(path, item, methods[..|methods| - 1]);
    assert EnrichMethod(path, item, methods[|methods| - 1]) == Ok([]);
    if before.Ok? {
      assert before.value + [] == before.value;
    }
  }

  lemma {:induction false} OnlyFirstMethod(path: string, item: seq<Field>, methods: seq<string>)
    requires methods != [] && forall i :: 0 < i < |methods| ==> Get(item, methods[i]) == None
    ensures EnrichItem(path, item, methods) == EnrichMethod(path, item, methods[0])
  {
    var before := methods[..|methods| - 1];
    if |methods| > 1 {
      OnlyFirstMethod(path, item, before);
      UndeclaredMethod(path, item, methods);
    } else {
      assert EnrichItem(path, item, before) == Ok([]);
      var found := EnrichMethod(path, item, methods[0]);
      if found.Ok? {
        assert [] + found.value == found.value;
      }
    }
  }

  lemma GetOfOne(key: string, value: Json, other: string)
    requires other != key
    ensures Get([Field(key, value)], other) == None
  {
    assert [Field(key, value)][1..] == [];
  }

  lemma PlainOperation(path: string, httpMethod: string, op: seq<Field>)
    requires Get(op, "parameters") == None && Get(op, "tags") == None
    ensures EnrichOperation(path, None, httpMethod, op) == Ok(OperationFrom(path, httpMethod, op, [], []))
  {
    var none: seq<Json> := [];
    assert none + none == none && Strings(none) == [];
  }

  lemma OnlyGetIsRead(path: string, op: seq<Field>)
    requires Get(op, "parameters") == None && Get(op, "tags") == None
    ensures EnrichItem(path, [Field("get", Obj(op))], HTTP_METHODS) == Ok([OperationFrom(path, "get", op, [], [])])
  {
    var item := [Field("get", Obj(op))];
    forall i | 0 < i < |HTTP_METHODS|
      ensures Get(item, HTTP_METHODS[i]) == None
    {
      GetOfOne("get", Obj(op), HTTP_METHODS[i]);
    }
    OnlyFirstMethod(path, item, HTTP_METHODS);
    GetOfOne("get", Obj(op), "parameters");
    PlainOperation(path, "get", op);
    MethodReads(path, item, "get", None, op);
  }

  lemma OneOperationIsRead(path: string, op: seq<Field>)
    requires Get(op, "parameters") == None && Get(op, "tags") == None
    ensures EnrichPaths([Field(path, Obj([Field("get", Obj(op))]))]) == Ok([OperationFrom(path, "get", op, [], [])])
  {
    var item := [Field("get", Obj(op))];
    OnlyGetIsRead(path, op);
    var paths: seq<Field> := [];
    OnePathMore(paths, path, item);
    assert EnrichPaths(paths) == Ok([]);
    var ops := [OperationFrom(path, "get", op, [], [])];
    assert [] + ops == ops;
    assert paths + [Field(path, Obj(item))] == [Field(path, Obj(item))];
  }

  lemma OneGetIsRead(path: string, id: string)
    requires id != []
    ensures EnrichSpec(OneGet(path, id)) == Ok([OperationFrom(path, "get", Declared(id), [], [])])
    ensures var op := OperationFrom(path, "get", Declared(id), [], []);
            op.operationId == id && op.path == path && op.responses.Obj?
  {
    PathsOfOneGet(path, id);
    DeclaredHolds(id);
    OneOperationIsRead(path, Declared(id));
  }

  lemma DeclaredHolds(id: string)
    ensures Get(Declared(id), "parameters") == None && Get(Declared(id), "tags") == None
    ensures Get(Declared(id), "operationId") == Some(Str(id))
    ensures Get(Declared(id), "responses") == Some(Declared(id)[1].value)
  {
    var op := Declared(id);
    assert op[1..] == [op[1]];
    GetOfOne("responses", op[1].value, "parameters");
    GetOfOne("responses", op[1].value, "tags");
  }

  lemma OneChunk(document: seq<Field>, op: Operation)
    requires EnrichSpec(document) == Ok([op]) && op.responses.Obj?
    ensures ChunksOf("h", None, document) == Ok([ChunkOf("h", None, op).value])
  {
    assert [op][..0] == [];
    assert OperationsToChunks("h", None, []) == Ok([]);
    var chunk := ChunkOf("h", None, op).value;
    assert [] + [chunk] == [chunk];
  }

  lemma FindsOnly(document: seq<Field>, op: Operation)
    requires EnrichSpec(document) == Ok([op])
    ensures FindOperation(document, op.operationId) == Ok(op)
  {
    assert First([op], op.operationId) == 0;
  }

  /** It happens: the document has moved the id to another path since the chunk was made, and
      the call goes there. */
  lemma ChangedDocumentMovesTheCall() returns (before: seq<Field>, after: seq<Field>)
    ensures Fetcher.DetectFormat(before) == Fetcher.DetectFormat(after) == Fetcher.OpenApi3
    ensures ChunksOf("h", None, before).Ok? && |ChunksOf("h", None, before).value| == 1
    ensures var chunk := ChunksOf("h", None, before).value[0];
            var found := FindOperation(after, chunk.operationId);
            found.Ok? && !SameEndpoint(found.value, chunk)
  {
    before, after := OneGet("/a", "x"), OneGet("/b", "x");
    PathsOfOneGet("/a", "x");
    PathsOfOneGet("/b", "x");
    OneGetIsRead("/a", "x");
    OneGetIsRead("/b", "x");
    OneChunk(before, OperationFrom("/a", "get", Declared("x"), [], []));
    FindsOnly(after, OperationFrom("/b", "get", Declared("x"), [], []));
  }
}
