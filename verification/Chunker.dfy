/** From operations to the chunks that are embedded and stored. SHA-256 is taken as injective:
    a digest is represented by what is digested. */
module Chunker {
  import opened Wrappers
  import opened Json
  import opened Texts
  import opened Enricher

  datatype SchemaPayload = SchemaPayload(httpMethod: string, path: string, parameters: seq<seq<Field>>,
                                         requestBody: Option<seq<Field>>, responseKeys: seq<string>)

  datatype SpecChunk = SpecChunk(
    id: string, operationId: string, httpMethod: string, path: string, summary: string, description: string,
    tags: seq<string>, semanticTags: seq<string>, embeddingText: string, schemaHash: SchemaPayload,
    parameters: seq<Json>, requestBody: Option<seq<Field>>, responses: seq<Field>)

  predicate IsNamed(p: Json) {
    p.Obj? && TextOf(Get(p.fields, "name")) != []
  }

  function NameOf(p: Json): string {
    if p.Obj? then TextOf(Get(p.fields, "name")) else []
  }

  /** The names of the parameters that are mappings and have one. */
  function ParamNames(params: seq<Json>): seq<string> {
    var named := Kept(params, IsNamed);
    seq(|named|, i requires 0 <= i < |named| => NameOf(named[i]))
  }

  function Line(show: bool, text: string): seq<string> {
    if show then [text] else []
  }

  function OperationLines(op: Operation): seq<string> {
    var names := ParamNames(op.parameters);
    [op.httpMethod + " " + op.path, "summary: " + op.summary]
    + Line(op.description != [], "description: " + op.description)
    + Line(op.tags != [], "tags: " + Join(op.tags, ", "))
    + Line(op.semanticTags != [], "semantic: " + Join(op.semanticTags, ", "))
    + Line(names != [], "params: " + Join(names, ", "))
  }

  function ConnectorLine(connectorKey: Option<string>): seq<string> {
    if connectorKey.Some? && connectorKey.value != [] then ["connector: " + connectorKey.value] else []
  }

  function EmbeddingText(connectorKey: Option<string>, op: Operation): string {
    Join(ConnectorLine(connectorKey) + OperationLines(op), "\n")
  }

  function IdentifyingFields(p: seq<Field>): seq<Field> {
    Pick(p, "name") + Pick(p, "in") + Pick(p, "required")
  }

  function Pick(p: seq<Field>, key: string): seq<Field> {
    match Get(p, key)
    case None => []
    case Some(v) => [Field(key, v)]
  }

  predicate IsMapping(p: Json) {
    p.Obj?
  }

  function ParamPayloads(params: seq<Json>): seq<seq<Field>> {
    var mappings := Kept(params, IsMapping);
    seq(|mappings|, i requires 0 <= i < |mappings| => if mappings[i].Obj? then IdentifyingFields(mappings[i].fields) else [])
  }

  function Keys(fields: seq<Field>): seq<string> {
    seq(|fields|, i requires 0 <= i < |fields| => fields[i].key)
  }

  function ChunkOf(specHash: string, connectorKey: Option<string>, op: Operation): Result<SpecChunk, PyError> {
    if !op.responses.Obj? then Err(AttributeError)
    else
      Ok(SpecChunk(
           specHash + "|" + op.operationId + "|" + op.httpMethod + "|" + op.path,
           op.operationId, op.httpMethod, op.path, op.summary, op.description, op.tags, op.semanticTags,
           EmbeddingText(connectorKey, op),
           SchemaPayload(op.httpMethod, op.path, ParamPayloads(op.parameters), op.requestBody, Keys(op.responses.fields)),
           op.parameters, op.requestBody, op.responses.fields))
  }

  function OperationsToChunks(specHash: string, connectorKey: Option<string>, ops: seq<Operation>): Result<seq<SpecChunk>, PyError> {
    if ops == [] then Ok([])
    else
      var before :- OperationsToChunks(specHash, connectorKey, ops[..|ops| - 1]);
      var last :- ChunkOf(specHash, connectorKey, ops[|ops| - 1]);
      Ok(before + [last])
  }

  method MakeChunks(specHash: string, connectorKey: Option<string>, ops: seq<Operation>) returns (r: Result<seq<SpecChunk>, PyError>)
    ensures r == OperationsToChunks(specHash, connectorKey, ops)
  {
    var chunks: seq<SpecChunk> := [];
    for i := 0 to |ops|
      invariant OperationsToChunks(specHash, connectorKey, ops[..i]) == Ok(chunks)
    {
      assert ops[..i + 1][..i] == ops[..i];
      var chunk := ChunkOf(specHash, connectorKey, ops[i]);
      if chunk.Err? {
        ChunksFail(specHash, connectorKey, ops, i + 1);
        return Err(chunk.error);
      }
      chunks := chunks + [chunk.value];
    }
    assert ops[..|ops|] == ops;
    return Ok(chunks);
  }

  lemma {:induction false} ChunksFail(specHash: string, connectorKey: Option<string>, ops: seq<Operation>, n: nat)
    requires n <= |ops| && OperationsToChunks(specHash, connectorKey, ops[..n]).Err?
    ensures OperationsToChunks(specHash, connectorKey, ops) == OperationsToChunks(specHash, connectorKey, ops[..n])
    decreases |ops|
  {
    if n < |ops| {
      assert ops[..|ops| - 1][..n] == ops[..n];
      ChunksFail(specHash, connectorKey, ops[..|ops| - 1], n);
    } else {
      assert ops[..n] == ops;
    }
  }

  predicate IsChunkOf(specHash: string, connectorKey: Option<string>, op: Operation, chunk: SpecChunk) {
    ChunkOf(specHash, connectorKey, op) == Ok(chunk)
  }

  lemma LastChunk(specHash: string, connectorKey: Option<string>, ops: seq<Operation>) returns (made: seq<SpecChunk>, chunk: SpecChunk)
    requires ops != [] && OperationsToChunks(specHash, connectorKey, ops).Ok?
    ensures OperationsToChunks(specHash, connectorKey, ops[..|ops| - 1]) == Ok(made)
    ensures IsChunkOf(specHash, connectorKey, ops[|ops| - 1], chunk)
    ensures OperationsToChunks(specHash, connectorKey, ops) == Ok(made + [chunk])
  {
    made := OperationsToChunks(specHash, connectorKey, ops[..|ops| - 1]).value;
    chunk := ChunkOf(specHash, connectorKey, ops[|ops| - 1]).value;
  }

  lemma {:induction false} ChunksAreOfOperations(specHash: string, connectorKey: Option<string>, ops: seq<Operation>, chunks: seq<SpecChunk>)
    requires OperationsToChunks(specHash, connectorKey, ops) == Ok(chunks)
    ensures AllPairs((op, chunk) => IsChunkOf(specHash, connectorKey, op, chunk), ops, chunks)
  {
    if ops != [] {
      var before, last := ops[..|ops| - 1], ops[|ops| - 1];
      LastApart(ops);
      var made, chunk := LastChunk(specHash, connectorKey, ops);
      ChunksAreOfOperations(specHash, connectorKey, before, made);
      PairsAppend((op, c) => IsChunkOf(specHash, connectorKey, op, c), before, made, [last], [chunk]);
    }
  }

  /** One chunk per operation, in order. */
  lemma ChunksFollowOperations(specHash: string, connectorKey: Option<string>, ops: seq<Operation>)
    requires OperationsToChunks(specHash, connectorKey, ops).Ok?
    ensures var chunks := OperationsToChunks(specHash, connectorKey, ops).value;
            |chunks| == |ops| && forall i :: 0 <= i < |ops| ==> Ok(chunks[i]) == ChunkOf(specHash, connectorKey, ops[i])
  {
    var chunks := OperationsToChunks(specHash, connectorKey, ops).value;
    ChunksAreOfOperations(specHash, connectorKey, ops, chunks);
    forall i | 0 <= i < |ops|
      ensures Ok(chunks[i]) == ChunkOf(specHash, connectorKey, ops[i])
    {
      assert IsChunkOf(specHash, connectorKey, ops[i], chunks[i]);
    }
  }

  /** The chunk of an operation goes by its id and endpoint. */
  lemma ChunkCarries(specHash: string, connectorKey: Option<string>, ops: seq<Operation>, i: nat)
    requires OperationsToChunks(specHash, connectorKey, ops).Ok?
    requires i < |OperationsToChunks(specHash, connectorKey, ops).value|
    ensures i < |ops|
    ensures var chunk := OperationsToChunks(specHash, connectorKey, ops).value[i];
            chunk.operationId == ops[i].operationId && chunk.path == ops[i].path && chunk.httpMethod == ops[i].httpMethod
  {
    ChunksFollowOperations(specHash, connectorKey, ops);
    var chunk := OperationsToChunks(specHash, connectorKey, ops).value[i];
    assert Ok(chunk) == ChunkOf(specHash, connectorKey, ops[i]);
  }

  // ---------- what a chunk holds ----------

  ghost predicate NamedIn(fields: seq<Field>) {
    exists s :: Get(fields, "name") == Some(Str(s)) && s != []
  }

  /** The names listed are those of the parameters, at the places `from`, that are mappings with a
      text that is not empty for a name. */
  ghost predicate NamesRead(names: seq<string>, params: seq<Json>, from: seq<nat>) {
    && Places(from, params, (p: Json) => p.Obj? && NamedIn(p.fields)) && |names| == |from|
    && forall i :: 0 <= i < |from| ==>
         params[from[i]].Obj? && Get(params[from[i]].fields, "name") == Some(Str(names[i])) && names[i] != []
  }

  /** The parameters as digested: of each mapping among them name, in and required, as far as given. */
  ghost predicate PayloadsRead(payloads: seq<seq<Field>>, params: seq<Json>, from: seq<nat>) {
    && Places(from, params, (p: Json) => p.Obj?) && |payloads| == |from|
    && forall i :: 0 <= i < |from| ==> params[from[i]].Obj? && Identifies(payloads[i], params[from[i]].fields)
  }

  ghost predicate Identifies(payload: seq<Field>, p: seq<Field>) {
    forall k :: Get(payload, k) == if k in {"name", "in", "required"} then Get(p, k) else None
  }

  lemma PickHolds(p: seq<Field>, key: string, rest: seq<Field>, k: string)
    ensures Get(Pick(p, key) + rest, k) == if k == key && Get(p, key).Some? then Get(p, key) else Get(rest, k)
  {
    if Get(p, key).Some? {
      assert (Pick(p, key) + rest)[1..] == rest;
    } else {
      assert Pick(p, key) + rest == rest;
    }
  }

  lemma FieldsIdentify(p: seq<Field>)
    ensures Identifies(IdentifyingFields(p), p)
  {
    var fields := IdentifyingFields(p);
    assert fields == Pick(p, "name") + (Pick(p, "in") + (Pick(p, "required") + []));
    forall k
      ensures Get(fields, k) == if k in {"name", "in", "required"} then Get(p, k) else None
    {
      PickHolds(p, "name", Pick(p, "in") + (Pick(p, "required") + []), k);
      PickHolds(p, "in", Pick(p, "required") + [], k);
      PickHolds(p, "required", [], k);
    }
  }

  function Labelled(show: bool, text: string): string {
    if show then "\n" + text else []
  }

  lemma LineJoined(lines: seq<string>, show: bool, text: string)
    requires lines != []
    ensures Join(lines + Line(show, text), "\n") == Join(lines, "\n") + Labelled(show, text)
  {
    if show {
      JoinAppend(lines, text, "\n");
    } else {
      assert lines + [] == lines;
    }
  }

  lemma {:induction false} JoinAppend(parts: seq<string>, last: string, sep: string)
    requires parts != []
    ensures Join(parts + [last], sep) == Join(parts, sep) + (sep + last)
  {
    assert (parts + [last])[1..] == parts[1..] + [last];
    if |parts| > 1 {
      JoinAppend(parts[1..], last, sep);
    } else {
      assert parts[1..] + [last] == [last];
    }
  }

  lemma OperationText(op: Operation)
    ensures EmbeddingText(None, op) ==
            op.httpMethod + " " + op.path + "\nsummary: " + op.summary
            + Labelled(op.description != [], "description: " + op.description)
            + Labelled(op.tags != [], "tags: " + Join(op.tags, ", "))
            + Labelled(op.semanticTags != [], "semantic: " + Join(op.semanticTags, ", "))
            + Labelled(ParamNames(op.parameters) != [], "params: " + Join(ParamNames(op.parameters), ", "))
  {
    var names := ParamNames(op.parameters);
    var lines := [op.httpMethod + " " + op.path, "summary: " + op.summary];
    HeadJoined(op);
    LineJoined(lines, op.description != [], "description: " + op.description);
    lines := lines + Line(op.description != [], "description: " + op.description);
    LineJoined(lines, op.tags != [], "tags: " + Join(op.tags, ", "));
    lines := lines + Line(op.tags != [], "tags: " + Join(op.tags, ", "));
    LineJoined(lines, op.semanticTags != [], "semantic: " + Join(op.semanticTags, ", "));
    lines := lines + Line(op.semanticTags != [], "semantic: " + Join(op.semanticTags, ", "));
    LineJoined(lines, names != [], "params: " + Join(names, ", "));
    assert [] + OperationLines(op) == OperationLines(op);
  }

  lemma HeadJoined(op: Operation)
    ensures Join([op.httpMethod + " " + op.path, "summary: " + op.summary], "\n") ==
            op.httpMethod + " " + op.path + "\nsummary: " + op.summary
  {
    var lines := [op.httpMethod + " " + op.path, "summary: " + op.summary];
    assert lines[1..] == ["summary: " + op.summary];
  }

  /** A chunk is made of an operation exactly when its responses are a mapping. It carries the
      operation, an id made of the document's hash, operation id, method and path, an embedding text
      with a line for each thing that is not empty, and the digest's payload. */
  lemma ChunkMeaning(specHash: string, connectorKey: Option<string>, op: Operation) returns (named: seq<nat>, mappings: seq<nat>)
    ensures ChunkOf(specHash, connectorKey, op).Ok? <==> op.responses.Obj?
    ensures NamesRead(ParamNames(op.parameters), op.parameters, named)
    ensures ChunkOf(specHash, connectorKey, op).Ok? ==>
              var chunk := ChunkOf(specHash, connectorKey, op).value;
              && chunk.id == specHash + "|" + op.operationId + "|" + op.httpMethod + "|" + op.path
              && chunk.operationId == op.operationId && chunk.httpMethod == op.httpMethod && chunk.path == op.path
              && chunk.summary == op.summary && chunk.description == op.description && chunk.tags == op.tags
              && chunk.semanticTags == op.semanticTags && chunk.parameters == op.parameters
              && chunk.requestBody == op.requestBody && Obj(chunk.responses) == op.responses
              && chunk.embeddingText == Prefix(connectorKey)
                   + (op.httpMethod + " " + op.path + "\nsummary: " + op.summary
                      + Labelled(op.description != [], "description: " + op.description)
                      + Labelled(op.tags != [], "tags: " + Join(op.tags, ", "))
                      + Labelled(op.semanticTags != [], "semantic: " + Join(op.semanticTags, ", "))
                      + Labelled(ParamNames(op.parameters) != [], "params: " + Join(ParamNames(op.parameters), ", ")))
              && chunk.schemaHash.httpMethod == op.httpMethod && chunk.schemaHash.path == op.path
              && PayloadsRead(chunk.schemaHash.parameters, op.parameters, mappings)
              && chunk.schemaHash.requestBody == op.requestBody
              && |chunk.schemaHash.responseKeys| == |chunk.responses|
              && forall i :: 0 <= i < |chunk.responses| ==> chunk.schemaHash.responseKeys[i] == chunk.responses[i].key
  {
    named := NamesAreRead(op.parameters);
    mappings := PayloadsAreRead(op.parameters);
    OperationText(op);
    ConnectorIsOnlyAPrefix(connectorKey, op);
  }

  lemma NamesAreRead(params: seq<Json>) returns (from: seq<nat>)
    ensures NamesRead(ParamNames(params), params, from)
  {
    from := KeptPlaces(params, IsNamed);
    assert forall p: Json :: IsNamed(p) <==> p.Obj? && NamedIn(p.fields);
  }

  lemma PayloadsAreRead(params: seq<Json>) returns (from: seq<nat>)
    ensures PayloadsRead(ParamPayloads(params), params, from)
  {
    from := KeptPlaces(params, IsMapping);
    forall i | 0 <= i < |from|
      ensures Identifies(ParamPayloads(params)[i], params[from[i]].fields)
    {
      FieldsIdentify(params[from[i]].fields);
    }
  }

  /** Chunks can be made exactly when every operation's responses are a mapping. */
  lemma {:induction false} ChunksSucceedExactly(specHash: string, connectorKey: Option<string>, ops: seq<Operation>)
    ensures OperationsToChunks(specHash, connectorKey, ops).Ok? <==> forall op :: op in ops ==> op.responses.Obj?
  {
    if ops != [] {
      var before, last := ops[..|ops| - 1], ops[|ops| - 1];
      ChunksSucceedExactly(specHash, connectorKey, before);
      assert forall op :: op in ops <==> op in before || op == last;
    }
  }

  // ---------- what depends on the connector ----------

  /** The chunk without the leading connector line of its embedding text. */
  ghost predicate SameButConnector(a: SpecChunk, b: SpecChunk, keyA: Option<string>, keyB: Option<string>) {
    && b.(embeddingText := a.embeddingText) == a
    && exists text :: a.embeddingText == Prefix(keyA) + text && b.embeddingText == Prefix(keyB) + text
  }

  function Prefix(connectorKey: Option<string>): string {
    if connectorKey.Some? && connectorKey.value != [] then "connector: " + connectorKey.value + "\n" else []
  }

  lemma ConnectorIsOnlyAPrefix(connectorKey: Option<string>, op: Operation)
    ensures EmbeddingText(connectorKey, op) == Prefix(connectorKey) + EmbeddingText(None, op)
  {
    var lines := OperationLines(op);
    assert [] + lines == lines;
    if ConnectorLine(connectorKey) != [] {
      var all := ConnectorLine(connectorKey) + lines;
      assert all[1..] == lines;
    }
  }

  /** Whichever connector a document is chunked for, the chunks are the same but for that line. */
  lemma ChunksDifferOnlyInConnector(specHash: string, keyA: Option<string>, keyB: Option<string>, ops: seq<Operation>)
    requires OperationsToChunks(specHash, keyA, ops).Ok?
    ensures OperationsToChunks(specHash, keyB, ops).Ok?
    ensures var a, b := OperationsToChunks(specHash, keyA, ops).value, OperationsToChunks(specHash, keyB, ops).value;
            |a| == |b| == |ops| && forall i :: 0 <= i < |a| ==> SameButConnector(a[i], b[i], keyA, keyB)
  {
    ChunksFollowOperations(specHash, keyA, ops);
    ChunkabilityIgnoresConnector(specHash, keyA, keyB, ops);
    ChunksFollowOperations(specHash, keyB, ops);
    forall i | 0 <= i < |ops|
      ensures SameButConnector(OperationsToChunks(specHash, keyA, ops).value[i], OperationsToChunks(specHash, keyB, ops).value[i], keyA, keyB)
    {
      ConnectorIsOnlyAPrefix(keyA, ops[i]);
      ConnectorIsOnlyAPrefix(keyB, ops[i]);
    }
  }

  lemma {:induction false} ChunkabilityIgnoresConnector(specHash: string, keyA: Option<string>, keyB: Option<string>, ops: seq<Operation>)
    ensures OperationsToChunks(specHash, keyA, ops).Ok? <==> OperationsToChunks(specHash, keyB, ops).Ok?
  {
    if ops != [] {
      ChunkabilityIgnoresConnector(specHash, keyA, keyB, ops[..|ops| - 1]);
    }
  }
}
