/** Finding an operation by its id and building a concrete request for it. */
module Execution {
  import opened Wrappers
  import opened Json
  import opened Texts
  import opened Enricher
  import opened EnricherTheorems
  import opened Fetcher
  import opened SwaggerPreservation
  import opened Chunker
  import PathTemplate

  /** A supplied value; `shown` is how Python's str prints one that is no text and no flag. */
  datatype Value = Flag(b: bool) | Text(s: string) | Other(shown: string)

  datatype ExecuteParams = ExecuteParams(path: map<string, Value>, query: map<string, Value>,
                                         headers: map<string, string>, body: Option<Value>)

  datatype Request = Request(httpMethod: string, path: string, headers: map<string, string>,
                             query: map<string, string>, body: Option<Value>, operationId: string)

  datatype ExecError = NotFound(id: string) | MissingQuery(names: set<string>) | BodyRequired
                     | MissingPath(name: string) | Crash(error: PyError)

  function Stringify(v: Value): string {
    match v
    case Flag(b) => if b then "true" else "false"
    case Text(s) => s
    case Other(shown) => shown
  }

  function StringifyAll(values: map<string, Value>): map<string, string> {
    map k | k in values :: Stringify(values[k])
  }

  // ---------- finding ----------

  function First(ops: seq<Operation>, id: string): (i: nat)
    ensures i <= |ops|
    ensures i < |ops| ==> ops[i].operationId == id
    ensures forall j :: 0 <= j < i ==> ops[j].operationId != id
  {
    if ops == [] || ops[0].operationId == id then 0
    else
      var i := First(ops[1..], id);
      assert forall j :: 1 <= j < 1 + i ==> ops[j] == ops[1..][j - 1];
      1 + i
  }

  function FindOperation(spec: seq<Field>, id: string): Result<Operation, ExecError> {
    match EnrichSpec(spec)
    case Err(e) => Err(Crash(e))
    case Ok(ops) =>
      var i := First(ops, id);
      if i < |ops| then Ok(ops[i]) else Err(NotFound(id))
  }

  method Find(spec: seq<Field>, id: string) returns (r: Result<Operation, ExecError>)
    ensures r == FindOperation(spec, id)
  {
    var ops := Enrich(spec);
    if ops.Err? {
      return Err(Crash(ops.error));
    }
    var i := Search(ops.value, id);
    if i < |ops.value| {
      return Ok(ops.value[i]);
    }
    return Err(NotFound(id));
  }

  method Search(ops: seq<Operation>, id: string) returns (i: nat)
    ensures i == First(ops, id)
  {
    i := 0;
    while i < |ops|
      invariant i <= |ops|
      invariant forall j :: 0 <= j < i ==> ops[j].operationId != id
    {
      if ops[i].operationId == id {
        return;
      }
      i := i + 1;
    }
  }

  /** Every stored chunk can be executed: looking its id up in the document finds the first
      operation with that id, and that is the chunk's own endpoint exactly when no earlier
      operation has taken the id. */
  lemma IndexedIsExecutable(spec: seq<Field>, specHash: string, connectorKey: Option<string>, i: nat)
    requires EnrichSpec(spec).Ok? && DistinctKeys(PathsOf(spec))
    requires OperationsToChunks(specHash, connectorKey, EnrichSpec(spec).value).Ok?
    requires i < |OperationsToChunks(specHash, connectorKey, EnrichSpec(spec).value).value|
    ensures var ops := EnrichSpec(spec).value;
            var chunk := OperationsToChunks(specHash, connectorKey, ops).value[i];
            var found := FindOperation(spec, chunk.operationId);
            && i < |ops| && First(ops, chunk.operationId) <= i
            && found == Ok(ops[First(ops, chunk.operationId)])
            && (found.value.path == chunk.path && found.value.httpMethod == chunk.httpMethod <==>
                  forall j :: 0 <= j < i ==> ops[j].operationId != chunk.operationId)
  {
    var ops := EnrichSpec(spec).value;
    ChunkCarries(specHash, connectorKey, ops, i);
    PathsOnce(PathsOf(spec));
    FirstDecides(ops, ops[i].operationId, i, First(ops, ops[i].operationId));
  }

  /** The first operation with the `i`th one's id has its endpoint exactly when it is that one. */
  lemma FirstDecides(ops: seq<Operation>, id: string, i: nat, k: nat)
    requires OncePerEndpoint(ops) && i < |ops| && ops[i].operationId == id
    requires k <= |ops| && (k < |ops| ==> ops[k].operationId == id) && forall j :: 0 <= j < k ==> ops[j].operationId != id
    ensures k <= i
    ensures ops[k].path == ops[i].path && ops[k].httpMethod == ops[i].httpMethod <==>
              forall j :: 0 <= j < i ==> ops[j].operationId != id
  {
    if k < i {
      DifferentEndpoints(ops, k, i);
    }
  }

  lemma DifferentEndpoints(ops: seq<Operation>, i: nat, j: nat)
    requires OncePerEndpoint(ops) && i < j < |ops|
    ensures ops[i].path != ops[j].path || ops[i].httpMethod != ops[j].httpMethod
  {
  }

  // ---------- parameters by location ----------

  datatype Buckets = Buckets(path: seq<seq<Field>>, query: seq<seq<Field>>, header: seq<seq<Field>>, cookie: seq<seq<Field>>)

  function AddTo(b: Buckets, p: seq<Field>): Result<Buckets, PyError> {
    match GetOr(p, "in", Null)
    case Str(loc) =>
      Ok(if loc == "path" then b.(path := b.path + [p])
         else if loc == "query" then b.(query := b.query + [p])
         else if loc == "header" then b.(header := b.header + [p])
         else if loc == "cookie" then b.(cookie := b.cookie + [p])
         else b)
    case Arr(_) => Err(TypeError)
    case Obj(_) => Err(TypeError)
    case _ => Ok(b)
  }

  function AddParam(b: Buckets, p: Json): Result<Buckets, PyError> {
    if !p.Obj? then Err(AttributeError) else AddTo(b, p.fields)
  }

  function SplitByLocation(params: seq<Json>): Result<Buckets, PyError> {
    if params == [] then Ok(Buckets([], [], [], []))
    else
      var before :- SplitByLocation(params[..|params| - 1]);
      AddParam(before, params[|params| - 1])
  }

  method Split(params: seq<Json>) returns (r: Result<Buckets, PyError>)
    ensures r == SplitByLocation(params)
  {
    r := Ok(Buckets([], [], [], []));
    for i := 0 to |params|
      invariant r.Ok? && r == SplitByLocation(params[..i])
    {
      assert params[..i + 1][..i] == params[..i];
      r := AddParam(r.value, params[i]);
      if r.Err? {
        SplitFails(params, i + 1);
        return r;
      }
    }
    assert params[..|params|] == params;
  }

  lemma {:induction false} SplitFails(params: seq<Json>, n: nat)
    requires n <= |params| && SplitByLocation(params[..n]).Err?
    ensures SplitByLocation(params) == SplitByLocation(params[..n])
    decreases |params|
  {
    if n < |params| {
      assert params[..|params| - 1][..n] == params[..n];
      SplitFails(params[..|params| - 1], n);
    } else {
      assert params[..n] == params;
    }
  }

  /** The mappings among `params` whose location is `loc`, in order. */
  function Located(params: seq<Json>, loc: string): seq<seq<Field>> {
    if params == [] then []
    else
      var last := params[|params| - 1];
      Located(params[..|params| - 1], loc)
      + if last.Obj? && Get(last.fields, "in") == Some(Str(loc)) then [last.fields] else []
  }

  lemma {:induction false} SplitIsExact(params: seq<Json>)
    requires SplitByLocation(params).Ok?
    ensures SplitByLocation(params).value ==
            Buckets(Located(params, "path"), Located(params, "query"), Located(params, "header"), Located(params, "cookie"))
  {
    if params != [] {
      SplitIsExact(params[..|params| - 1]);
    }
  }

  function RequiredNames(params: seq<seq<Field>>): set<string> {
    if params == [] then {}
    else
      var p := params[|params| - 1];
      RequiredNames(params[..|params| - 1])
      + if Truthful(p, "required") && GetOr(p, "name", Null).Str? then {GetOr(p, "name", Null).s} else {}
  }

  method CollectRequired(params: seq<seq<Field>>) returns (names: set<string>)
    ensures names == RequiredNames(params)
  {
    names := {};
    for i := 0 to |params|
      invariant names == RequiredNames(params[..i])
    {
      assert params[..i + 1][..i] == params[..i];
      if Truthful(params[i], "required") {
        var name := GetOr(params[i], "name", Null);
        if name.Str? {
          names := names + {name.s};
        }
      }
    }
    assert params[..|params|] == params;
  }

  // ---------- the request ----------

  predicate WantsBody(op: Operation) {
    op.requestBody.Some? && op.requestBody.value != [] && Truthful(op.requestBody.value, "required")
  }

  function BuildRequest(op: Operation, params: ExecuteParams): Result<Request, ExecError> {
    match SplitByLocation(op.parameters)
    case Err(e) => Err(Crash(e))
    case Ok(buckets) =>
      var missing := RequiredNames(buckets.query) - params.query.Keys;
      if missing != {} then Err(MissingQuery(missing))
      else if WantsBody(op) && params.body.None? then Err(BodyRequired)
      else
        match PathTemplate.Substitute(op.path, StringifyAll(params.path))
        case Err(name) => Err(MissingPath(name))
        case Ok(path) =>
          Ok(Request(op.httpMethod, path, params.headers, StringifyAll(params.query), params.body, op.operationId))
  }

  /** What is required of a query: the names that some mapping among the parameters gives to a
      required query parameter. */
  lemma {:induction false} RequiredNamesMeaning(params: seq<seq<Field>>, name: string)
    ensures name in RequiredNames(params) <==> exists p :: p in params && Demands(p, name)
  {
    if params != [] {
      var before, last := params[..|params| - 1], params[|params| - 1];
      RequiredNamesMeaning(before, name);
      assert forall p :: p in params <==> p in before || p == last;
      assert Demands(last, name) <==> Truthful(last, "required") && GetOr(last, "name", Null) == Str(name);
    }
  }

  /** The parameter is required and has this text for a name. */
  predicate Demands(p: seq<Field>, name: string) {
    Truthful(p, "required") && Get(p, "name") == Some(Str(name))
  }

  lemma {:induction false} LocatedMembers(params: seq<Json>, loc: string, p: seq<Field>)
    ensures p in Located(params, loc) <==> Obj(p) in params && Get(p, "in") == Some(Str(loc))
  {
    if params != [] {
      var before, last := params[..|params| - 1], params[|params| - 1];
      LocatedMembers(before, loc, p);
      assert forall x :: x in params <==> x in before || x == last;
    }
  }

  /** The parameter is a mapping, and its location, if any, is no list or mapping. */
  predicate Placeable(p: Json) {
    && p.Obj?
    && match Get(p.fields, "in")
       case Some(Arr(_)) => false
       case Some(Obj(_)) => false
       case _ => true
  }

  ghost predicate AllPlaceable(params: seq<Json>) {
    forall p :: p in params ==> Placeable(p)
  }

  lemma {:induction false} SplitSucceedsExactly(params: seq<Json>)
    ensures SplitByLocation(params).Ok? <==> AllPlaceable(params)
  {
    if params != [] {
      var before, last := params[..|params| - 1], params[|params| - 1];
      SplitSucceedsExactly(before);
      if SplitByLocation(before).Ok? {
        assert AddParam(SplitByLocation(before).value, last).Ok? <==> Placeable(last);
      }
      assert forall p :: p in params <==> p in before || p == last;
    }
  }

  /** Some query parameter with this name is marked required. */
  ghost predicate AsksFor(params: seq<Json>, name: string) {
    exists p :: Obj(p) in params && Get(p, "in") == Some(Str("query")) && Demands(p, name)
  }

  ghost predicate QueryComplete(op: Operation, params: ExecuteParams) {
    forall name :: AsksFor(op.parameters, name) ==> name in params.query
  }

  predicate BodyRequested(op: Operation) {
    op.requestBody.Some? && Truthful(op.requestBody.value, "required")
  }

  ghost predicate BodyComplete(op: Operation, params: ExecuteParams) {
    BodyRequested(op) ==> params.body.Some?
  }

  /** How a value is sent: a flag in lower case, a text as it is, anything else as shown. */
  predicate SentAs(v: Value, s: string) {
    match v
    case Flag(true) => s == "true"
    case Flag(false) => s == "false"
    case Text(text) => s == text
    case Other(shown) => s == shown
  }

  predicate SentIn(piece: PathTemplate.Piece, values: map<string, Value>, part: string) {
    match piece
    case Lit(c) => part == [c]
    case Hole(name) => name in values && SentAs(values[name], part)
  }

  /** The request that goes out: method, id, headers and body as they are, each query value as
      it is sent, and the path piece by piece with the values of its placeholders. */
  ghost predicate Carries(req: Request, op: Operation, params: ExecuteParams) {
    && req.httpMethod == op.httpMethod && req.operationId == op.operationId
    && req.headers == params.headers && req.body == params.body
    && req.query.Keys == params.query.Keys
    && (forall k :: k in params.query ==> SentAs(params.query[k], req.query[k]))
    && exists parts :: PathParts(parts, req, op, params)
  }

  ghost predicate PathParts(parts: seq<string>, req: Request, op: Operation, params: ExecuteParams) {
    var pieces := PathTemplate.Pieces(op.path);
    && req.path == PathTemplate.Concat(parts) && |parts| == |pieces|
    && forall i :: 0 <= i < |pieces| ==> SentIn(pieces[i], params.path, parts[i])
  }

  lemma RequiredIsAskedFor(op: Operation, name: string)
    ensures name in RequiredNames(Located(op.parameters, "query")) <==> AsksFor(op.parameters, name)
  {
    var located := Located(op.parameters, "query");
    RequiredNamesMeaning(located, name);
    forall p
      ensures p in located <==> Obj(p) in op.parameters && Get(p, "in") == Some(Str("query"))
    {
      LocatedMembers(op.parameters, "query", p);
    }
  }

  lemma MissingIsAskedFor(op: Operation, params: ExecuteParams)
    ensures var missing := RequiredNames(Located(op.parameters, "query")) - params.query.Keys;
            && (missing == {} <==> QueryComplete(op, params))
            && forall name :: name in missing <==> AsksFor(op.parameters, name) && name !in params.query
  {
    var required := RequiredNames(Located(op.parameters, "query"));
    forall name
      ensures name in required <==> AsksFor(op.parameters, name)
    {
      RequiredIsAskedFor(op, name);
    }
    NothingMissing(required, params.query.Keys);
  }

  lemma PathIsSentPartByPart(op: Operation, params: ExecuteParams, req: Request)
    requires BuildRequest(op, params) == Ok(req)
    ensures Carries(req, op, params)
  {
    var pieces, values := PathTemplate.Pieces(op.path), StringifyAll(params.path);
    PathTemplate.SubstituteFills(op.path, values);
    var parts := PathTemplate.FillIsPartByPart(pieces, values);
    assert forall i :: 0 <= i < |pieces| ==> PathTemplate.IsPart(pieces[i], values, parts[i]);
    assert PathParts(parts, req, op, params);
  }

  /** What a call comes to, each answer under its own condition: a parameter that is no mapping or
      has no proper location, required query names that are not given, a required body that is
      not, the first placeholder without a value, or else the request that carries everything. */
  lemma BuildRequestExactly(op: Operation, params: ExecuteParams)
    ensures match BuildRequest(op, params)
            case Ok(req) =>
              && AllPlaceable(op.parameters) && QueryComplete(op, params) && BodyComplete(op, params)
              && (forall name :: name in PathTemplate.Names(PathTemplate.Pieces(op.path)) ==> name in params.path)
              && Carries(req, op, params)
            case Err(MissingPath(name)) =>
              && AllPlaceable(op.parameters) && QueryComplete(op, params) && BodyComplete(op, params)
              && var names := PathTemplate.Names(PathTemplate.Pieces(op.path));
                 exists i: nat :: PathTemplate.FirstMissing(names, params.path.Keys, i) && name == names[i]
            case Err(BodyRequired) =>
              AllPlaceable(op.parameters) && QueryComplete(op, params) && !BodyComplete(op, params)
            case Err(MissingQuery(names)) =>
              && AllPlaceable(op.parameters) && names != {}
              && forall name :: name in names <==> AsksFor(op.parameters, name) && name !in params.query
            case Err(Crash(_)) => !AllPlaceable(op.parameters)
            case Err(NotFound(_)) => false
  {
    SplitSucceedsExactly(op.parameters);
    if SplitByLocation(op.parameters).Ok? {
      SplitIsExact(op.parameters);
      MissingIsAskedFor(op, params);
      PathAnswer(op, params);
    }
  }

  lemma PathAnswer(op: Operation, params: ExecuteParams)
    ensures match BuildRequest(op, params)
            case Ok(req) =>
              && (forall name :: name in PathTemplate.Names(PathTemplate.Pieces(op.path)) ==> name in params.path)
              && Carries(req, op, params)
            case Err(MissingPath(name)) =>
              var names := PathTemplate.Names(PathTemplate.Pieces(op.path));
              exists i: nat :: PathTemplate.FirstMissing(names, params.path.Keys, i) && name == names[i]
            case _ => true
  {
    var values := StringifyAll(params.path);
    assert values.Keys == params.path.Keys;
    PathTemplate.SubstituteFills(op.path, values);
    match BuildRequest(op, params) {
      case Ok(req) =>
        PathIsSentPartByPart(op, params, req);
      case Err(MissingPath(name)) =>
        var i := PathTemplate.FirstMissingIsNamed(op.path, values);
      case _ =>
    }
  }

  lemma NothingMissing(names: set<string>, given: set<string>)
    ensures names - given == {} <==> names <= given
  {
    if names - given == {} {
      forall name | name in names
        ensures name in given
      {
        assert name !in names - given;
      }
    }
  }

  // ---------- converted documents ----------

  lemma ConvertedParamIsAlike(p: seq<Field>, q: seq<Field>, name: string)
    requires ParamConverted(p, q)
    ensures Get(q, "in") == Get(p, "in") && (Demands(q, name) <==> Demands(p, name)) && (Placeable(Obj(q)) <==> Placeable(Obj(p)))
  {
    assert Get(q, "in") == Get(p, "in") && Get(q, "required") == Get(p, "required") && Get(q, "name") == Get(p, "name");
  }

  /** Conversion changes nothing of what the query must have. */
  lemma ConversionKeepsRequired(items: seq<Json>, out: seq<Json>, name: string)
    requires ParamsConverted(items, out)
    ensures AsksFor(out, name) <==> AsksFor(items, name)
  {
    if q :| Obj(q) in out && Get(q, "in") == Some(Str("query")) && Demands(q, name) {
      var p := OutHasSource(items, out, Obj(q));
      ConvertedParamIsAlike(p, q, name);
    }
    if p :| Obj(p) in items && Get(p, "in") == Some(Str("query")) && Demands(p, name) {
      var q := SourceHasOut(items, out, Obj(p));
      ConvertedParamIsAlike(p, q, name);
    }
  }

  /** Nor of where parameters are placed; what is no mapping, or a body, is not in the list. */
  lemma ConversionKeepsPlaces(items: seq<Json>, out: seq<Json>)
    requires ParamsConverted(items, out)
    ensures AllPlaceable(out) <==> forall p :: p in items && IsOwnParam(p) ==> Placeable(p)
  {
    forall p | AllPlaceable(out) && p in items && IsOwnParam(p)
      ensures Placeable(p)
    {
      var q := SourceHasOut(items, out, p);
      ConvertedParamIsAlike(p.fields, q, []);
    }
    forall q | (forall p :: p in items && IsOwnParam(p) ==> Placeable(p)) && q in out
      ensures Placeable(q)
    {
      var p := OutHasSource(items, out, q);
      ConvertedParamIsAlike(p, q.fields, []);
    }
  }

  /** Whether `op`, with these parameters of its own, calls for a body once converted. */
  predicate AsksForBody(op: Operation, own: seq<Json>) {
    match LastBody(own)
    case Some(p) => Truthful(p, "required")
    case None => BodyRequested(op)
  }

  /** Once converted, all of the path's parameters and the operation's own ones can be placed. */
  ghost predicate PlaceableConverted(shared: seq<Json>, own: seq<Json>) {
    AllPlaceable(shared) && forall p :: p in own && IsOwnParam(p) ==> Placeable(p)
  }

  lemma AsksForIn(shared: seq<Json>, own: seq<Json>, name: string)
    ensures AsksFor(shared + own, name) <==> AsksFor(shared, name) || AsksFor(own, name)
  {
    assert forall p :: p in shared + own <==> p in shared || p in own;
  }

  lemma ConvertedAsksAlike(a: Operation, b: Operation, shared: seq<Json>, consumes: Json)
    requires Preserved(a, b, shared, consumes)
    ensures forall name :: AsksFor(b.parameters, name) <==> AsksFor(a.parameters, name)
    ensures AllPlaceable(b.parameters) <==> PlaceableConverted(shared, a.parameters[|shared|..])
    ensures BodyRequested(b) <==> AsksForBody(a, a.parameters[|shared|..])
  {
    var own, out := a.parameters[|shared|..], b.parameters[|shared|..];
    assert a.parameters == shared + own && b.parameters == shared + out;
    forall name
      ensures AsksFor(b.parameters, name) <==> AsksFor(a.parameters, name)
    {
      AsksForIn(shared, own, name);
      AsksForIn(shared, out, name);
      ConversionKeepsRequired(own, out, name);
    }
    ConversionKeepsPlaces(own, out);
    assert forall p :: p in shared + out <==> p in shared || p in out;
    BodyAskedAlike(a, b, own, consumes);
  }

  lemma BodyAskedAlike(a: Operation, b: Operation, own: seq<Json>, consumes: Json)
    requires BodyCarried(a.requestBody, b.requestBody, own, consumes)
    ensures BodyRequested(b) <==> AsksForBody(a, own)
  {
  }

  /** Of a converted operation the same query names are required as of the original, and a missing
      body is refused exactly when the query is complete and the last body parameter that the
      operation itself declares is required, or, where it declares none, a body was asked for. */
  lemma ConvertedOperationIsEnforcedAlike(a: Operation, b: Operation, shared: seq<Json>, consumes: Json, params: ExecuteParams)
    requires Preserved(a, b, shared, consumes)
    ensures forall name :: AsksFor(b.parameters, name) <==> AsksFor(a.parameters, name)
    ensures BuildRequest(b, params) == Err(BodyRequired) <==>
              && PlaceableConverted(shared, a.parameters[|shared|..]) && QueryComplete(a, params)
              && params.body.None? && AsksForBody(a, a.parameters[|shared|..])
  {
    ConvertedAsksAlike(a, b, shared, consumes);
    BuildRequestExactly(b, params);
    assert QueryComplete(a, params) <==> QueryComplete(b, params);
    if BuildRequest(b, params).Err? && BuildRequest(b, params).error.MissingQuery? {
      assert !QueryComplete(b, params) by {
        var name :| name in BuildRequest(b, params).error.names;
        assert AsksFor(b.parameters, name);
      }
    }
  }

  /** The same of a converted document, operation for operation. */
  lemma ConvertedDocumentIsEnforcedAlike(doc: seq<Field>, i: nat, params: ExecuteParams)
    requires Upconvert(doc).Ok? && DistinctKeys(PathsOf(doc)) && EnrichSpec(doc).Ok? && i < |EnrichSpec(doc).value|
    ensures EnrichSpec(Upconvert(doc).value).Ok? && i < |EnrichSpec(Upconvert(doc).value).value|
    ensures var a, b := EnrichSpec(doc).value[i], EnrichSpec(Upconvert(doc).value).value[i];
            var shared := SharedOf(ItemAt(doc, a.path));
            && shared <= a.parameters
            && (forall name :: AsksFor(b.parameters, name) <==> AsksFor(a.parameters, name))
            && (BuildRequest(b, params) == Err(BodyRequired) <==>
                  && PlaceableConverted(shared, a.parameters[|shared|..]) && QueryComplete(a, params)
                  && params.body.None? && AsksForBody(a, a.parameters[|shared|..]))
  {
    ConversionPreservesOperations(doc);
    var a, b := EnrichSpec(doc).value[i], EnrichSpec(Upconvert(doc).value).value[i];
    assert PreservedIn(doc, a, b);
    var item := ItemAt(doc, a.path);
    ConvertedOperationIsEnforcedAlike(a, b, SharedOf(item), ConsumedBy(item, doc, a.httpMethod), params);
  }
}
