/** What the up-conversion preserves of the operations that are read from a document. */
module SwaggerPreservation {
  import opened Wrappers
  import opened Json
  import opened Texts
  import opened Enricher
  import opened EnricherTheorems
  import opened Fetcher

  predicate Truthful(fields: seq<Field>, key: string) {
    Truthy(GetOr(fields, key, Null))
  }

  /** Each of the consumed types once, and nothing else, with the schema. */
  ghost predicate ContentOf(content: seq<Field>, consumes: Json, schema: Json) {
    && Elements(consumes).Ok?
    && forall k :: Get(content, k) == if Str(k) in Elements(consumes).value then Some(Obj([Field("schema", schema)])) else None
  }

  /** The request body made of the body parameter `p`: required as `p` is, and with the schema
      of `p` for each consumed type. */
  ghost predicate MadeOf(body: seq<Field>, p: seq<Field>, consumes: Json) {
    && Get(body, "required") == Some(GetOr(p, "required", Bool(false)))
    && match Get(body, "content")
       case Some(Obj(content)) => ContentOf(content, consumes, GetOr(p, "schema", Obj([])))
       case _ => false
  }

  /** The body asked for after conversion is made of the last body parameter among `own`, if
      there is one, and is what was asked for before otherwise. */
  ghost predicate BodyCarried(before: Option<seq<Field>>, after: Option<seq<Field>>, own: seq<Json>, consumes: Json) {
    match LastBody(own)
    case None => after == before
    case Some(p) => after.Some? && MadeOf(after.value, p, consumes)
  }

  /** What the item of a path declares: the parameters for all its operations, and what the
      one under a method consumes. */
  function SharedOf(item: seq<Field>): seq<Json> {
    match ElementsOr(Get(item, "parameters"))
    case Ok(shared) => shared
    case Err(_) => []
  }

  function ConsumedBy(item: seq<Field>, doc: seq<Field>, httpMethod: string): Json {
    match Get(item, Lower(httpMethod))
    case Some(Obj(op)) => ConsumesOf(op, doc)
    case _ => Null
  }

  /** The item that a document declares for a path. */
  function ItemAt(doc: seq<Field>, path: string): seq<Field> {
    match Get(PathsOf(doc), path)
    case Some(Obj(item)) => item
    case _ => []
  }

  /** The parameter is a mapping and no body. */
  predicate IsOwnParam(p: Json) {
    p.Obj? && Get(p.fields, "in") != Some(Str("body"))
  }

  ghost predicate ConvertedAt(items: seq<Json>, k: nat, q: Json) {
    && k < |items| && items[k].Obj? && q.Obj?
    && ParamConverted(items[k].fields, q.fields)
  }

  /** `out` holds conversions of the parameters at the places `from`, which are those of all
      mappings that are no bodies. */
  ghost predicate ListsConversions(items: seq<Json>, from: seq<nat>, out: seq<Json>) {
    Places(from, items, IsOwnParam) && AllPairs((k, q) => ConvertedAt(items, k, q), from, out)
  }

  ghost predicate ParamsConverted(items: seq<Json>, out: seq<Json>) {
    exists from :: ListsConversions(items, from, out)
  }

  /** `b` is `a` after conversion: `a` starts with the path's parameters `shared`, which stay
      as they are; what follows is the operation's own, of which the last body parameter
      becomes the request body. */
  ghost predicate Preserved(a: Operation, b: Operation, shared: seq<Json>, consumes: Json) {
    && b.operationId == a.operationId && b.httpMethod == a.httpMethod && b.path == a.path
    && b.summary == a.summary && b.description == a.description && b.tags == a.tags
    && b.semanticTags == a.semanticTags && b.responses == a.responses
    && shared <= a.parameters && shared <= b.parameters
    && ParamsConverted(a.parameters[|shared|..], b.parameters[|shared|..])
    && BodyCarried(a.requestBody, b.requestBody, a.parameters[|shared|..], consumes)
  }

  /** Operations of one path. */
  ghost predicate PreservedOn(path: string, item: seq<Field>, doc: seq<Field>, a: Operation, b: Operation) {
    a.path == path && Preserved(a, b, SharedOf(item), ConsumedBy(item, doc, a.httpMethod))
  }

  ghost predicate AllPreservedOn(path: string, item: seq<Field>, doc: seq<Field>, a: seq<Operation>, b: seq<Operation>) {
    AllPairs((x, y) => PreservedOn(path, item, doc, x, y), a, b)
  }

  ghost predicate SameOn(path: string, item: seq<Field>, doc: seq<Field>,
                         a: Result<seq<Operation>, PyError>, b: Result<seq<Operation>, PyError>)
  {
    && (a.Ok? <==> b.Ok?)
    && (a.Ok? ==> AllPreservedOn(path, item, doc, a.value, b.value))
  }

  /** Operations of a document. */
  ghost predicate PreservedIn(doc: seq<Field>, a: Operation, b: Operation) {
    PreservedOn(a.path, ItemAt(doc, a.path), doc, a, b)
  }

  ghost predicate AllPreserved(doc: seq<Field>, a: seq<Operation>, b: seq<Operation>) {
    AllPairs((x, y) => PreservedIn(doc, x, y), a, b)
  }

  ghost predicate SameUpToConversion(doc: seq<Field>, a: Result<seq<Operation>, PyError>, b: Result<seq<Operation>, PyError>) {
    && (a.Ok? <==> b.Ok?)
    && (a.Ok? ==> AllPreserved(doc, a.value, b.value))
  }

  // ---------- the parameters ----------

  lemma {:induction false} ConvertParamsAreKept(items: seq<Json>)
    ensures var kept := Kept(items, IsOwnParam);
            && |ConvertParams(items)| == |kept|
            && forall i :: 0 <= i < |kept| ==> kept[i].Obj? && ConvertParams(items)[i] == Obj(ConvertParam(kept[i].fields))
  {
    if items != [] {
      ConvertParamsAreKept(items[..|items| - 1]);
    }
  }

  /** The converted list holds the conversions of exactly the parameters that are mappings and no
      bodies, in order. */
  lemma ConvertParamsIsFilter(items: seq<Json>) returns (from: seq<nat>)
    ensures ListsConversions(items, from, ConvertParams(items))
  {
    from := KeptPlaces(items, IsOwnParam);
    ConvertParamsAreKept(items);
    var out := ConvertParams(items);
    forall i | 0 <= i < |from|
      ensures ConvertedAt(items, from[i], out[i])
    {
      ConvertParamMeaning(items[from[i]].fields);
    }
  }

  lemma OutHasSource(items: seq<Json>, out: seq<Json>, q: Json) returns (p: seq<Field>)
    requires ParamsConverted(items, out) && q in out
    ensures q.Obj? && Obj(p) in items && IsOwnParam(Obj(p)) && ParamConverted(p, q.fields)
  {
    var i := PlaceIn(out, q);
    var from :| ListsConversions(items, from, out);
    assert ConvertedAt(items, from[i], out[i]);
    p := items[from[i]].fields;
    assert items[from[i]] == Obj(p);
  }

  lemma SourceHasOut(items: seq<Json>, out: seq<Json>, p: Json) returns (q: seq<Field>)
    requires ParamsConverted(items, out) && p in items && IsOwnParam(p)
    ensures Obj(q) in out && ParamConverted(p.fields, q)
  {
    var from :| ListsConversions(items, from, out);
    var k := PlaceIn(items, p);
    var i := PlaceIn(from, k);
    assert ConvertedAt(items, from[i], out[i]);
    q := out[i].fields;
    assert out[i] == Obj(q);
  }

  // ---------- one operation ----------

  lemma ItemsAgree(op: seq<Field>)
    requires Elements(GetOr(op, "parameters", Arr([]))).Ok?
    ensures ElementsOr(Get(op, "parameters")) == Elements(GetOr(op, "parameters", Arr([])))
  {
    var v := GetOr(op, "parameters", Arr([]));
    if !Truthy(v) {
      assert Elements(v).value == [];
    }
  }

  lemma WithParamsKeeps(op: seq<Field>, params: seq<Json>, key: string)
    ensures Get(WithParams(op, params), "parameters") == if params == [] then None else Some(Arr(params))
    ensures key != "parameters" ==>
              Get(WithParams(op, params), key) == if key in {"consumes", "produces"} then None else Get(op, key)
  {
  }

  /** A converted operation has all that the original has but what it consumes and produces, its
      parameters and its request body. */
  lemma OperationKeeps(op: seq<Field>, doc: seq<Field>, key: string)
    requires ConvertOperation(op, doc).Ok? && key !in {"parameters", "requestBody"}
    ensures Get(ConvertOperation(op, doc).value, key) == if key in {"consumes", "produces"} then None else Get(op, key)
  {
    BodyAside(op, doc, key);
    WithParamsKeeps(op, ConvertParams(Elements(GetOr(op, "parameters", Arr([]))).value), key);
  }

  lemma ParametersConverted(op: seq<Field>, doc: seq<Field>)
    requires ConvertOperation(op, doc).Ok?
    ensures ElementsOr(Get(op, "parameters")).Ok?
    ensures ElementsOr(Get(ConvertOperation(op, doc).value, "parameters")) ==
            Ok(ConvertParams(ElementsOr(Get(op, "parameters")).value))
  {
    ItemsAgree(op);
    var params := ConvertParams(ElementsOr(Get(op, "parameters")).value);
    WithParamsKeeps(op, params, "parameters");
    BodyAside(op, doc, "parameters");
  }

  /** The request body is added last, and changes nothing else. */
  lemma BodyAside(op: seq<Field>, doc: seq<Field>, key: string)
    requires ConvertOperation(op, doc).Ok? && key != "requestBody"
    ensures Elements(GetOr(op, "parameters", Arr([]))).Ok?
    ensures var items := Elements(GetOr(op, "parameters", Arr([]))).value;
            Get(ConvertOperation(op, doc).value, key) == Get(WithParams(op, ConvertParams(items)), key)
  {
  }

  lemma BodyPut(op: seq<Field>, doc: seq<Field>)
    requires ConvertOperation(op, doc).Ok? && Elements(GetOr(op, "parameters", Arr([]))).Ok?
    ensures match LastBody(Elements(GetOr(op, "parameters", Arr([]))).value)
            case None => Get(ConvertOperation(op, doc).value, "requestBody") == Get(op, "requestBody")
            case Some(body) =>
              && RequestBody(op, doc, body).Ok?
              && Get(ConvertOperation(op, doc).value, "requestBody") == Some(RequestBody(op, doc, body).value)
  {
    WithParamsKeeps(op, ConvertParams(Elements(GetOr(op, "parameters", Arr([]))).value), "requestBody");
  }

  lemma {:induction false} ContentIsExact(types: seq<Json>, schema: Json, k: string)
    requires Content(types, schema).Ok?
    ensures Get(Content(types, schema).value, k) == if Str(k) in types then Some(Obj([Field("schema", schema)])) else None
  {
    if types != [] {
      var before := types[..|types| - 1];
      ContentIsExact(before, schema, k);
      assert Str(k) in types <==> Str(k) in before || Str(k) == types[|types| - 1];
    }
  }

  lemma RequestBodyIs(op: seq<Field>, doc: seq<Field>, body: seq<Field>)
    requires RequestBody(op, doc, body).Ok?
    ensures RequestBody(op, doc, body).value.Obj?
    ensures MadeOf(RequestBody(op, doc, body).value.fields, body, ConsumesOf(op, doc))
  {
    var types, schema := Elements(ConsumesOf(op, doc)).value, GetOr(body, "schema", Obj([]));
    var fields := RequestBody(op, doc, body).value.fields;
    assert fields[1..][0] == Field("content", Obj(Content(types, schema).value));
    assert Get(fields[1..], "content") == Some(Obj(Content(types, schema).value));
    forall k: string
      ensures Get(Content(types, schema).value, k) == if Str(k) in types then Some(Obj([Field("schema", schema)])) else None
    {
      ContentIsExact(types, schema, k);
    }
  }

  lemma BodyConverted(op: seq<Field>, doc: seq<Field>)
    requires ConvertOperation(op, doc).Ok? && ElementsOr(Get(op, "parameters")).Ok?
    ensures BodyCarried(BodyRead(op), BodyRead(ConvertOperation(op, doc).value),
                        ElementsOr(Get(op, "parameters")).value, ConsumesOf(op, doc))
  {
    ItemsAgree(op);
    BodyPut(op, doc);
    match LastBody(ElementsOr(Get(op, "parameters")).value) {
      case None =>
      case Some(body) => RequestBodyIs(op, doc, body);
    }
  }

  lemma SummaryPreserved(httpMethod: string, path: string, op: seq<Field>, q: seq<Field>)
    requires Get(q, "summary") == Get(op, "summary") && Get(q, "description") == Get(op, "description")
    ensures Summarize(httpMethod, path, q) == Summarize(httpMethod, path, op)
  {
  }

  /** Two mappings that agree on texts and responses are read as the same operation but for
      the parameters and the body. */
  lemma ReadAlike(path: string, httpMethod: string, op: seq<Field>, q: seq<Field>, tags: seq<string>, p1: seq<Json>, p2: seq<Json>)
    requires Get(q, "operationId") == Get(op, "operationId") && Get(q, "summary") == Get(op, "summary")
    requires Get(q, "description") == Get(op, "description") && Get(q, "responses") == Get(op, "responses")
    ensures OperationFrom(path, httpMethod, q, tags, p2) ==
            OperationFrom(path, httpMethod, op, tags, p1).(parameters := p2, requestBody := BodyRead(q))
  {
    SummaryPreserved(httpMethod, path, op, q);
  }

  lemma FromIsPreserved(path: string, httpMethod: string, op: seq<Field>, q: seq<Field>, tags: seq<string>,
                        shared: seq<Json>, own: seq<Json>, consumes: Json)
    requires OperationFrom(path, httpMethod, q, tags, shared + ConvertParams(own)) ==
             OperationFrom(path, httpMethod, op, tags, shared + own).(parameters := shared + ConvertParams(own), requestBody := BodyRead(q))
    requires BodyCarried(BodyRead(op), BodyRead(q), own, consumes)
    ensures Preserved(OperationFrom(path, httpMethod, op, tags, shared + own),
                      OperationFrom(path, httpMethod, q, tags, shared + ConvertParams(own)), shared, consumes)
  {
    assert (shared + own)[..|shared|] == shared && (shared + own)[|shared|..] == own;
    var from := ConvertParamsIsFilter(own);
    assert (shared + ConvertParams(own))[|shared|..] == ConvertParams(own);
  }

  /** One converted operation is read as the original is: the path's parameters first and
      unchanged, its own ones converted, its last body parameter as the request body. */
  lemma OperationPreserved(path: string, shared: Option<Json>, httpMethod: string, op: seq<Field>, doc: seq<Field>)
    requires ConvertOperation(op, doc).Ok?
    ensures var a := EnrichOperation(path, shared, httpMethod, op);
            var b := EnrichOperation(path, shared, httpMethod, ConvertOperation(op, doc).value);
            && (a.Ok? <==> b.Ok?)
            && (a.Ok? ==>
                  && ElementsOr(shared).Ok? && a.value.path == path && a.value.httpMethod == Upper(httpMethod)
                  && Preserved(a.value, b.value, ElementsOr(shared).value, ConsumesOf(op, doc)))
  {
    var q := ConvertOperation(op, doc).value;
    OperationKeeps(op, doc, "operationId");
    OperationKeeps(op, doc, "summary");
    OperationKeeps(op, doc, "description");
    OperationKeeps(op, doc, "tags");
    OperationKeeps(op, doc, "responses");
    ParametersConverted(op, doc);
    BodyConverted(op, doc);
    if ElementsOr(shared).Ok? && ElementsOr(Get(op, "tags")).Ok? {
      var before, own := ElementsOr(shared).value, ElementsOr(Get(op, "parameters")).value;
      var tags := Strings(ElementsOr(Get(op, "tags")).value);
      ReadAlike(path, httpMethod, op, q, tags, before + own, before + ConvertParams(own));
      FromIsPreserved(path, httpMethod, op, q, tags, before, own, ConsumesOf(op, doc));
    }
  }

  // ---------- one path ----------

  ghost predicate Pointwise(item: seq<Field>, out: seq<Field>, doc: seq<Field>) {
    |out| == |item| && forall i :: 0 <= i < |item| ==> Converted(item[i], out[i], doc)
  }

  predicate Converted(f: Field, g: Field, doc: seq<Field>) {
    ConvertField(f, doc) == Ok(g)
  }

  lemma PointwiseAppend(before: seq<Field>, out: seq<Field>, doc: seq<Field>, f: Field, g: Field)
    requires Pointwise(before, out, doc) && Converted(f, g, doc)
    ensures Pointwise(before + [f], out + [g], doc)
  {
  }

  lemma {:induction false} ItemPointwise(item: seq<Field>, doc: seq<Field>)
    requires ConvertItem(item, doc).Ok?
    ensures Pointwise(item, ConvertItem(item, doc).value, doc)
  {
    if item != [] {
      var before, last := item[..|item| - 1], item[|item| - 1];
      ItemPointwise(before, doc);
      PointwiseAppend(before, ConvertItem(before, doc).value, doc, last, ConvertField(last, doc).value);
      assert item == before + [last];
    }
  }

  lemma {:induction false} GetPointwise(item: seq<Field>, out: seq<Field>, doc: seq<Field>, key: string)
    requires Pointwise(item, out, doc)
    ensures match Get(item, key)
            case None => Get(out, key) == None
            case Some(v) => ConvertField(Field(key, v), doc).Ok? && Get(out, key) == Some(ConvertField(Field(key, v), doc).value.value)
  {
    if item != [] {
      assert Converted(item[0], out[0], doc);
      GetPointwise(item[1..], out[1..], doc, key);
    }
  }

  predicate IsMethodName(m: string) {
    IsMethod(m) && Lower(Upper(m)) == m
  }

  lemma MethodNames()
    ensures forall m :: m in HTTP_METHODS ==> IsMethodName(m)
    ensures !IsMethod("parameters")
  {
    forall i | 0 <= i < |HTTP_METHODS|
      ensures IsMethodName(HTTP_METHODS[i])
    {
      var m := HTTP_METHODS[i];
      assert forall k :: 0 <= k < |m| ==> 'a' <= m[k] <= 'z';
      assert Lower(m) == m;
      LowerOfUpper(i);
    }
    assert |Lower("parameters")| == 10;
    assert forall k :: 0 <= k < |HTTP_METHODS| ==> |HTTP_METHODS[k]| < 10;
  }

  /** What the converted item holds under a key. */
  lemma ConvertedMember(item: seq<Field>, doc: seq<Field>, key: string)
    requires ConvertItem(item, doc).Ok?
    ensures var out := ConvertItem(item, doc).value;
            match Get(item, key)
            case None => Get(out, key) == None
            case Some(v) =>
              if !IsMethod(key) then Get(out, key) == Some(v)
              else v.Obj? && ConvertOperation(v.fields, doc).Ok? && Get(out, key) == Some(Obj(ConvertOperation(v.fields, doc).value))
  {
    ItemPointwise(item, doc);
    GetPointwise(item, ConvertItem(item, doc).value, doc, key);
  }

  lemma MethodPreserved(path: string, item: seq<Field>, doc: seq<Field>, httpMethod: string)
    requires ConvertItem(item, doc).Ok? && IsMethodName(httpMethod) && !IsMethod("parameters")
    ensures SameOn(path, item, doc, EnrichMethod(path, item, httpMethod),
                   EnrichMethod(path, ConvertItem(item, doc).value, httpMethod))
  {
    ConvertedMember(item, doc, httpMethod);
    ConvertedMember(item, doc, "parameters");
    var out := ConvertItem(item, doc).value;
    if DeclaresMethod(item, httpMethod) {
      var shared, op := Get(item, "parameters"), Get(item, httpMethod).value.fields;
      var q := ConvertOperation(op, doc).value;
      DeclaredPreserved(path, item, httpMethod, op, doc);
      OneOn(path, item, doc, EnrichOperation(path, shared, httpMethod, op), EnrichOperation(path, shared, httpMethod, q));
      MethodReads(path, item, httpMethod, shared, op);
      MethodReads(path, out, httpMethod, shared, q);
    } else {
      assert EnrichMethod(path, item, httpMethod) == Ok([]) == EnrichMethod(path, out, httpMethod);
    }
  }

  lemma DeclaredPreserved(path: string, item: seq<Field>, httpMethod: string, op: seq<Field>, doc: seq<Field>)
    requires ConvertOperation(op, doc).Ok? && Get(item, httpMethod) == Some(Obj(op)) && Lower(Upper(httpMethod)) == httpMethod
    ensures SameOneOn(path, item, doc, EnrichOperation(path, Get(item, "parameters"), httpMethod, op),
                      EnrichOperation(path, Get(item, "parameters"), httpMethod, ConvertOperation(op, doc).value))
  {
    var shared := Get(item, "parameters");
    OperationPreserved(path, shared, httpMethod, op, doc);
    var a := EnrichOperation(path, shared, httpMethod, op);
    if a.Ok? {
      ItsItemSaysSo(path, item, doc, op, a.value, EnrichOperation(path, shared, httpMethod, ConvertOperation(op, doc).value).value);
    }
  }

  lemma ItsItemSaysSo(path: string, item: seq<Field>, doc: seq<Field>, op: seq<Field>, a: Operation, b: Operation)
    requires a.path == path && Get(item, Lower(a.httpMethod)) == Some(Obj(op)) && ElementsOr(Get(item, "parameters")).Ok?
    requires Preserved(a, b, ElementsOr(Get(item, "parameters")).value, ConsumesOf(op, doc))
    ensures PreservedOn(path, item, doc, a, b)
  {
  }

  ghost predicate SameOneOn(path: string, item: seq<Field>, doc: seq<Field>, a: Result<Operation, PyError>, b: Result<Operation, PyError>) {
    && (a.Ok? <==> b.Ok?)
    && (a.Ok? ==> PreservedOn(path, item, doc, a.value, b.value))
  }

  lemma OneOn(path: string, item: seq<Field>, doc: seq<Field>, a: Result<Operation, PyError>, b: Result<Operation, PyError>)
    requires SameOneOn(path, item, doc, a, b)
    ensures SameOn(path, item, doc, if a.Err? then Err(a.error) else Ok([a.value]), if b.Err? then Err(b.error) else Ok([b.value]))
  {
  }

  lemma MethodReads(path: string, item: seq<Field>, httpMethod: string, shared: Option<Json>, op: seq<Field>)
    requires Get(item, "parameters") == shared && Get(item, httpMethod) == Some(Obj(op))
    ensures var read := EnrichOperation(path, shared, httpMethod, op);
            EnrichMethod(path, item, httpMethod) == if read.Err? then Err(read.error) else Ok([read.value])
  {
  }

  lemma {:induction false} ItemPreserved(path: string, item: seq<Field>, doc: seq<Field>, methods: seq<string>)
    requires ConvertItem(item, doc).Ok? && !IsMethod("parameters")
    requires forall m :: m in methods ==> IsMethodName(m)
    ensures SameOn(path, item, doc, EnrichItem(path, item, methods), EnrichItem(path, ConvertItem(item, doc).value, methods))
  {
    if methods != [] {
      var out, before, last := ConvertItem(item, doc).value, methods[..|methods| - 1], methods[|methods| - 1];
      ItemPreserved(path, item, doc, before);
      MethodPreserved(path, item, doc, last);
      var a, b := EnrichItem(path, item, before), EnrichItem(path, out, before);
      var c, d := EnrichMethod(path, item, last), EnrichMethod(path, out, last);
      if a.Ok? && c.Ok? {
        PairsAppend((x, y) => PreservedOn(path, item, doc, x, y), a.value, b.value, c.value, d.value);
      }
    }
  }

  // ---------- the document ----------

  lemma OnIsIn(doc: seq<Field>, path: string, a: seq<Operation>, b: seq<Operation>)
    requires AllPreservedOn(path, ItemAt(doc, path), doc, a, b)
    ensures AllPreserved(doc, a, b)
  {
    forall i | 0 <= i < |a|
      ensures PreservedIn(doc, a[i], b[i])
    {
      assert PreservedOn(path, ItemAt(doc, path), doc, a[i], b[i]);
    }
  }

  /** The first `n` paths of a document. */
  lemma {:induction false} PathsPreserved(doc: seq<Field>, n: nat)
    requires DistinctKeys(PathsOf(doc)) && n <= |PathsOf(doc)| && ConvertPaths(PathsOf(doc)[..n], doc).Ok?
    ensures SameUpToConversion(doc, EnrichPaths(PathsOf(doc)[..n]), EnrichPaths(ConvertPaths(PathsOf(doc)[..n], doc).value))
  {
    if n > 0 {
      var before, last := PathsOf(doc)[..n - 1], PathsOf(doc)[n - 1];
      assert PathsOf(doc)[..n] == before + [last];
      OnePathMoreConverted(before, last, doc);
      PathsPreserved(doc, n - 1);
      if last.value.Obj? {
        LastPathPreserved(doc, before, n - 1);
      } else {
        SkippedPath(before, last);
      }
    }
  }

  lemma LastPathPreserved(doc: seq<Field>, before: seq<Field>, k: nat)
    requires DistinctKeys(PathsOf(doc)) && k < |PathsOf(doc)| && ConvertPaths(before, doc).Ok?
    requires PathsOf(doc)[k].value.Obj? && ConvertItem(PathsOf(doc)[k].value.fields, doc).Ok?
    requires SameUpToConversion(doc, EnrichPaths(before), EnrichPaths(ConvertPaths(before, doc).value))
    ensures var last := PathsOf(doc)[k];
            SameUpToConversion(doc, EnrichPaths(before + [last]),
                               EnrichPaths(ConvertPaths(before, doc).value
                                           + [Field(last.key, Obj(ConvertItem(last.value.fields, doc).value))]))
  {
    var last := PathsOf(doc)[k];
    var item, out := last.value.fields, ConvertPaths(before, doc).value;
    var newItem := ConvertItem(item, doc).value;
    GetIs(PathsOf(doc), k);
    MethodNames();
    ItemPreserved(last.key, item, doc, HTTP_METHODS);
    OnePathMore(before, last.key, item);
    OnePathMore(out, last.key, newItem);
    var a, b := EnrichPaths(before), EnrichPaths(out);
    var c, d := EnrichItem(last.key, item, HTTP_METHODS), EnrichItem(last.key, newItem, HTTP_METHODS);
    if a.Ok? && c.Ok? {
      OnIsIn(doc, last.key, c.value, d.value);
      PairsAppend((x, y) => PreservedIn(doc, x, y), a.value, b.value, c.value, d.value);
    }
  }

  lemma OnePathMoreConverted(before: seq<Field>, last: Field, doc: seq<Field>)
    requires ConvertPaths(before + [last], doc).Ok?
    ensures ConvertPaths(before, doc).Ok? && (last.value.Obj? ==> ConvertItem(last.value.fields, doc).Ok?)
    ensures ConvertPaths(before + [last], doc).value ==
            ConvertPaths(before, doc).value
            + if last.value.Obj? then [Field(last.key, Obj(ConvertItem(last.value.fields, doc).value))] else []
  {
    assert (before + [last])[..|before|] == before;
  }

  lemma SkippedPath(before: seq<Field>, last: Field)
    requires !last.value.Obj?
    ensures EnrichPaths(before + [last]) == EnrichPaths(before)
  {
    assert (before + [last])[..|before|] == before;
  }

  lemma OnePathMore(paths: seq<Field>, path: string, item: seq<Field>)
    ensures var a, c := EnrichPaths(paths), EnrichItem(path, item, HTTP_METHODS);
            EnrichPaths(paths + [Field(path, Obj(item))]) ==
            if a.Err? then a else if c.Err? then c else Ok(a.value + c.value)
  {
    var all := paths + [Field(path, Obj(item))];
    assert all[..|all| - 1] == paths;
  }

  lemma ConvertedDocument(doc: seq<Field>)
    requires Upconvert(doc).Ok?
    ensures ConvertPaths(PathsOf(doc), doc).Ok?
    ensures PathsOf(Upconvert(doc).value) == ConvertPaths(PathsOf(doc), doc).value
    ensures DetectFormat(Upconvert(doc).value) == OpenApi3
    ensures Get(Upconvert(doc).value, "openapi") == Some(Str("3.0.3"))
    ensures Get(Upconvert(doc).value, "info") == 
              Some(GetOr(doc, "info", Obj([Field("title", Str("Untitled")), Field("version", Str("0"))])))
  {
    var out, converted := Upconvert(doc).value, ConvertPaths(PathsOf(doc), doc).value;
    assert out[1..][1..][0] == Field("paths", Obj(converted));
    assert Get(out[1..][1..], "paths") == Some(Obj(converted));
    assert Get(out[1..], "paths") == Some(Obj(converted));
    assert Get(out, "paths") == Some(Obj(converted));
    assert Get(out, "openapi") == Some(Str("3.0.3"));
  }

  /** Reading the converted document gives the operations of the original one, in order and
      one for one: same endpoint, id, texts, tags and responses, the parameters of the path as
      they are, the operation's own converted, and its last body parameter turned into the
      request body. The converted document passes as OpenAPI 3. */
  lemma ConversionPreservesOperations(doc: seq<Field>)
    requires Upconvert(doc).Ok? && DistinctKeys(PathsOf(doc))
    ensures SameUpToConversion(doc, EnrichSpec(doc), EnrichSpec(Upconvert(doc).value))
    ensures DetectFormat(Upconvert(doc).value) == OpenApi3
  {
    var paths := PathsOf(doc);
    assert paths[..|paths|] == paths;
    ConvertedDocument(doc);
    PathsPreserved(doc, |paths|);
  }
}
