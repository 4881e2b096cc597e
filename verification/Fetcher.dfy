/** The up-conversion of a Swagger 2 document to OpenAPI 3, as far as the operations are read
    from it. */
module Fetcher {
  import opened Wrappers
  import opened Json
  import opened Texts
  import opened Enricher
  import opened EnricherTheorems

  datatype Format = OpenApi3 | Swagger2 | Unknown

  function DetectFormat(doc: seq<Field>): Format {
    var openapi := Get(doc, "openapi");
    if openapi.Some? && openapi.value.Str? && "3." <= openapi.value.s then OpenApi3
    else if Get(doc, "swagger") == Some(Str("2.0")) then Swagger2
    else Unknown
  }

  /** A text that starts with "3." under `openapi` makes a document OpenAPI 3, failing that the
      text "2.0" under `swagger` makes it Swagger 2. */
  lemma DetectFormatMeaning(doc: seq<Field>)
    ensures DetectFormat(doc) == OpenApi3 <==>
              exists s :: Get(doc, "openapi") == Some(Str(s)) && |s| >= 2 && s[0] == '3' && s[1] == '.'
    ensures DetectFormat(doc) == Swagger2 <==> DetectFormat(doc) != OpenApi3 && Get(doc, "swagger") == Some(Str("2.0"))
  {
    var openapi := Get(doc, "openapi");
    if openapi.Some? && openapi.value.Str? {
      var s := openapi.value.s;
      assert "3." <= s <==> |s| >= 2 && s[0] == '3' && s[1] == '.';
    }
  }

  // ---------- parameters ----------

  predicate IsBody(p: Json) {
    p.Obj? && Get(p.fields, "in") == Some(Str("body"))
  }

  /** The fields of `p` that belong in a schema. */
  function SchemaFields(p: seq<Field>): seq<Field> {
    if p == [] then []
    else
      (if p[0].key == "type" || p[0].key == "format" || p[0].key == "enum" then [p[0]] else []) + SchemaFields(p[1..])
  }

  function ConvertParam(p: seq<Field>): seq<Field> {
    var kept := Omit(p, {"type", "format"});
    if Get(kept, "schema").None? && Get(p, "type").Some? then Put(kept, "schema", Obj(SchemaFields(p))) else kept
  }

  /** The mapping holds what `p` has for type, format and enum, and nothing else. */
  ghost predicate SchemaOf(schema: Json, p: seq<Field>) {
    && schema.Obj?
    && forall k :: Get(schema.fields, k) == if k in {"type", "format", "enum"} then Get(p, k) else None
  }

  /** `q` is the parameter `p` in OpenAPI 3: type and format are gone, the schema is the declared
      one, or else made of them if there is a type, and everything else is kept. */
  ghost predicate ParamConverted(p: seq<Field>, q: seq<Field>) {
    && Get(q, "type").None? && Get(q, "format").None?
    && (forall k :: k !in {"type", "format", "schema"} ==> Get(q, k) == Get(p, k))
    && if Get(p, "schema").Some? || Get(p, "type").None? then Get(q, "schema") == Get(p, "schema")
       else Get(q, "schema").Some? && SchemaOf(Get(q, "schema").value, p)
  }

  lemma {:induction false} SchemaFieldsMeaning(p: seq<Field>, k: string)
    ensures Get(SchemaFields(p), k) == if k in {"type", "format", "enum"} then Get(p, k) else None
  {
    if p != [] {
      SchemaFieldsMeaning(p[1..], k);
      var rest := SchemaFields(p[1..]);
      assert ([p[0]] + rest)[1..] == rest && [] + rest == rest;
    }
  }

  lemma SchemaMeaning(p: seq<Field>)
    ensures SchemaOf(Obj(SchemaFields(p)), p)
  {
    forall k
      ensures Get(SchemaFields(p), k) == if k in {"type", "format", "enum"} then Get(p, k) else None
    {
      SchemaFieldsMeaning(p, k);
    }
  }

  lemma ConvertParamHolds(p: seq<Field>, k: string)
    ensures Get(ConvertParam(p), k) ==
            if k == "type" || k == "format" then None
            else if k == "schema" && Get(p, "schema").None? && Get(p, "type").Some? then Some(Obj(SchemaFields(p)))
            else Get(p, k)
  {
  }

  /** Conversion of one parameter. */
  lemma ConvertParamMeaning(p: seq<Field>)
    ensures ParamConverted(p, ConvertParam(p))
  {
    SchemaMeaning(p);
    var q := ConvertParam(p);
    ConvertParamHolds(p, "type");
    ConvertParamHolds(p, "format");
    ConvertParamHolds(p, "schema");
    forall k | k !in {"type", "format", "schema"}
      ensures Get(q, k) == Get(p, k)
    {
      ConvertParamHolds(p, k);
    }
  }

  /** The converted parameters: what is no mapping is dropped, body parameters go elsewhere. */
  function ConvertParams(items: seq<Json>): seq<Json> {
    if items == [] then []
    else
      var last := items[|items| - 1];
      ConvertParams(items[..|items| - 1]) + if last.Obj? && !IsBody(last) then [Obj(ConvertParam(last.fields))] else []
  }

  /** The last body parameter. */
  function LastBody(items: seq<Json>): (r: Option<seq<Field>>)
    ensures r.None? <==> forall p :: p in items ==> !IsBody(p)
    ensures r.Some? ==> Obj(r.value) in items && IsBody(Obj(r.value))
  {
    if items == [] then None
    else
      var before, last := items[..|items| - 1], items[|items| - 1];
      assert forall p :: p in items <==> p in before || p == last;
      if IsBody(last) then Some(last.fields) else LastBody(before)
  }

  /** Of several body parameters the last one counts. */
  lemma {:induction false} LastBodyIsLast(items: seq<Json>) returns (k: nat)
    requires LastBody(items).Some?
    ensures k < |items| && items[k] == Obj(LastBody(items).value) && Get(LastBody(items).value, "in") == Some(Str("body"))
    ensures forall j :: k < j < |items| && items[j].Obj? ==> Get(items[j].fields, "in") != Some(Str("body"))
  {
    k := |items| - 1;
    if !IsBody(items[k]) {
      k := LastBodyIsLast(items[..k]);
    }
  }

  lemma OneMoreParam(items: seq<Json>, i: nat)
    requires i < |items|
    ensures ConvertParams(items[..i + 1]) ==
            ConvertParams(items[..i]) + if items[i].Obj? && !IsBody(items[i]) then [Obj(ConvertParam(items[i].fields))] else []
    ensures LastBody(items[..i + 1]) == if IsBody(items[i]) then Some(items[i].fields) else LastBody(items[..i])
  {
    assert items[..i + 1][..i] == items[..i];
  }

  method SplitParams(items: seq<Json>) returns (params: seq<Json>, body: Option<seq<Field>>)
    ensures params == ConvertParams(items) && body == LastBody(items)
  {
    params, body := [], None;
    for i := 0 to |items|
      invariant params == ConvertParams(items[..i]) && body == LastBody(items[..i])
    {
      OneMoreParam(items, i);
      if items[i].Obj? {
        if Get(items[i].fields, "in") == Some(Str("body")) {
          body := Some(items[i].fields);
        } else {
          params := params + [Obj(ConvertParam(items[i].fields))];
        }
      }
    }
    assert items[..|items|] == items;
  }

  // ---------- operations ----------

  /** Each content type once, all with the same schema. */
  function Content(types: seq<Json>, schema: Json): Result<seq<Field>, PyError> {
    if types == [] then Ok([])
    else
      var before :- Content(types[..|types| - 1], schema);
      var last := types[|types| - 1];
      if !last.Str? then Err(TypeError) else Ok(Put(before, last.s, Obj([Field("schema", schema)])))
  }

  /** What an operation consumes: its own list, else the document's, else JSON. */
  function ConsumesOf(op: seq<Field>, doc: seq<Field>): Json {
    Or(GetOr(op, "consumes", Null), Or(GetOr(doc, "consumes", Null), Arr([Str("application/json")])))
  }

  function RequestBody(op: seq<Field>, doc: seq<Field>, body: seq<Field>): Result<Json, PyError> {
    var types :- Elements(ConsumesOf(op, doc));
    var content :- Content(types, GetOr(body, "schema", Obj([])));
    Ok(Obj([Field("required", GetOr(body, "required", Bool(false))), Field("content", Obj(content))]))
  }

  /** The operation with its parameters replaced, if any are left. */
  function WithParams(op: seq<Field>, params: seq<Json>): seq<Field> {
    var kept := Omit(op, {"parameters", "consumes", "produces"});
    if params == [] then kept else Put(kept, "parameters", Arr(params))
  }

  function ConvertOperation(op: seq<Field>, doc: seq<Field>): Result<seq<Field>, PyError> {
    var items :- Elements(GetOr(op, "parameters", Arr([])));
    var withParams := WithParams(op, ConvertParams(items));
    match LastBody(items)
    case None => Ok(withParams)
    case Some(body) =>
      var requestBody :- RequestBody(op, doc, body);
      Ok(Put(withParams, "requestBody", requestBody))
  }

  method ConvertOneOperation(op: seq<Field>, doc: seq<Field>) returns (r: Result<seq<Field>, PyError>)
    ensures r == ConvertOperation(op, doc)
  {
    var items := Elements(GetOr(op, "parameters", Arr([])));
    if items.Err? {
      return Err(items.error);
    }
    var newOp := Omit(op, {"parameters", "consumes", "produces"});
    var params, body := SplitParams(items.value);
    if params != [] {
      newOp := Put(newOp, "parameters", Arr(params));
    }
    if body.Some? {
      var requestBody := RequestBody(op, doc, body.value);
      if requestBody.Err? {
        return Err(requestBody.error);
      }
      newOp := Put(newOp, "requestBody", requestBody.value);
    }
    return Ok(newOp);
  }

  // ---------- paths ----------

  predicate IsMethod(key: string) {
    Lower(key) in HTTP_METHODS
  }

  function ConvertField(f: Field, doc: seq<Field>): Result<Field, PyError> {
    if !IsMethod(f.key) then Ok(f)
    else if !f.value.Obj? then Err(AttributeError)
    else
      var op :- ConvertOperation(f.value.fields, doc);
      Ok(Field(f.key, Obj(op)))
  }

  function ConvertItem(item: seq<Field>, doc: seq<Field>): Result<seq<Field>, PyError> {
    if item == [] then Ok([])
    else
      var before :- ConvertItem(item[..|item| - 1], doc);
      var last :- ConvertField(item[|item| - 1], doc);
      Ok(before + [last])
  }

  /** Paths whose item is no mapping are dropped. */
  function ConvertPaths(paths: seq<Field>, doc: seq<Field>): Result<seq<Field>, PyError> {
    if paths == [] then Ok([])
    else
      var before :- ConvertPaths(paths[..|paths| - 1], doc);
      var last := paths[|paths| - 1];
      if !last.value.Obj? then Ok(before)
      else
        var item :- ConvertItem(last.value.fields, doc);
        Ok(before + [Field(last.key, Obj(item))])
  }

  const UNTITLED: Json := Obj([Field("title", Str("Untitled")), Field("version", Str("0"))])

  function Upconvert(doc: seq<Field>): Result<seq<Field>, PyError> {
    var paths := Or(GetOr(doc, "paths", Null), Obj([]));
    if !paths.Obj? then Err(AttributeError)
    else
      var converted :- ConvertPaths(paths.fields, doc);
      Ok([Field("openapi", Str("3.0.3")), Field("info", GetOr(doc, "info", UNTITLED)), Field("paths", Obj(converted))])
  }

  method UpconvertSwagger2(doc: seq<Field>) returns (r: Result<seq<Field>, PyError>)
    ensures r == Upconvert(doc)
  {
    var out := [Field("openapi", Str("3.0.3")), Field("info", GetOr(doc, "info", UNTITLED))];
    var declared := Or(GetOr(doc, "paths", Null), Obj([]));
    if !declared.Obj? {
      return Err(AttributeError);
    }
    var paths := declared.fields;
    var outPaths: seq<Field> := [];
    for i := 0 to |paths|
      invariant ConvertPaths(paths[..i], doc) == Ok(outPaths)
    {
      assert paths[..i + 1][..i] == paths[..i];
      if paths[i].value.Obj? {
        var newItem := ConvertOneItem(paths[i].value.fields, doc);
        if newItem.Err? {
          PathsFail(paths, doc, i + 1);
          return Err(newItem.error);
        }
        outPaths := outPaths + [Field(paths[i].key, Obj(newItem.value))];
      }
    }
    assert paths[..|paths|] == paths;
    out := out + [Field("paths", Obj(outPaths))];
    assert out == [out[0], out[1], out[2]];
    return Ok(out);
  }

  method ConvertOneItem(item: seq<Field>, doc: seq<Field>) returns (r: Result<seq<Field>, PyError>)
    ensures r == ConvertItem(item, doc)
  {
    var newItem: seq<Field> := [];
    for i := 0 to |item|
      invariant ConvertItem(item[..i], doc) == Ok(newItem)
    {
      var f := ConvertOneField(item[i], doc);
      ItemStep(item, doc, i, newItem, f);
      if f.Err? {
        ItemFails(item, doc, i + 1);
        return Err(f.error);
      }
      newItem := newItem + [f.value];
    }
    assert item[..|item|] == item;
    return Ok(newItem);
  }

  method ConvertOneField(f: Field, doc: seq<Field>) returns (r: Result<Field, PyError>)
    ensures r == ConvertField(f, doc)
  {
    if !IsMethod(f.key) {
      return Ok(f);
    }
    if !f.value.Obj? {
      return Err(AttributeError);
    }
    var newOp := ConvertOneOperation(f.value.fields, doc);
    if newOp.Err? {
      return Err(newOp.error);
    }
    return Ok(Field(f.key, Obj(newOp.value)));
  }

  lemma OneMoreField(before: seq<Field>, f: Field, doc: seq<Field>)
    ensures ConvertItem(before + [f], doc) ==
            match ConvertItem(before, doc)
            case Err(e) => Err(e)
            case Ok(out) =>
              match ConvertField(f, doc)
              case Err(e) => Err(e)
              case Ok(g) => Ok(out + [g])
  {
    assert (before + [f])[..|before|] == before;
  }

  lemma ItemStep(item: seq<Field>, doc: seq<Field>, i: nat, before: seq<Field>, f: Result<Field, PyError>)
    requires i < |item| && ConvertItem(item[..i], doc) == Ok(before) && ConvertField(item[i], doc) == f
    ensures ConvertItem(item[..i + 1], doc) == match f case Err(e) => Err(e) case Ok(g) => Ok(before + [g])
  {
    OneMoreField(item[..i], item[i], doc);
    assert item[..i + 1] == item[..i] + [item[i]];
  }

  lemma {:induction false} ItemFails(item: seq<Field>, doc: seq<Field>, n: nat)
    requires n <= |item| && ConvertItem(item[..n], doc).Err?
    ensures ConvertItem(item, doc) == ConvertItem(item[..n], doc)
    decreases |item|
  {
    if n < |item| {
      assert item[..|item| - 1][..n] == item[..n];
      ItemFails(item[..|item| - 1], doc, n);
    } else {
      assert item[..n] == item;
    }
  }

  lemma {:induction false} PathsFail(paths: seq<Field>, doc: seq<Field>, n: nat)
    requires n <= |paths| && ConvertPaths(paths[..n], doc).Err?
    ensures ConvertPaths(paths, doc) == ConvertPaths(paths[..n], doc)
    decreases |paths|
  {
    if n < |paths| {
      assert paths[..|paths| - 1][..n] == paths[..n];
      PathsFail(paths[..|paths| - 1], doc, n);
    } else {
      assert paths[..n] == paths;
    }
  }

  // ---------- when a document can be converted ----------

  /** What is consumed is the operation's own list, failing that the document's, failing that JSON. */
  lemma ConsumesMeaning(op: seq<Field>, doc: seq<Field>)
    ensures Given(op, "consumes") ==> Get(op, "consumes") == Some(ConsumesOf(op, doc))
    ensures !Given(op, "consumes") && Given(doc, "consumes") ==> Get(doc, "consumes") == Some(ConsumesOf(op, doc))
    ensures !Given(op, "consumes") && !Given(doc, "consumes") ==> ConsumesOf(op, doc) == Arr([Str("application/json")])
  {
  }

  predicate Given(fields: seq<Field>, key: string) {
    Get(fields, key).Some? && Truthy(Get(fields, key).value)
  }

  /** A list of texts, or something that iterates over texts. */
  predicate ListsTexts(types: Json) {
    match types
    case Arr(items) => forall x :: x in items ==> x.Str?
    case Str(_) => true
    case Obj(_) => true
    case _ => false
  }

  predicate HasBody(items: seq<Json>) {
    exists p :: p in items && p.Obj? && Get(p.fields, "in") == Some(Str("body"))
  }

  /** A mapping whose parameters, if any, can be iterated over; if a body is among them, what is
      consumed lists texts. */
  predicate Convertible(op: Json, doc: seq<Field>) {
    && op.Obj?
    && match Get(op.fields, "parameters")
       case None => true
       case Some(Arr(items)) => HasBody(items) ==> ListsTexts(ConsumesOf(op.fields, doc))
       case Some(Str(_)) => true
       case Some(Obj(_)) => true
       case _ => false
  }

  lemma {:induction false} ContentSucceeds(types: seq<Json>, schema: Json)
    ensures Content(types, schema).Ok? <==> forall x :: x in types ==> x.Str?
  {
    if types != [] {
      var before, last := types[..|types| - 1], types[|types| - 1];
      ContentSucceeds(before, schema);
      assert forall x :: x in types <==> x in before || x == last;
    }
  }

  lemma RequestBodySucceeds(op: seq<Field>, doc: seq<Field>, body: seq<Field>)
    ensures RequestBody(op, doc, body).Ok? <==> ListsTexts(ConsumesOf(op, doc))
  {
    var types := Elements(ConsumesOf(op, doc));
    if types.Ok? {
      ContentSucceeds(types.value, GetOr(body, "schema", Obj([])));
    }
  }

  lemma OperationConverts(op: seq<Field>, doc: seq<Field>)
    ensures ConvertOperation(op, doc).Ok? <==> Convertible(Obj(op), doc)
  {
    var items := Elements(GetOr(op, "parameters", Arr([])));
    if items.Ok? {
      if LastBody(items.value).Some? {
        RequestBodySucceeds(op, doc, LastBody(items.value).value);
        assert Obj(LastBody(items.value).value) in items.value;
      } else {
        assert !HasBody(items.value);
      }
    }
  }

  ghost predicate ItemConvertible(path: Field, methods: seq<string>, doc: seq<Field>) {
    path.value.Obj? ==> forall f :: f in path.value.fields && Lower(f.key) in methods ==> Convertible(f.value, doc)
  }

  lemma {:induction false} ItemConverts(key: string, item: seq<Field>, doc: seq<Field>)
    ensures ConvertItem(item, doc).Ok? <==> ItemConvertible(Field(key, Obj(item)), HTTP_METHODS, doc)
  {
    if item != [] {
      var before, last := item[..|item| - 1], item[|item| - 1];
      ItemConverts(key, before, doc);
      assert forall f :: f in item <==> f in before || f == last;
      if last.value.Obj? {
        OperationConverts(last.value.fields, doc);
      }
    }
  }

  lemma {:induction false} PathsConvert(paths: seq<Field>, doc: seq<Field>)
    ensures ConvertPaths(paths, doc).Ok? <==> forall p :: p in paths ==> ItemConvertible(p, HTTP_METHODS, doc)
  {
    if paths != [] {
      var before, last := paths[..|paths| - 1], paths[|paths| - 1];
      PathsConvert(before, doc);
      assert forall p :: p in paths <==> p in before || p == last;
      if last.value.Obj? {
        ItemConverts(last.key, last.value.fields, doc);
      }
    }
  }

  /** A document converts exactly when its paths, if any are given, are a mapping, and whatever
      stands under a method's name, in any letter case, can be converted. */
  lemma UpconvertSucceedsExactly(doc: seq<Field>)
    ensures Upconvert(doc).Ok? <==>
              && (Given(doc, "paths") ==> Get(doc, "paths").value.Obj?)
              && forall p :: p in PathsOf(doc) ==>
                   ItemConvertible(p, ["get", "post", "put", "patch", "delete", "options", "head"], doc)
  {
    PathsConvert(PathsOf(doc), doc);
  }
}
