/** What is read from a document: which operations, in which order, and what each of them says. */
module EnricherTheorems {
  import opened Wrappers
  import opened Json
  import opened Texts
  import opened Enricher

  // ---------- what an operation is read from ----------

  /** What iterating over `value or []` yields. */
  ghost predicate Yields(v: Option<Json>, items: seq<Json>) {
    match v
    case Some(Arr(all)) => items == all
    case Some(Str(s)) => |items| == |s| && forall i :: 0 <= i < |s| ==> items[i] == Str([s[i]])
    case Some(Obj(fields)) => |items| == |fields| && forall i :: 0 <= i < |fields| ==> items[i] == Str(fields[i].key)
    case _ => items == []
  }

  /** Whether `value or []` can be iterated over: a number other than 0 and `true` cannot. */
  predicate Iterable(v: Option<Json>) {
    match v
    case Some(Num(n)) => n == 0
    case Some(Bool(b)) => !b
    case _ => true
  }

  lemma ElementsMeaning(v: Option<Json>)
    ensures ElementsOr(v).Ok? <==> Iterable(v)
    ensures ElementsOr(v).Ok? ==> Yields(v, ElementsOr(v).value)
  {
  }

  ghost predicate HasText(fields: seq<Field>, key: string, s: string) {
    Get(fields, key) == Some(Str(s))
  }

  predicate Blank(s: string) {
    forall i :: 0 <= i < |s| ==> s[i] as int in {9, 10, 11, 12, 13, 28, 29, 30, 31, 32}
  }

  ghost predicate NoProperText(fields: seq<Field>, key: string) {
    forall s :: HasText(fields, key, s) ==> Blank(s)
  }

  ghost predicate IsFirstLine(line: string, s: string) {
    line <= s && '\n' !in line && (line == s || s[|line|] == '\n')
  }

  ghost predicate Stripped(s: string, stripped: string) {
    Strips(s, stripped, {9, 10, 11, 12, 13, 28, 29, 30, 31, 32})
  }

  /** The summary is the one given, stripped; where that is blank or no text, the first line of the
      description, stripped; where that is too, the method in capitals and the path. */
  ghost predicate Summarizes(summary: string, httpMethod: string, path: string, op: seq<Field>) {
    if !NoProperText(op, "summary") then forall s :: HasText(op, "summary", s) ==> Stripped(s, summary)
    else if !NoProperText(op, "description") then
      forall s :: HasText(op, "description", s) ==> exists line :: IsFirstLine(line, s) && Stripped(line, summary)
    else summary == Upper(httpMethod) + " " + path
  }

  lemma TrimsToNothing(s: string)
    ensures Trim(s) == [] <==> Blank(s)
  {
    TrimMeaning(s);
    var space := {9, 10, 11, 12, 13, 28, 29, 30, 31, 32};
    var before, after :| Surrounds(before, after, s, Trim(s), space);
    if Trim(s) == [] {
      assert s == before + after;
    } else {
      assert s[|before|] == Trim(s)[0];
    }
  }

  lemma TextOfMeaning(op: seq<Field>, key: string)
    ensures forall s :: HasText(op, key, s) ==> TextOf(Get(op, key)) == s
    ensures (forall s :: !HasText(op, key, s)) ==> TextOf(Get(op, key)) == []
    ensures NoProperText(op, key) <==> Trim(TextOf(Get(op, key))) == []
  {
    var text := TextOf(Get(op, key));
    TrimsToNothing(text);
    if Get(op, key).Some? && Get(op, key).value.Str? {
      assert HasText(op, key, text);
    }
  }

  lemma SummaryMeaning(httpMethod: string, path: string, op: seq<Field>)
    ensures Summarizes(Summarize(httpMethod, path, op), httpMethod, path, op)
  {
    TextOfMeaning(op, "summary");
    TextOfMeaning(op, "description");
    var summary, desc := TextOf(Get(op, "summary")), TextOf(Get(op, "description"));
    TrimMeaning(summary);
    FirstLineMeaning(desc);
    TrimMeaning(FirstLine(desc));
    assert IsFirstLine(FirstLine(desc), desc);
  }

  /** The texts of the tags that the mapping declares, in order. */
  ghost predicate TagsRead(tags: seq<string>, op: seq<Field>) {
    exists items, from :: Yields(Get(op, "tags"), items) && TextsAt(tags, items, from)
  }

  ghost predicate TextsAt(texts: seq<string>, items: seq<Json>, from: seq<nat>) {
    && Places(from, items, (j: Json) => j.Str?) && |texts| == |from|
    && forall i :: 0 <= i < |from| ==> items[from[i]] == Str(texts[i])
  }

  ghost predicate ParametersRead(parameters: seq<Json>, shared: Option<Json>, op: seq<Field>) {
    exists a, b :: Yields(shared, a) && Yields(Get(op, "parameters"), b) && parameters == a + b
  }

  ghost predicate IdRead(id: string, httpMethod: string, path: string, op: seq<Field>) {
    && (forall s :: HasText(op, "operationId", s) && s != [] ==> id == s)
    && ((forall s :: HasText(op, "operationId", s) ==> s == []) ==> id == GenerateOperationId(httpMethod, path))
  }

  ghost predicate DescriptionRead(description: string, op: seq<Field>) {
    && (forall s :: HasText(op, "description", s) ==> description == s)
    && ((forall s :: !HasText(op, "description", s)) ==> description == [])
  }

  ghost predicate ResponsesRead(responses: Json, op: seq<Field>) {
    match Get(op, "responses")
    case Some(v) => responses == if Truthy(v) then v else Obj([])
    case None => responses == Obj([])
  }

  ghost predicate BodyIsRead(requestBody: Option<seq<Field>>, op: seq<Field>) {
    forall body :: requestBody == Some(body) <==> Get(op, "requestBody") == Some(Obj(body))
  }

  /** `o` is what a path's mapping `op` under a method says, `shared` being the parameters that the
      path declares for all its operations. */
  ghost predicate ReadFrom(o: Operation, path: string, shared: Option<Json>, httpMethod: string, op: seq<Field>) {
    && o.path == path && o.httpMethod == Upper(httpMethod)
    && IdRead(o.operationId, httpMethod, path, op)
    && Summarizes(o.summary, httpMethod, path, op)
    && DescriptionRead(o.description, op)
    && TagsRead(o.tags, op)
    && ParametersRead(o.parameters, shared, op)
    && BodyIsRead(o.requestBody, op)
    && ResponsesRead(o.responses, op)
    && o.semanticTags == SemanticTags(httpMethod, path, o.summary, o.tags)
  }

  lemma StringsAreTexts(items: seq<Json>) returns (from: seq<nat>)
    ensures TextsAt(Strings(items), items, from)
  {
    from := KeptPlaces(items, IsText);
    assert forall i :: 0 <= i < |from| ==> items[from[i]].Str?;
  }

  lemma IdIsRead(httpMethod: string, path: string, op: seq<Field>)
    ensures var declared := TextOf(Get(op, "operationId"));
            IdRead(if declared != [] then declared else GenerateOperationId(httpMethod, path), httpMethod, path, op)
  {
    TextOfMeaning(op, "operationId");
  }

  /** An operation is read from its mapping exactly when that mapping's tags and both lists of
      parameters can be iterated over, and then as said. */
  lemma OperationMeaning(path: string, shared: Option<Json>, httpMethod: string, op: seq<Field>)
    ensures EnrichOperation(path, shared, httpMethod, op).Ok? <==>
              Iterable(Get(op, "tags")) && Iterable(shared) && Iterable(Get(op, "parameters"))
    ensures EnrichOperation(path, shared, httpMethod, op).Ok? ==>
              ReadFrom(EnrichOperation(path, shared, httpMethod, op).value, path, shared, httpMethod, op)
  {
    ElementsMeaning(Get(op, "tags"));
    ElementsMeaning(shared);
    ElementsMeaning(Get(op, "parameters"));
    if EnrichOperation(path, shared, httpMethod, op).Ok? {
      var items := ElementsOr(Get(op, "tags")).value;
      var from := StringsAreTexts(items);
      IdIsRead(httpMethod, path, op);
      SummaryMeaning(httpMethod, path, op);
      TextOfMeaning(op, "description");
      BodyMeaning(op);
      FromIsRead(path, shared, httpMethod, op, items, from, ElementsOr(shared).value, ElementsOr(Get(op, "parameters")).value);
    }
  }

  lemma BodyMeaning(op: seq<Field>)
    ensures BodyIsRead(BodyRead(op), op)
    ensures ResponsesRead(Or(GetOr(op, "responses", Null), Obj([])), op)
  {
  }

  lemma FromIsRead(path: string, shared: Option<Json>, httpMethod: string, op: seq<Field>, tags: seq<Json>, from: seq<nat>,
                   a: seq<Json>, b: seq<Json>)
    requires Yields(Get(op, "tags"), tags) && TextsAt(Strings(tags), tags, from)
    requires Yields(shared, a) && Yields(Get(op, "parameters"), b)
    requires var declared := TextOf(Get(op, "operationId"));
             IdRead(if declared != [] then declared else GenerateOperationId(httpMethod, path), httpMethod, path, op)
    requires Summarizes(Summarize(httpMethod, path, op), httpMethod, path, op)
    requires DescriptionRead(TextOf(Get(op, "description")), op) && BodyIsRead(BodyRead(op), op)
    requires ResponsesRead(Or(GetOr(op, "responses", Null), Obj([])), op)
    ensures ReadFrom(OperationFrom(path, httpMethod, op, Strings(tags), a + b), path, shared, httpMethod, op)
  {
    assert TagsRead(Strings(tags), op);
    assert ParametersRead(a + b, shared, op);
  }

  // ---------- what is emitted ----------

  /** The document declares an operation under this path and method. */
  predicate Declares(spec: seq<Field>, path: string, httpMethod: string) {
    var item := Get(PathsOf(spec), path);
    item.Some? && item.value.Obj? && DeclaresMethod(item.value.fields, httpMethod)
  }

  predicate DeclaresMethod(item: seq<Field>, httpMethod: string) {
    var op := Get(item, httpMethod);
    op.Some? && op.value.Obj?
  }

  ghost predicate OncePerEndpoint(ops: seq<Operation>) {
    forall i, j :: 0 <= i < j < |ops| ==> ops[i].path != ops[j].path || ops[i].httpMethod != ops[j].httpMethod
  }

  lemma LowerOfUpper(i: nat)
    requires i < |HTTP_METHODS|
    ensures Lower(Upper(HTTP_METHODS[i])) == HTTP_METHODS[i]
  {
    var m := HTTP_METHODS[i];
    assert forall k :: 0 <= k < |m| ==> 'a' <= m[k] <= 'z';
  }

  lemma UpperIsInjective()
    ensures forall i, j :: 0 <= i < j < |HTTP_METHODS| ==> Upper(HTTP_METHODS[i]) != Upper(HTTP_METHODS[j])
  {
    forall i, j | 0 <= i < j < |HTTP_METHODS|
      ensures Upper(HTTP_METHODS[i]) != Upper(HTTP_METHODS[j])
    {
      LowerOfUpper(i);
      LowerOfUpper(j);
    }
  }

  /** `ms` lists, in order, exactly the methods that the item declares an operation for, and `ops`
      what is read for them. */
  ghost predicate ReadMethods(ms: seq<nat>, path: string, item: seq<Field>, methods: seq<string>, ops: seq<Operation>) {
    && Places(ms, methods, (m: string) => DeclaresMethod(item, m)) && |ops| == |ms|
    && forall i :: 0 <= i < |ms| ==> EnrichMethod(path, item, methods[ms[i]]) == Ok([ops[i]])
  }

  lemma MethodReadsOne(path: string, item: seq<Field>, httpMethod: string)
    requires EnrichMethod(path, item, httpMethod).Ok?
    ensures |EnrichMethod(path, item, httpMethod).value| == if DeclaresMethod(item, httpMethod) then 1 else 0
  {
  }

  lemma OneMethodMore(ms: seq<nat>, path: string, item: seq<Field>, methods: seq<string>, n: nat,
                      before: seq<Operation>, last: seq<Operation>)
    requires |methods| == n + 1 && ReadMethods(ms, path, item, methods[..n], before)
    requires EnrichMethod(path, item, methods[n]) == Ok(last)
    ensures DeclaresMethod(item, methods[n]) ==> ReadMethods(ms + [n], path, item, methods, before + last)
    ensures !DeclaresMethod(item, methods[n]) ==> ReadMethods(ms, path, item, methods, before + last)
  {
    PlacesGrow(ms, methods, n, (m: string) => DeclaresMethod(item, m));
    MethodReadsOne(path, item, methods[n]);
    forall i | 0 <= i < |ms|
      ensures EnrichMethod(path, item, methods[ms[i]]) == Ok([before[i]])
    {
      assert methods[..n][ms[i]] == methods[ms[i]];
    }
    if DeclaresMethod(item, methods[n]) {
      assert last == [last[0]];
    } else {
      assert before + last == before;
    }
  }

  lemma {:induction false} ItemIsRead(path: string, item: seq<Field>, methods: seq<string>) returns (ms: seq<nat>)
    requires EnrichItem(path, item, methods).Ok?
    ensures ReadMethods(ms, path, item, methods, EnrichItem(path, item, methods).value)
  {
    if methods == [] {
      ms := [];
    } else {
      var n := |methods| - 1;
      ms := ItemIsRead(path, item, methods[..n]);
      OneMethodMore(ms, path, item, methods, n, EnrichItem(path, item, methods[..n]).value, EnrichMethod(path, item, methods[n]).value);
      if DeclaresMethod(item, methods[n]) {
        ms := ms + [n];
      }
    }
  }

  /** Where in the document an operation stands. */
  datatype Place = Place(path: nat, httpMethod: nat)

  predicate Precedes(a: Place, b: Place) {
    a.path < b.path || (a.path == b.path && a.httpMethod < b.httpMethod)
  }

  predicate DeclaredAt(paths: seq<Field>, methods: seq<string>, at: Place) {
    && at.path < |paths| && at.httpMethod < |methods| && paths[at.path].value.Obj?
    && DeclaresMethod(paths[at.path].value.fields, methods[at.httpMethod])
  }

  ghost predicate ReadAt(paths: seq<Field>, methods: seq<string>, at: Place, o: Operation) {
    && DeclaredAt(paths, methods, at)
    && var item := paths[at.path].value.fields;
       ReadFrom(o, paths[at.path].key, Get(item, "parameters"), methods[at.httpMethod],
                Get(item, methods[at.httpMethod]).value.fields)
  }

  /** `at` lists, in document order and then in the order of the methods, exactly the places where
      an operation is declared. */
  ghost predicate DeclaredPlaces(at: seq<Place>, paths: seq<Field>, methods: seq<string>) {
    && (forall i :: 0 <= i < |at| ==> DeclaredAt(paths, methods, at[i]))
    && (forall i, j :: 0 <= i < j < |at| ==> Precedes(at[i], at[j]))
    && (forall p :: DeclaredAt(paths, methods, p) ==> p in at)
  }

  /** `ops` is what is read at all these places. */
  ghost predicate ReadPaths(at: seq<Place>, paths: seq<Field>, methods: seq<string>, ops: seq<Operation>) {
    DeclaredPlaces(at, paths, methods) && AllPairs((p, o) => ReadAt(paths, methods, p, o), at, ops)
  }

  lemma MethodIsRead(paths: seq<Field>, methods: seq<string>, at: Place, o: Operation)
    requires DeclaredAt(paths, methods, at)
    requires EnrichMethod(paths[at.path].key, paths[at.path].value.fields, methods[at.httpMethod]) == Ok([o])
    ensures ReadAt(paths, methods, at, o)
  {
    var item := paths[at.path].value.fields;
    OperationMeaning(paths[at.path].key, Get(item, "parameters"), methods[at.httpMethod],
                     Get(item, methods[at.httpMethod]).value.fields);
  }

  function OnPath(n: nat, ms: seq<nat>): (at: seq<Place>)
    ensures |at| == |ms| && forall i :: 0 <= i < |ms| ==> at[i] == Place(n, ms[i])
  {
    seq(|ms|, i requires 0 <= i < |ms| => Place(n, ms[i]))
  }

  lemma OnePathMoreDeclared(at: seq<Place>, ms: seq<nat>, paths: seq<Field>, n: nat, methods: seq<string>)
    requires |paths| == n + 1 && paths[n].value.Obj? && DeclaredPlaces(at, paths[..n], methods)
    requires Places(ms, methods, (m: string) => DeclaresMethod(paths[n].value.fields, m))
    ensures DeclaredPlaces(at + OnPath(n, ms), paths, methods)
  {
    forall p | DeclaredAt(paths, methods, p)
      ensures p in at + OnPath(n, ms)
    {
      if p.path == n {
        var i :| 0 <= i < |ms| && ms[i] == p.httpMethod;
        assert OnPath(n, ms)[i] == p;
      } else {
        assert DeclaredAt(paths[..n], methods, p);
      }
    }
  }

  lemma SkippedDeclaresNothing(at: seq<Place>, paths: seq<Field>, n: nat, methods: seq<string>)
    requires |paths| == n + 1 && !paths[n].value.Obj? && DeclaredPlaces(at, paths[..n], methods)
    ensures DeclaredPlaces(at, paths, methods)
  {
    forall p | DeclaredAt(paths, methods, p)
      ensures p in at
    {
      assert DeclaredAt(paths[..n], methods, p);
    }
  }

  lemma EarlierPathsStay(at: seq<Place>, paths: seq<Field>, n: nat, methods: seq<string>, ops: seq<Operation>)
    requires |paths| == n + 1 && ReadPaths(at, paths[..n], methods, ops)
    ensures AllPairs((p, o) => ReadAt(paths, methods, p, o), at, ops)
  {
    forall i | 0 <= i < |at|
      ensures ReadAt(paths, methods, at[i], ops[i])
    {
      assert ReadAt(paths[..n], methods, at[i], ops[i]);
    }
  }

  lemma LastPathIsRead(ms: seq<nat>, paths: seq<Field>, n: nat, methods: seq<string>, ops: seq<Operation>)
    requires |paths| == n + 1 && paths[n].value.Obj?
    requires ReadMethods(ms, paths[n].key, paths[n].value.fields, methods, ops)
    ensures AllPairs((p, o) => ReadAt(paths, methods, p, o), OnPath(n, ms), ops)
  {
    forall i | 0 <= i < |ms|
      ensures ReadAt(paths, methods, OnPath(n, ms)[i], ops[i])
    {
      MethodIsRead(paths, methods, Place(n, ms[i]), ops[i]);
    }
  }

  lemma {:induction false} PathsAreRead(paths: seq<Field>) returns (at: seq<Place>)
    requires EnrichPaths(paths).Ok?
    ensures ReadPaths(at, paths, HTTP_METHODS, EnrichPaths(paths).value)
  {
    if paths == [] {
      at := [];
    } else {
      var n := |paths| - 1;
      at := PathsAreRead(paths[..n]);
      var before := EnrichPaths(paths[..n]).value;
      EarlierPathsStay(at, paths, n, HTTP_METHODS, before);
      if paths[n].value.Obj? {
        var ms := ItemIsRead(paths[n].key, paths[n].value.fields, HTTP_METHODS);
        var last := EnrichItem(paths[n].key, paths[n].value.fields, HTTP_METHODS).value;
        LastPathIsRead(ms, paths, n, HTTP_METHODS, last);
        OnePathMoreDeclared(at, ms, paths, n, HTTP_METHODS);
        PairsAppend((p, o) => ReadAt(paths, HTTP_METHODS, p, o), at, before, OnPath(n, ms), last);
        at := at + OnPath(n, ms);
      } else {
        SkippedDeclaresNothing(at, paths, n, HTTP_METHODS);
      }
    }
  }

  /** A document is read in its own order: path by path, and within a path in the order of the
      seven methods, exactly the operations that it declares as mappings, each as it says. */
  lemma EnrichReadsInOrder(spec: seq<Field>) returns (at: seq<Place>)
    requires EnrichSpec(spec).Ok?
    ensures ReadPaths(at, PathsOf(spec), ["get", "post", "put", "patch", "delete", "options", "head"], EnrichSpec(spec).value)
  {
    at := PathsAreRead(PathsOf(spec));
  }

  lemma {:induction false} ItemSucceeds(path: Field, methods: seq<string>)
    requires path.value.Obj?
    ensures EnrichItem(path.key, path.value.fields, methods).Ok? <==> ItemReadable(path, methods)
  {
    var item := path.value.fields;
    if methods != [] {
      var before, last := methods[..|methods| - 1], methods[|methods| - 1];
      ItemSucceeds(path, before);
      assert forall m :: m in methods <==> m in before || m == last;
      if DeclaresMethod(item, last) {
        OperationMeaning(path.key, Get(item, "parameters"), last, Get(item, last).value.fields);
      }
    }
  }

  /** What is declared under the method lists its tags and parameters in something iterable. */
  predicate Readable(item: seq<Field>, httpMethod: string)
    requires DeclaresMethod(item, httpMethod)
  {
    var op := Get(item, httpMethod).value.fields;
    Iterable(Get(op, "tags")) && Iterable(Get(item, "parameters")) && Iterable(Get(op, "parameters"))
  }

  ghost predicate ItemReadable(path: Field, methods: seq<string>) {
    path.value.Obj? ==> forall m :: m in methods && DeclaresMethod(path.value.fields, m) ==> Readable(path.value.fields, m)
  }

  lemma {:induction false} PathsSucceed(paths: seq<Field>)
    ensures EnrichPaths(paths).Ok? <==> forall p :: p in paths ==> ItemReadable(p, HTTP_METHODS)
  {
    if paths != [] {
      var before, last := paths[..|paths| - 1], paths[|paths| - 1];
      PathsSucceed(before);
      assert forall p :: p in paths <==> p in before || p == last;
      if last.value.Obj? {
        ItemSucceeds(last, HTTP_METHODS);
      }
    }
  }

  /** A document is read exactly when every operation in it can be. */
  lemma EnrichSucceedsExactly(spec: seq<Field>)
    ensures EnrichSpec(spec).Ok? <==>
            forall p :: p in PathsOf(spec) ==> ItemReadable(p, ["get", "post", "put", "patch", "delete", "options", "head"])
    ensures PathsOf(spec) == match Get(spec, "paths") case Some(Obj(paths)) => paths case _ => []
  {
    PathsSucceed(PathsOf(spec));
  }

  lemma PathsOnce(paths: seq<Field>)
    requires EnrichPaths(paths).Ok? && DistinctKeys(paths)
    ensures OncePerEndpoint(EnrichPaths(paths).value)
  {
    var ops := EnrichPaths(paths).value;
    var at := PathsAreRead(paths);
    UpperIsInjective();
    forall i, j | 0 <= i < j < |ops|
      ensures ops[i].path != ops[j].path || ops[i].httpMethod != ops[j].httpMethod
    {
      assert ReadAt(paths, HTTP_METHODS, at[i], ops[i]) && ReadAt(paths, HTTP_METHODS, at[j], ops[j]);
      assert Precedes(at[i], at[j]);
    }
  }

  /** Each endpoint is emitted at most once, and exactly the declared ones are. */
  lemma EnrichIsExact(spec: seq<Field>, path: string, m: nat)
    requires EnrichSpec(spec).Ok? && DistinctKeys(PathsOf(spec)) && m < |HTTP_METHODS|
    ensures OncePerEndpoint(EnrichSpec(spec).value)
    ensures Declares(spec, path, HTTP_METHODS[m]) <==>
            exists op :: op in EnrichSpec(spec).value && op.path == path && op.httpMethod == Upper(HTTP_METHODS[m])
  {
    PathsOnce(PathsOf(spec));
    if Declares(spec, path, HTTP_METHODS[m]) {
      DeclaredIsEmitted(spec, path, m);
    }
    if op :| op in EnrichSpec(spec).value && op.path == path && op.httpMethod == Upper(HTTP_METHODS[m]) {
      EmittedIsDeclared(spec, op, m);
    }
  }

  lemma DeclaredIsEmitted(spec: seq<Field>, path: string, m: nat)
    requires EnrichSpec(spec).Ok? && m < |HTTP_METHODS| && Declares(spec, path, HTTP_METHODS[m])
    ensures exists op :: op in EnrichSpec(spec).value && op.path == path && op.httpMethod == Upper(HTTP_METHODS[m])
  {
    var paths, ops := PathsOf(spec), EnrichSpec(spec).value;
    var k :| 0 <= k < |paths| && paths[k] == Field(path, Get(paths, path).value);
    var at := PathsAreRead(paths);
    assert DeclaredAt(paths, HTTP_METHODS, Place(k, m));
    var i :| 0 <= i < |at| && at[i] == Place(k, m);
    assert ReadAt(paths, HTTP_METHODS, at[i], ops[i]) && ops[i] in ops;
  }

  lemma EmittedIsDeclared(spec: seq<Field>, op: Operation, m: nat)
    requires EnrichSpec(spec).Ok? && DistinctKeys(PathsOf(spec)) && m < |HTTP_METHODS|
    requires op in EnrichSpec(spec).value && op.httpMethod == Upper(HTTP_METHODS[m])
    ensures Declares(spec, op.path, HTTP_METHODS[m])
  {
    var paths, ops := PathsOf(spec), EnrichSpec(spec).value;
    var at := PathsAreRead(paths);
    var i :| 0 <= i < |ops| && ops[i] == op;
    assert ReadAt(paths, HTTP_METHODS, at[i], ops[i]);
    GetIs(paths, at[i].path);
    LowerOfUpper(m);
    LowerOfUpper(at[i].httpMethod);
  }

  lemma {:induction false} GetIs(fields: seq<Field>, k: nat)
    requires DistinctKeys(fields) && k < |fields|
    ensures Get(fields, fields[k].key) == Some(fields[k].value)
  {
    if k > 0 {
      GetIs(fields[1..], k - 1);
    }
  }
}
