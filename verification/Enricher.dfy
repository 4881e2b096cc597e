/** From an OpenAPI document to the list of its operations. */
module Enricher {
  import opened Wrappers
  import opened Json
  import opened Texts
  import PathTemplate

  datatype Operation = Operation(
    operationId: string, httpMethod: string, path: string, summary: string, description: string,
    tags: seq<string>, parameters: seq<Json>, requestBody: Option<seq<Field>>, responses: Json,
    semanticTags: seq<string>)

  const HTTP_METHODS: seq<string> := ["get", "post", "put", "patch", "delete", "options", "head"]

  // ---------- segments and words ----------

  predicate IsNoSlash(c: char) {
    c != '/'
  }

  /** The non-empty parts of a path between slashes. */
  function Segments(path: string): seq<string> {
    RunsOf(path, [], IsNoSlash)
  }

  lemma SegmentsMeaning(path: string) returns (gaps: seq<string>)
    ensures MaximalRuns(path, gaps, Segments(path), c => c != '/')
  {
    gaps := RunsAreMaximal(path, [], IsNoSlash);
    assert [] + path == path;
    SameKind(path, gaps, Segments(path), IsNoSlash, c => c != '/');
  }

  predicate IsLetter(c: char) {
    'a' <= c <= 'z' || 'A' <= c <= 'Z'
  }

  function LowerAll(words: seq<string>): (r: seq<string>)
    ensures |r| == |words| && forall i :: 0 <= i < |r| ==> r[i] == Lower(words[i])
  {
    seq(|words|, i requires 0 <= i < |words| => Lower(words[i]))
  }

  /** The maximal runs of letters, in lower case. */
  function Words(text: string): seq<string> {
    LowerAll(RunsOf(text, [], IsLetter))
  }

  lemma WordsMeaning(text: string) returns (gaps: seq<string>, runs: seq<string>)
    ensures MaximalRuns(text, gaps, runs, c => 'a' <= c <= 'z' || 'A' <= c <= 'Z')
    ensures |Words(text)| == |runs| && forall i :: 0 <= i < |runs| ==> Words(text)[i] == Lower(runs[i])
  {
    runs := RunsOf(text, [], IsLetter);
    gaps := RunsAreMaximal(text, [], IsLetter);
    assert [] + text == text;
    SameKind(text, gaps, runs, IsLetter, c => 'a' <= c <= 'z' || 'A' <= c <= 'Z');
  }

  // ---------- operation ids ----------

  function SegmentPart(segment: string): string {
    match PathTemplate.HoleAt(segment)
    case Some(name) => "by_" + Slug(name)
    case None => Slug(segment)
  }

  function SegmentParts(segments: seq<string>): seq<string> {
    if segments == [] then []
    else SegmentParts(segments[..|segments| - 1]) + [SegmentPart(segments[|segments| - 1])]
  }

  function GenerateOperationId(httpMethod: string, path: string): string {
    var id := Join(Kept([Slug(httpMethod)] + SegmentParts(Segments(path)), IsPart), "_");
    if id == [] then Slug(httpMethod + "_root") else id
  }

  method ComputeOperationId(httpMethod: string, path: string) returns (id: string)
    ensures id == GenerateOperationId(httpMethod, path)
  {
    var segments := Segments(path);
    var parts := [Slug(httpMethod)];
    for i := 0 to |segments|
      invariant parts == [Slug(httpMethod)] + SegmentParts(segments[..i])
    {
      assert segments[..i + 1][..i] == segments[..i];
      parts := parts + [SegmentPart(segments[i])];
    }
    assert segments[..|segments|] == segments;
    id := Join(Kept(parts, IsPart), "_");
    if id == [] {
      id := Slug(httpMethod + "_root");
    }
  }

  ghost predicate IdChars(s: string) {
    forall i :: 0 <= i < |s| ==> IsSlugChar(s[i]) || s[i] == '_'
  }

  lemma {:induction false} JoinChars(parts: seq<string>)
    requires forall p :: p in parts ==> IdChars(p) && p != []
    ensures IdChars(Join(parts, "_")) && (parts != [] ==> Join(parts, "_") != [])
  {
    if parts != [] {
      assert IdChars(parts[0]);
      JoinChars(parts[1..]);
    }
  }

  lemma {:induction false} PartsAreIdChars(segments: seq<string>)
    ensures forall p :: p in SegmentParts(segments) ==> IdChars(p)
  {
    if segments != [] {
      PartsAreIdChars(segments[..|segments| - 1]);
      var last := segments[|segments| - 1];
      match PathTemplate.HoleAt(last) {
        case Some(name) => SlugIsNormalForm(name);
        case None => SlugIsNormalForm(last);
      }
    }
  }

  /** A generated operation id is never empty and consists of slug characters and underscores. */
  lemma GeneratedIdIsUsable(httpMethod: string, path: string)
    requires Slug(httpMethod) != []
    ensures GenerateOperationId(httpMethod, path) != [] && IdChars(GenerateOperationId(httpMethod, path))
  {
    var parts := [Slug(httpMethod)] + SegmentParts(Segments(path));
    SlugIsNormalForm(httpMethod);
    PartsAreIdChars(Segments(path));
    assert Slug(httpMethod) in Kept(parts, IsPart);
    JoinChars(Kept(parts, IsPart));
  }

  /** The segment starts with a placeholder of this name. */
  ghost predicate StartsWithHole(segment: string, name: string) {
    && name != [] && '{' !in name && '}' !in name
    && |name| + 2 <= |segment| && segment[..|name| + 2] == "{" + name + "}"
  }

  /** What a path segment adds to an id: "by_" and the slug of a placeholder's name if it starts
      with one, else its own slug. */
  ghost predicate NamesSegment(part: string, segment: string) {
    && (forall name :: StartsWithHole(segment, name) ==> part == "by_" + Slug(name))
    && ((forall name :: !StartsWithHole(segment, name)) ==> part == Slug(segment))
  }

  lemma HoleAtMeaning(segment: string, name: string)
    ensures StartsWithHole(segment, name) <==> PathTemplate.HoleAt(segment) == Some(name)
  {
    if StartsWithHole(segment, name) {
      assert segment == "{" + name + "}" + segment[|name| + 2..];
      PathTemplate.HoleIsFound(name, segment[|name| + 2..]);
    }
    if PathTemplate.HoleAt(segment) == Some(name) {
      assert segment[..|name| + 2] == "{" + name + "}";
    }
  }

  lemma PartNamesSegment(segment: string)
    ensures NamesSegment(SegmentPart(segment), segment)
  {
    forall name
      ensures StartsWithHole(segment, name) <==> PathTemplate.HoleAt(segment) == Some(name)
    {
      HoleAtMeaning(segment, name);
    }
    if PathTemplate.HoleAt(segment).Some? {
      assert StartsWithHole(segment, PathTemplate.HoleAt(segment).value);
    }
  }

  lemma {:induction false} PartsFollowSegments(segments: seq<string>)
    ensures |SegmentParts(segments)| == |segments|
    ensures forall i :: 0 <= i < |segments| ==> SegmentParts(segments)[i] == SegmentPart(segments[i])
  {
    if segments != [] {
      PartsFollowSegments(segments[..|segments| - 1]);
    }
  }

  /** A generated id is the method's slug and then one part for each non-empty segment of the
      path, in order; empty parts are left out, the rest are separated by single underscores. */
  lemma GeneratedIdIsExact(httpMethod: string, path: string) returns (parts: seq<string>)
    ensures |parts| == |Segments(path)|
    ensures forall i :: 0 <= i < |parts| ==> NamesSegment(parts[i], Segments(path)[i])
    ensures var glued := Glued([Slug(httpMethod)] + parts);
            if glued == [] then GenerateOperationId(httpMethod, path) == Slug(httpMethod + "_root")
            else "_" + GenerateOperationId(httpMethod, path) == glued
  {
    parts := SegmentParts(Segments(path));
    PartsFollowSegments(Segments(path));
    forall i | 0 <= i < |parts|
      ensures NamesSegment(parts[i], Segments(path)[i])
    {
      PartNamesSegment(Segments(path)[i]);
    }
    var all := [Slug(httpMethod)] + parts;
    GluedKept(all);
    if Kept(all, IsPart) != [] {
      JoinIsGlued(Kept(all, IsPart));
    }
  }

  // ---------- semantic tags ----------

  function VerbTags(httpMethod: string): seq<string> {
    var m := Lower(httpMethod);
    if m == "get" then ["read", "list"]
    else if m == "post" then ["create", "write"]
    else if m == "put" || m == "patch" then ["update", "write"]
    else if m == "delete" then ["delete", "write"]
    else []
  }

  function SlugAll(tags: seq<string>): seq<string> {
    if tags == [] then [] else SlugAll(tags[..|tags| - 1]) + [Slug(tags[|tags| - 1])]
  }

  predicate IsLiteral(segment: string) {
    PathTemplate.HoleAt(segment).None?
  }

  function LiteralSlugs(segments: seq<string>): seq<string> {
    SlugAll(Kept(segments, IsLiteral))
  }

  function RawTags(httpMethod: string, path: string, summary: string, declared: seq<string>): seq<string> {
    VerbTags(httpMethod) + SlugAll(declared) + LiteralSlugs(Segments(path)) + Words(summary)
  }

  /** Each non-empty tag at its first occurrence. */
  function Dedup(tags: seq<string>): seq<string> {
    if tags == [] then []
    else
      var done, t := Dedup(tags[..|tags| - 1]), tags[|tags| - 1];
      if t == [] || t in done then done else done + [t]
  }

  function SemanticTags(httpMethod: string, path: string, summary: string, declared: seq<string>): seq<string> {
    Dedup(RawTags(httpMethod, path, summary, declared))
  }

  lemma LiteralSlugsGrow(segments: seq<string>, i: nat)
    requires i < |segments|
    ensures LiteralSlugs(segments[..i + 1]) ==
            LiteralSlugs(segments[..i]) + if PathTemplate.HoleAt(segments[i]).Some? then [] else [Slug(segments[i])]
  {
    assert segments[..i + 1][..i] == segments[..i];
    if IsLiteral(segments[i]) {
      SlugAllGrows(Kept(segments[..i], IsLiteral), segments[i]);
    } else {
      assert Kept(segments[..i + 1], IsLiteral) == Kept(segments[..i], IsLiteral);
    }
  }

  lemma SlugAllStep(tags: seq<string>, i: nat)
    requires i < |tags|
    ensures SlugAll(tags[..i + 1]) == SlugAll(tags[..i]) + [Slug(tags[i])]
  {
    assert tags[..i + 1][..i] == tags[..i];
  }

  lemma SlugAllGrows(tags: seq<string>, t: string)
    ensures SlugAll(tags + [t]) == SlugAll(tags) + [Slug(t)]
  {
    assert (tags + [t])[..|tags|] == tags;
  }

  method ComputeSemanticTags(httpMethod: string, path: string, summary: string, declared: seq<string>)
    returns (deduped: seq<string>)
    ensures deduped == SemanticTags(httpMethod, path, summary, declared)
  {
    var tags := VerbTags(httpMethod);
    for i := 0 to |declared|
      invariant tags == VerbTags(httpMethod) + SlugAll(declared[..i])
    {
      SlugAllStep(declared, i);
      tags := tags + [Slug(declared[i])];
    }
    assert declared[..|declared|] == declared;
    tags := AddLiterals(tags, Segments(path));
    deduped := Deduplicate(tags + Words(summary));
  }

  method AddLiterals(before: seq<string>, segments: seq<string>) returns (tags: seq<string>)
    ensures tags == before + LiteralSlugs(segments)
  {
    tags := before;
    for i := 0 to |segments|
      invariant tags == before + LiteralSlugs(segments[..i])
    {
      LiteralSlugsGrow(segments, i);
      if PathTemplate.HoleAt(segments[i]).None? {
        Regroup(before, LiteralSlugs(segments[..i]), [Slug(segments[i])]);
        tags := tags + [Slug(segments[i])];
      } else {
        assert LiteralSlugs(segments[..i]) + [] == LiteralSlugs(segments[..i]);
      }
    }
    assert segments[..|segments|] == segments;
  }

  method Deduplicate(tags: seq<string>) returns (deduped: seq<string>)
    ensures deduped == Dedup(tags)
  {
    var seen: set<string> := {};
    deduped := [];
    for i := 0 to |tags|
      invariant deduped == Dedup(tags[..i])
      invariant forall t :: t in seen <==> t in deduped
    {
      assert tags[..i + 1][..i] == tags[..i];
      if tags[i] != [] && tags[i] !in seen {
        seen := seen + {tags[i]};
        deduped := deduped + [tags[i]];
      }
    }
    assert tags[..|tags|] == tags;
  }

  ghost predicate Distinct(xs: seq<string>) {
    forall i, j :: 0 <= i < j < |xs| ==> xs[i] != xs[j]
  }

  /** The semantic tags are the non-empty raw ones, each once. */
  lemma {:induction false} DedupIsExact(tags: seq<string>)
    ensures Distinct(Dedup(tags))
    ensures forall t :: t in Dedup(tags) <==> t in tags && t != []
  {
    if tags != [] {
      DedupIsExact(tags[..|tags| - 1]);
      assert tags == tags[..|tags| - 1] + [tags[|tags| - 1]];
    }
  }

  /** A non-empty tag stands here for the first time. */
  predicate IsFirst(raw: seq<string>, k: nat) {
    k < |raw| && raw[k] != [] && raw[k] !in raw[..k]
  }

  /** `at` lists, in order, exactly the places where a non-empty tag stands for the first time. */
  ghost predicate FirstPlaces(at: seq<nat>, raw: seq<string>) {
    && (forall i :: 0 <= i < |at| ==> IsFirst(raw, at[i]))
    && (forall i, j :: 0 <= i < j < |at| ==> at[i] < at[j])
    && (forall k :: IsFirst(raw, k) ==> k in at)
  }

  /** Deduplication keeps each tag where it stands first. */
  lemma {:induction false} DedupKeepsFirsts(tags: seq<string>) returns (at: seq<nat>)
    ensures FirstPlaces(at, tags) && |Dedup(tags)| == |at|
    ensures forall i :: 0 <= i < |at| ==> Dedup(tags)[i] == tags[at[i]]
  {
    if tags == [] {
      at := [];
    } else {
      var n := |tags| - 1;
      at := DedupKeepsFirsts(tags[..n]);
      DedupIsExact(tags[..n]);
      FirstPlacesGrow(at, tags, n);
      if IsFirst(tags, n) {
        at := at + [n];
      }
    }
  }

  lemma FirstPlacesGrow(at: seq<nat>, raw: seq<string>, n: nat)
    requires |raw| == n + 1 && FirstPlaces(at, raw[..n])
    ensures IsFirst(raw, n) ==> FirstPlaces(at + [n], raw)
    ensures !IsFirst(raw, n) ==> FirstPlaces(at, raw)
  {
    forall k: nat | k < n
      ensures IsFirst(raw, k) <==> IsFirst(raw[..n], k)
    {
      FirstStays(raw, n, k);
    }
    assert forall i :: 0 <= i < |at| ==> IsFirst(raw[..n], at[i]) && at[i] < n;
  }

  lemma FirstStays(raw: seq<string>, n: nat, k: nat)
    requires k < n < |raw|
    ensures IsFirst(raw, k) <==> IsFirst(raw[..n], k)
  {
    assert raw[..n][..k] == raw[..k];
  }

  lemma {:induction false} DedupKeepsStart(a: seq<string>, b: seq<string>)
    requires Distinct(a) && [] !in a
    ensures a <= Dedup(a + b)
  {
    if b != [] {
      DedupKeepsStart(a, b[..|b| - 1]);
      assert (a + b)[..|a + b| - 1] == a + b[..|b| - 1];
    } else {
      assert a + b == a;
      DedupOfDistinct(a);
    }
  }

  lemma {:induction false} DedupOfDistinct(a: seq<string>)
    requires Distinct(a) && [] !in a
    ensures Dedup(a) == a
  {
    if a != [] {
      var before := a[..|a| - 1];
      DedupOfDistinct(before);
      assert a == before + [a[|a| - 1]];
    }
  }

  lemma WordsAreSlugs(text: string)
    ensures forall w :: w in Words(text) ==> IsSlug(w) && w != []
  {
    var runs := RunsOf(text, [], IsLetter);
    var gaps := RunsAreMaximal(text, [], IsLetter);
    forall i | 0 <= i < |runs|
      ensures IsSlug(Lower(runs[i])) && Lower(runs[i]) != []
    {
      assert Only(runs[i], IsLetter);
      assert forall k :: 0 <= k < |runs[i]| ==> IsSlugChar(Lower(runs[i])[k]);
    }
  }

  lemma {:induction false} SlugAllIsImage(tags: seq<string>, t: string)
    ensures t in SlugAll(tags) <==> exists d :: d in tags && Slug(d) == t
  {
    if tags != [] {
      SlugAllIsImage(tags[..|tags| - 1], t);
      assert forall d :: d in tags <==> d in tags[..|tags| - 1] || d == tags[|tags| - 1];
    }
  }

  lemma LiteralSlugsAreExact(segments: seq<string>, t: string)
    ensures t in LiteralSlugs(segments) <==>
            exists s :: s in segments && PathTemplate.HoleAt(s).None? && Slug(s) == t
  {
    SlugAllIsImage(Kept(segments, IsLiteral), t);
  }

  lemma VerbTagsAreSlugs(httpMethod: string)
    ensures Distinct(VerbTags(httpMethod)) && forall t :: t in VerbTags(httpMethod) ==> IsSlug(t) && t != []
  {
    forall t | t in VerbTags(httpMethod)
      ensures IsSlug(t) && t != []
    {
      assert forall i :: 0 <= i < |t| ==> 'a' <= t[i] <= 'z';
    }
  }

  lemma {:induction false} SlugAllIsPointwise(tags: seq<string>)
    ensures |SlugAll(tags)| == |tags| && forall i :: 0 <= i < |tags| ==> SlugAll(tags)[i] == Slug(tags[i])
  {
    if tags != [] {
      SlugAllIsPointwise(tags[..|tags| - 1]);
    }
  }

  /** The tags in the order of their origins: the verb's, the slug of each declared tag, the slug
      of each path segment that does not start with a placeholder, the words of the summary. */
  ghost predicate RawTagsOf(raw: seq<string>, verb: seq<string>, slugs: seq<string>, from: seq<nat>, literals: seq<string>,
                            path: string, summary: string, declared: seq<string>)
  {
    && raw == verb + slugs + literals + Words(summary)
    && |slugs| == |declared| && (forall i :: 0 <= i < |declared| ==> slugs[i] == Slug(declared[i]))
    && Places(from, Segments(path), IsLiteral) && |literals| == |from|
    && (forall i :: 0 <= i < |from| ==> literals[i] == Slug(Segments(path)[from[i]]))
  }

  /** The semantic tags, in order: each non-empty tag of these at its first place. */
  lemma SemanticTagsInOrder(httpMethod: string, path: string, summary: string, declared: seq<string>)
    returns (raw: seq<string>, slugs: seq<string>, from: seq<nat>, literals: seq<string>, at: seq<nat>)
    ensures RawTagsOf(raw, VerbTags(httpMethod), slugs, from, literals, path, summary, declared)
    ensures FirstPlaces(at, raw) && |SemanticTags(httpMethod, path, summary, declared)| == |at|
    ensures forall i :: 0 <= i < |at| ==> SemanticTags(httpMethod, path, summary, declared)[i] == raw[at[i]]
  {
    raw := RawTags(httpMethod, path, summary, declared);
    slugs, literals := SlugAll(declared), LiteralSlugs(Segments(path));
    SlugAllIsPointwise(declared);
    from := KeptPlaces(Segments(path), IsLiteral);
    SlugAllIsPointwise(Kept(Segments(path), IsLiteral));
    at := DedupKeepsFirsts(raw);
  }

  /** The tags of a verb, as the method is written in an operation. */
  lemma VerbTagsMeaning(httpMethod: string)
    ensures Lower(httpMethod) == "get" ==> VerbTags(httpMethod) == ["read", "list"]
    ensures Lower(httpMethod) == "post" ==> VerbTags(httpMethod) == ["create", "write"]
    ensures Lower(httpMethod) in ["put", "patch"] ==> VerbTags(httpMethod) == ["update", "write"]
    ensures Lower(httpMethod) == "delete" ==> VerbTags(httpMethod) == ["delete", "write"]
    ensures Lower(httpMethod) !in ["get", "post", "put", "patch", "delete"] ==> VerbTags(httpMethod) == []
  {
  }

  /** Where a semantic tag comes from. */
  ghost predicate IsTagOf(t: string, httpMethod: string, path: string, summary: string, declared: seq<string>) {
    || t in VerbTags(httpMethod)
    || (exists d :: d in declared && Slug(d) == t)
    || (exists s :: s in Segments(path) && PathTemplate.HoleAt(s).None? && Slug(s) == t)
    || t in Words(summary)
  }

  lemma RawTagsComeFrom(httpMethod: string, path: string, summary: string, declared: seq<string>, t: string)
    ensures t in RawTags(httpMethod, path, summary, declared) <==> IsTagOf(t, httpMethod, path, summary, declared)
  {
    SlugAllIsImage(declared, t);
    LiteralSlugsAreExact(Segments(path), t);
  }

  lemma TagsAreSlugs(httpMethod: string, path: string, summary: string, declared: seq<string>, t: string)
    requires IsTagOf(t, httpMethod, path, summary, declared)
    ensures IsSlug(t)
  {
    VerbTagsAreSlugs(httpMethod);
    WordsAreSlugs(summary);
    if d :| d in declared && Slug(d) == t {
      SlugIsNormalForm(d);
    } else if s :| s in Segments(path) && PathTemplate.HoleAt(s).None? && Slug(s) == t {
      SlugIsNormalForm(s);
    }
  }

  lemma VerbTagsComeFirst(httpMethod: string, rest: seq<string>)
    ensures VerbTags(httpMethod) <= Dedup(VerbTags(httpMethod) + rest)
  {
    VerbTagsAreSlugs(httpMethod);
    DedupKeepsStart(VerbTags(httpMethod), rest);
  }

  /** The semantic tags are each once, all non-empty slugs, the verb's first, and exactly those
      of the verb, the declared tags, the path's segments that are no placeholders and the
      words of the summary. */
  lemma SemanticTagsAreExact(httpMethod: string, path: string, summary: string, declared: seq<string>, t: string)
    ensures var tags := SemanticTags(httpMethod, path, summary, declared);
            && Distinct(tags) && VerbTags(httpMethod) <= tags
            && (t in tags <==> t != [] && IsTagOf(t, httpMethod, path, summary, declared))
            && (t in tags ==> IsSlug(t))
  {
    var verb, raw := VerbTags(httpMethod), RawTags(httpMethod, path, summary, declared);
    DedupIsExact(raw);
    RawTagsComeFrom(httpMethod, path, summary, declared, t);
    assert raw == verb + raw[|verb|..];
    VerbTagsComeFirst(httpMethod, raw[|verb|..]);
    if t in raw {
      TagsAreSlugs(httpMethod, path, summary, declared, t);
    }
  }

  // ---------- operations ----------

  function TextOf(v: Option<Json>): string {
    if v.Some? && v.value.Str? then v.value.s else []
  }

  function Summarize(httpMethod: string, path: string, op: seq<Field>): string {
    var summary, desc := TextOf(Get(op, "summary")), TextOf(Get(op, "description"));
    if Trim(summary) != [] then Trim(summary)
    else if Trim(desc) != [] then Trim(FirstLine(desc))
    else Upper(httpMethod) + " " + path
  }

  predicate IsText(j: Json) {
    j.Str?
  }

  /** The texts among `items`, in order. */
  function Strings(items: seq<Json>): seq<string> {
    var texts := Kept(items, IsText);
    seq(|texts|, i requires 0 <= i < |texts| => assert texts[i] in texts; texts[i].s)
  }

  function BodyRead(op: seq<Field>): Option<seq<Field>> {
    match Get(op, "requestBody")
    case Some(Obj(fields)) => Some(fields)
    case _ => None
  }

  function OperationFrom(path: string, httpMethod: string, op: seq<Field>, tags: seq<string>, parameters: seq<Json>): Operation {
    var declared := TextOf(Get(op, "operationId"));
    var summary := Summarize(httpMethod, path, op);
    Operation(
      if declared != [] then declared else GenerateOperationId(httpMethod, path),
      Upper(httpMethod), path, summary, TextOf(Get(op, "description")), tags, parameters, BodyRead(op),
      Or(GetOr(op, "responses", Null), Obj([])),
      SemanticTags(httpMethod, path, summary, tags))
  }

  function EnrichOperation(path: string, pathLevel: Option<Json>, httpMethod: string, op: seq<Field>): Result<Operation, PyError> {
    var tags :- ElementsOr(Get(op, "tags"));
    var shared :- ElementsOr(pathLevel);
    var own :- ElementsOr(Get(op, "parameters"));
    Ok(OperationFrom(path, httpMethod, op, Strings(tags), shared + own))
  }

  // ---------- the walk ----------

  /** The operation that a path declares under one method, if any. */
  function EnrichMethod(path: string, item: seq<Field>, httpMethod: string): Result<seq<Operation>, PyError> {
    var op := Get(item, httpMethod);
    if op.None? || !op.value.Obj? then Ok([])
    else
      var enriched :- EnrichOperation(path, Get(item, "parameters"), httpMethod, op.value.fields);
      Ok([enriched])
  }

  function EnrichItem(path: string, item: seq<Field>, methods: seq<string>): Result<seq<Operation>, PyError> {
    if methods == [] then Ok([])
    else
      var before :- EnrichItem(path, item, methods[..|methods| - 1]);
      var last :- EnrichMethod(path, item, methods[|methods| - 1]);
      Ok(before + last)
  }

  function EnrichPaths(paths: seq<Field>): Result<seq<Operation>, PyError> {
    if paths == [] then Ok([])
    else
      var last := paths[|paths| - 1];
      var before :- EnrichPaths(paths[..|paths| - 1]);
      if !last.value.Obj? then Ok(before)
      else
        var ops :- EnrichItem(last.key, last.value.fields, HTTP_METHODS);
        Ok(before + ops)
  }

  function PathsOf(spec: seq<Field>): seq<Field> {
    var paths := Or(GetOr(spec, "paths", Null), Obj([]));
    if paths.Obj? then paths.fields else []
  }

  function EnrichSpec(spec: seq<Field>): Result<seq<Operation>, PyError> {
    EnrichPaths(PathsOf(spec))
  }

  /** The walk over paths and methods. */
  method Enrich(spec: seq<Field>) returns (r: Result<seq<Operation>, PyError>)
    ensures r == EnrichSpec(spec)
  {
    var operations: seq<Operation> := [];
    var paths := PathsOf(spec);
    for i := 0 to |paths|
      invariant EnrichPaths(paths[..i]) == Ok(operations)
    {
      assert paths[..i + 1][..i] == paths[..i];
      if paths[i].value.Obj? {
        var found := EnrichMethods(paths[i].key, paths[i].value.fields, HTTP_METHODS);
        if found.Err? {
          PathsError(paths, i + 1);
          return found;
        }
        operations := operations + found.value;
      }
    }
    assert paths[..|paths|] == paths;
    return Ok(operations);
  }

  method EnrichMethods(path: string, item: seq<Field>, methods: seq<string>) returns (r: Result<seq<Operation>, PyError>)
    ensures r == EnrichItem(path, item, methods)
  {
    var operations: seq<Operation> := [];
    for i := 0 to |methods|
      invariant EnrichItem(path, item, methods[..i]) == Ok(operations)
    {
      assert methods[..i + 1][..i] == methods[..i];
      var found := EnrichMethod(path, item, methods[i]);
      if found.Err? {
        ItemError(path, item, methods, i + 1);
        return found;
      }
      operations := operations + found.value;
    }
    assert methods[..|methods|] == methods;
    return Ok(operations);
  }

  lemma {:induction false} ItemError(path: string, item: seq<Field>, methods: seq<string>, n: nat)
    requires n <= |methods| && EnrichItem(path, item, methods[..n]).Err?
    ensures EnrichItem(path, item, methods) == EnrichItem(path, item, methods[..n])
    decreases |methods|
  {
    if n < |methods| {
      assert methods[..|methods| - 1][..n] == methods[..n];
      ItemError(path, item, methods[..|methods| - 1], n);
    } else {
      assert methods[..n] == methods;
    }
  }

  lemma {:induction false} PathsError(paths: seq<Field>, n: nat)
    requires n <= |paths| && EnrichPaths(paths[..n]).Err?
    ensures EnrichPaths(paths) == EnrichPaths(paths[..n])
    decreases |paths|
  {
    if n < |paths| {
      assert paths[..|paths| - 1][..n] == paths[..n];
      PathsError(paths[..|paths| - 1], n);
    } else {
      assert paths[..n] == paths;
    }
  }
}
