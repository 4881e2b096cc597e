/** Decoded documents. A mapping keeps its keys in order and holds each key once. */
module Json {
  import opened Wrappers

  datatype Json = Null | Bool(b: bool) | Num(n: int) | Str(s: string) | Arr(items: seq<Json>) | Obj(fields: seq<Field>)

  datatype Field = Field(key: string, value: Json)

  /** What the program raises on a value of the wrong kind. */
  datatype PyError = TypeError | AttributeError

  function Get(fields: seq<Field>, key: string): (v: Option<Json>)
    ensures v.Some? ==> Field(key, v.value) in fields
    ensures v.None? ==> forall f :: f in fields ==> f.key != key
  {
    if fields == [] then None
    else if fields[0].key == key then Some(fields[0].value)
    else
      assert forall f :: f in fields <==> f == fields[0] || f in fields[1..];
      Get(fields[1..], key)
  }

  function GetOr(fields: seq<Field>, key: string, default: Json): Json {
    match Get(fields, key)
    case None => default
    case Some(v) => v
  }

  function Put(fields: seq<Field>, key: string, value: Json): (r: seq<Field>)
    ensures Get(r, key) == Some(value)
    ensures forall k :: k != key ==> Get(r, k) == Get(fields, k)
  {
    if fields == [] then [Field(key, value)]
    else if fields[0].key == key then [Field(key, value)] + fields[1..]
    else
      var r := [fields[0]] + Put(fields[1..], key, value);
      assert r[1..] == Put(fields[1..], key, value);
      r
  }

  /** The fields whose key is not in `dropped`. */
  function Omit(fields: seq<Field>, dropped: set<string>): (r: seq<Field>)
    ensures forall k :: Get(r, k) == if k in dropped then None else Get(fields, k)
  {
    if fields == [] then []
    else if fields[0].key in dropped then Omit(fields[1..], dropped)
    else
      var r := [fields[0]] + Omit(fields[1..], dropped);
      assert r[1..] == Omit(fields[1..], dropped);
      r
  }

  ghost predicate DistinctKeys(fields: seq<Field>) {
    forall i, j :: 0 <= i < j < |fields| ==> fields[i].key != fields[j].key
  }

  predicate Truthy(j: Json) {
    match j
    case Null => false
    case Bool(b) => b
    case Num(n) => n != 0
    case Str(s) => s != []
    case Arr(items) => items != []
    case Obj(fields) => fields != []
  }

  /** The values that Python takes for false. */
  lemma TruthyMeaning(j: Json)
    ensures Truthy(j) <==> j !in {Null, Bool(false), Num(0), Str(""), Arr([]), Obj([])}
  {
  }

  /** `value or default` */
  function Or(j: Json, default: Json): Json {
    if Truthy(j) then j else default
  }

  /** What iterating over a value yields; a mapping yields its keys. */
  function Elements(j: Json): Result<seq<Json>, PyError> {
    match j
    case Arr(items) => Ok(items)
    case Str(s) => Ok(seq(|s|, i requires 0 <= i < |s| => Str([s[i]])))
    case Obj(fields) => Ok(seq(|fields|, i requires 0 <= i < |fields| => Str(fields[i].key)))
    case _ => Err(TypeError)
  }

  /** `value or []`, iterated */
  function ElementsOr(v: Option<Json>): Result<seq<Json>, PyError> {
    if v.None? || !Truthy(v.value) then Ok([]) else Elements(v.value)
  }
}
