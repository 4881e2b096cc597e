/** Path templates: the reading of a template as literal characters and {name} placeholders,
    and the left-to-right substitution of values for the placeholders. */
module PathTemplate {
  import opened Wrappers

  datatype Piece = Lit(c: char) | Hole(name: string)

  predicate IsBrace(c: char) {
    c == '{' || c == '}'
  }

  /** How many characters from the start are not braces. */
  function Run(s: string): (n: nat)
    ensures n <= |s|
    ensures forall i :: 0 <= i < n ==> !IsBrace(s[i])
    ensures n < |s| ==> IsBrace(s[n])
  {
    if s == [] || IsBrace(s[0]) then 0
    else
      var n := Run(s[1..]);
      assert forall i :: 1 <= i < 1 + n ==> s[i] == s[1..][i - 1];
      1 + n
  }

  /** The name of the placeholder that starts here: an opening brace, one or more characters
      that are no braces, a closing brace. */
  function HoleAt(s: string): (name: Option<string>)
    ensures name.Some? ==> |name.value| + 2 <= |s| && BraceFree(name.value) && name.value != []
    ensures name.Some? ==> s == "{" + name.value + "}" + s[|name.value| + 2..]
  {
    if s == [] || s[0] != '{' then None
    else
      var n := Run(s[1..]);
      if n >= 1 && 1 + n < |s| && s[1 + n] == '}' then
        assert s[1..][..n] == s[1..1 + n];
        Some(s[1..1 + n])
      else None
  }

  ghost predicate BraceFree(s: string) {
    forall i :: 0 <= i < |s| ==> !IsBrace(s[i])
  }

  // ---------- substitution ----------

  /** Scans for placeholders and replaces each; the first name without a value is the error. */
  function Substitute(s: string, values: map<string, string>): Result<string, string>
    decreases |s|
  {
    if s == [] then Ok([])
    else
      match HoleAt(s)
      case Some(name) =>
        if name !in values then Err(name)
        else
          var rest :- Substitute(s[|name| + 2..], values);
          Ok(values[name] + rest)
      case None =>
        var rest :- Substitute(s[1..], values);
        Ok([s[0]] + rest)
  }

  // ---------- the reading of a template ----------

  function Pieces(s: string): seq<Piece>
    decreases |s|
  {
    if s == [] then []
    else
      match HoleAt(s)
      case Some(name) => [Hole(name)] + Pieces(s[|name| + 2..])
      case None => [Lit(s[0])] + Pieces(s[1..])
  }

  function Print(ps: seq<Piece>): string {
    if ps == [] then []
    else (match ps[0] case Lit(c) => [c] case Hole(name) => "{" + name + "}") + Print(ps[1..])
  }

  function Names(ps: seq<Piece>): seq<string> {
    if ps == [] then []
    else if ps[0].Hole? then [ps[0].name] + Names(ps[1..]) else Names(ps[1..])
  }

  /** The pieces with the placeholders replaced, each value put in as it is. */
  function Fill(ps: seq<Piece>, values: map<string, string>): string
    requires forall name :: name in Names(ps) ==> name in values
  {
    if ps == [] then []
    else if ps[0].Lit? then [ps[0].c] + Fill(ps[1..], values)
    else values[ps[0].name] + Fill(ps[1..], values)
  }

  /** Placeholders have a name, and no literal is the start of a further placeholder. */
  ghost predicate Canonical(ps: seq<Piece>) {
    ps != [] ==>
      && (match ps[0]
          case Lit(_) => HoleAt(Print(ps)).None?
          case Hole(name) => name != [] && BraceFree(name))
      && Canonical(ps[1..])
  }

  lemma RunStops(name: string, rest: string)
    requires BraceFree(name) && rest != [] && IsBrace(rest[0])
    ensures Run(name + rest) == |name|
  {
    var s := name + rest;
    assert s[|name|] == rest[0];
    assert forall i :: 0 <= i < |name| ==> s[i] == name[i];
  }

  lemma HoleIsFound(name: string, rest: string)
    requires name != [] && BraceFree(name)
    ensures HoleAt("{" + name + "}" + rest) == Some(name)
  {
    var s := "{" + name + "}" + rest;
    assert s[1..] == name + ("}" + rest);
    RunStops(name, "}" + rest);
    assert s[1..1 + |name|] == name;
  }

  /** Reading and printing are inverse: printing the pieces of a template gives it back, and
      its pieces are the only canonical reading of it. */
  lemma {:induction false} PrintOfPieces(s: string)
    ensures Print(Pieces(s)) == s && Canonical(Pieces(s))
    decreases |s|
  {
    if s != [] {
      match HoleAt(s) {
        case Some(name) =>
          PrintOfPieces(s[|name| + 2..]);
        case None =>
          PrintOfPieces(s[1..]);
          assert s == [s[0]] + s[1..];
      }
    }
  }

  lemma PiecesOfHole(name: string, rest: string)
    requires name != [] && BraceFree(name)
    ensures Pieces("{" + name + "}" + rest) == [Hole(name)] + Pieces(rest)
  {
    var s := "{" + name + "}" + rest;
    HoleIsFound(name, rest);
    assert s[|name| + 2..] == rest;
  }

  lemma PiecesOfLit(c: char, rest: string)
    requires HoleAt([c] + rest).None?
    ensures Pieces([c] + rest) == [Lit(c)] + Pieces(rest)
  {
    assert ([c] + rest)[1..] == rest;
  }

  lemma {:induction false} PiecesOfPrint(ps: seq<Piece>)
    requires Canonical(ps)
    ensures Pieces(Print(ps)) == ps
  {
    if ps != [] {
      PiecesOfPrint(ps[1..]);
      match ps[0] {
        case Hole(name) => PiecesOfHole(name, Print(ps[1..]));
        case Lit(c) => PiecesOfLit(c, Print(ps[1..]));
      }
      assert ps == [ps[0]] + ps[1..];
    }
  }

  // ---------- what substitution computes ----------

  ghost predicate AllSupplied(names: seq<string>, values: map<string, string>) {
    forall name :: name in names ==> name in values
  }

  /** Substitution succeeds exactly when every placeholder has a value, and then puts the values
      between the literals, without reading them again. */
  lemma {:induction false} SubstituteFills(s: string, values: map<string, string>)
    ensures Substitute(s, values).Ok? <==> AllSupplied(Names(Pieces(s)), values)
    ensures Substitute(s, values).Ok? ==> Substitute(s, values).value == Fill(Pieces(s), values)
    decreases |s|
  {
    if s != [] {
      match HoleAt(s) {
        case None =>
          SubstituteFills(s[1..], values);
          assert Pieces(s)[1..] == Pieces(s[1..]);
        case Some(name) =>
          var tail := s[|name| + 2..];
          SubstituteFills(tail, values);
          assert Pieces(s)[1..] == Pieces(tail);
          assert Names(Pieces(s)) == [name] + Names(Pieces(tail));
      }
    }
  }

  /** A failed substitution names the first placeholder that has no value. */
  lemma {:induction false} FirstMissingIsNamed(s: string, values: map<string, string>) returns (i: nat)
    requires Substitute(s, values).Err?
    ensures FirstMissing(Names(Pieces(s)), values.Keys, i) && Names(Pieces(s))[i] == Substitute(s, values).error
    decreases |s|
  {
    match HoleAt(s) {
      case None =>
        i := FirstMissingIsNamed(s[1..], values);
        assert Pieces(s)[1..] == Pieces(s[1..]);
      case Some(name) =>
        var tail := s[|name| + 2..];
        assert Pieces(s)[1..] == Pieces(tail);
        assert Names(Pieces(s)) == [name] + Names(Pieces(tail));
        i := 0;
        if name in values {
          var k := FirstMissingIsNamed(tail, values);
          i := k + 1;
        }
    }
  }

  ghost predicate FirstMissing(names: seq<string>, given: set<string>, i: nat) {
    && i < |names| && names[i] !in given
    && forall j :: 0 <= j < i ==> names[j] in given
  }

  function Concat(parts: seq<string>): string {
    if parts == [] then [] else parts[0] + Concat(parts[1..])
  }

  predicate IsPart(piece: Piece, values: map<string, string>, part: string) {
    match piece
    case Lit(c) => part == [c]
    case Hole(name) => name in values && part == values[name]
  }

  /** A filled template is one part for each piece: a literal's character, a placeholder's value. */
  lemma {:induction false} FillIsPartByPart(ps: seq<Piece>, values: map<string, string>) returns (parts: seq<string>)
    requires AllSupplied(Names(ps), values)
    ensures Fill(ps, values) == Concat(parts) && |parts| == |ps|
    ensures forall i :: 0 <= i < |ps| ==> IsPart(ps[i], values, parts[i])
  {
    if ps == [] {
      parts := [];
    } else {
      var rest := FillIsPartByPart(ps[1..], values);
      parts := [match ps[0] case Lit(c) => [c] case Hole(name) => values[name]] + rest;
      assert parts[1..] == rest;
    }
  }

  /** Giving each placeholder its own braced name changes nothing. */
  lemma {:induction false} IdentityOnOwnNames(s: string, values: map<string, string>)
    requires forall name :: name in Names(Pieces(s)) ==> name in values && values[name] == "{" + name + "}"
    ensures Substitute(s, values) == Ok(s)
    decreases |s|
  {
    if s != [] {
      match HoleAt(s) {
        case None =>
          assert Pieces(s)[1..] == Pieces(s[1..]);
          IdentityOnOwnNames(s[1..], values);
          assert [s[0]] + s[1..] == s;
        case Some(name) =>
          var tail := s[|name| + 2..];
          assert Pieces(s)[1..] == Pieces(tail);
          assert Names(Pieces(s)) == [name] + Names(Pieces(tail));
          IdentityOnOwnNames(tail, values);
          assert values[name] + tail == s;
      }
    }
  }

  ghost predicate OnlyHoleBraces(ps: seq<Piece>) {
    forall i :: 0 <= i < |ps| && ps[i].Lit? ==> !IsBrace(ps[i].c)
  }

  lemma {:induction false} FillIsBraceFree(ps: seq<Piece>, values: map<string, string>)
    requires OnlyHoleBraces(ps) && AllSupplied(Names(ps), values)
    requires forall name :: name in values ==> BraceFree(values[name])
    ensures BraceFree(Fill(ps, values))
  {
    if ps != [] {
      FillIsBraceFree(ps[1..], values);
    }
  }

  lemma {:induction false} BraceFreeHasNoHoles(s: string)
    requires BraceFree(s)
    ensures Names(Pieces(s)) == []
    decreases |s|
  {
    if s != [] {
      BraceFreeHasNoHoles(s[1..]);
      assert Pieces(s)[1..] == Pieces(s[1..]);
    }
  }

  /** When the template's only braces delimit placeholders and no value has a brace, the
      rendered path has none, so no placeholder is left to fill. */
  lemma NoPlaceholderRemains(s: string, values: map<string, string>)
    requires OnlyHoleBraces(Pieces(s)) && Substitute(s, values).Ok?
    requires forall name :: name in values ==> BraceFree(values[name])
    ensures BraceFree(Substitute(s, values).value)
    ensures Names(Pieces(Substitute(s, values).value)) == []
  {
    SubstituteFills(s, values);
    FillIsBraceFree(Pieces(s), values);
    BraceFreeHasNoHoles(Substitute(s, values).value);
  }
}
