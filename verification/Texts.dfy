/** Texts: letter case, runs of characters of one kind, slugs, stripping, and joining. Letters,
    case and white space are ASCII. */
module Texts {
  import opened Wrappers

  // ---------- letter case ----------

  function LowerChar(c: char): char {
    if 'A' <= c <= 'Z' then c - 'A' + 'a' else c
  }

  function Lower(s: string): (r: string)
    ensures |r| == |s|
  {
    seq(|s|, i requires 0 <= i < |s| => LowerChar(s[i]))
  }

  function UpperChar(c: char): char {
    if 'a' <= c <= 'z' then c - 'a' + 'A' else c
  }

  function Upper(s: string): (r: string)
    ensures |r| == |s|
  {
    seq(|s|, i requires 0 <= i < |s| => UpperChar(s[i]))
  }

  /** The letters of the other case, 32 apart, are replaced; everything else stays. */
  lemma CaseMeaning(s: string, i: nat)
    requires i < |s|
    ensures Lower(s)[i] as int == if 65 <= s[i] as int <= 90 then s[i] as int + 32 else s[i] as int
    ensures Upper(s)[i] as int == if 97 <= s[i] as int <= 122 then s[i] as int - 32 else s[i] as int
  {
  }

  // ---------- runs ----------

  /** The maximal runs of the characters that `p` accepts; `current` is the one being read. */
  function RunsOf(s: string, current: string, p: char -> bool): seq<string> {
    var done := if current == [] then [] else [current];
    if s == [] then done
    else if p(s[0]) then RunsOf(s[1..], current + [s[0]], p)
    else done + RunsOf(s[1..], [], p)
  }

  /** A gap, then each run followed by the next gap. */
  ghost function Weave(gaps: seq<string>, runs: seq<string>): string
    requires |gaps| == |runs| + 1
  {
    gaps[0] + if runs == [] then [] else runs[0] + Weave(gaps[1..], runs[1..])
  }

  ghost predicate Only(s: string, p: char -> bool) {
    forall i :: 0 <= i < |s| ==> p(s[i])
  }

  ghost predicate Never(s: string, p: char -> bool) {
    forall i :: 0 <= i < |s| ==> !p(s[i])
  }

  /** The text is the runs, of accepted characters, woven with gaps of other ones; only the first
      and the last gap may be empty, so no run could be longer or be left out. */
  ghost predicate MaximalRuns(s: string, gaps: seq<string>, runs: seq<string>, p: char -> bool) {
    && |gaps| == |runs| + 1 && s == Weave(gaps, runs)
    && (forall i :: 0 <= i < |runs| ==> runs[i] != [] && Only(runs[i], p))
    && (forall i :: 0 <= i < |gaps| ==> Never(gaps[i], p))
    && (forall i :: 0 < i < |runs| ==> gaps[i] != [])
  }

  lemma {:induction false} RunsAreMaximal(s: string, current: string, p: char -> bool) returns (gaps: seq<string>)
    requires Only(current, p)
    ensures MaximalRuns(current + s, gaps, RunsOf(s, current, p), p)
    decreases |s|
  {
    if s == [] {
      gaps := LastRun(current, p);
      assert current + s == current;
    } else if p(s[0]) {
      gaps := RunsAreMaximal(s[1..], current + [s[0]], p);
      assert current + s == (current + [s[0]]) + s[1..];
    } else {
      gaps := RunsAreMaximal(s[1..], [], p);
      assert [] + s[1..] == s[1..] && [s[0]] + s[1..] == s;
      gaps := RunThenGap(current, s[0], s[1..], gaps, RunsOf(s[1..], [], p), p);
    }
  }

  lemma LastRun(run: string, p: char -> bool) returns (gaps: seq<string>)
    requires Only(run, p)
    ensures MaximalRuns(run, gaps, if run == [] then [] else [run], p)
  {
    gaps := if run == [] then [[]] else [[]] + [[]];
    if run == [] {
      assert Weave(gaps, []) == [] + [];
    } else {
      assert gaps[1..] == [[]] && [run][1..] == [];
      assert Weave(gaps[1..], [run][1..]) == [] + [] == [];
      assert [] + (run + []) == run;
    }
  }

  lemma RunThenGap(run: string, c: char, s: string, rest: seq<string>, runs: seq<string>, p: char -> bool) returns (gaps: seq<string>)
    requires MaximalRuns(s, rest, runs, p) && !p(c) && Only(run, p)
    ensures MaximalRuns(run + ([c] + s), gaps, (if run == [] then [] else [run]) + runs, p)
  {
    gaps := GapGrows(c, s, rest, runs, p);
    if run == [] {
      assert run + ([c] + s) == [c] + s && [] + runs == runs;
    } else {
      RunBefore([c] + s, gaps, runs, run, p);
      gaps := [[]] + gaps;
    }
  }

  lemma GapGrows(c: char, s: string, rest: seq<string>, runs: seq<string>, p: char -> bool) returns (gaps: seq<string>)
    requires MaximalRuns(s, rest, runs, p) && !p(c)
    ensures MaximalRuns([c] + s, gaps, runs, p) && gaps[0] != []
  {
    gaps := [[c] + rest[0]] + rest[1..];
    assert gaps[1..] == rest[1..];
    assert Weave(gaps, runs) == [c] + s;
  }

  lemma RunBefore(s: string, gaps: seq<string>, runs: seq<string>, run: string, p: char -> bool)
    requires MaximalRuns(s, gaps, runs, p) && run != [] && Only(run, p) && gaps[0] != []
    ensures MaximalRuns(run + s, [[]] + gaps, [run] + runs, p)
  {
    assert ([[]] + gaps)[1..] == gaps && ([run] + runs)[1..] == runs;
    assert Weave([[]] + gaps, [run] + runs) == [] + (run + s) == run + s;
  }

  lemma RunsAfterFirst(s: string, gaps: seq<string>, runs: seq<string>, p: char -> bool) returns (rest: string)
    requires MaximalRuns(s, gaps, runs, p) && runs != []
    ensures s == gaps[0] + (runs[0] + rest) && MaximalRuns(rest, gaps[1..], runs[1..], p)
    ensures Never(gaps[0], p) && Only(runs[0], p) && runs[0] != [] && (runs[1..] == [] || gaps[1] != [])
  {
    rest := Weave(gaps[1..], runs[1..]);
  }

  lemma SameKind(s: string, gaps: seq<string>, runs: seq<string>, p: char -> bool, q: char -> bool)
    requires MaximalRuns(s, gaps, runs, p) && forall c :: p(c) == q(c)
    ensures MaximalRuns(s, gaps, runs, q)
  {
    forall i | 0 <= i < |runs|
      ensures Only(runs[i], q)
    {
      assert Only(runs[i], p);
    }
    forall i | 0 <= i < |gaps|
      ensures Never(gaps[i], q)
    {
      assert Never(gaps[i], p);
    }
  }

  // ---------- slugs ----------

  predicate IsSlugChar(c: char) {
    'a' <= c <= 'z' || '0' <= c <= '9'
  }

  /** Replaces each run of other characters by one underscore; `inRun` says that the
      underscore of the current run has been written. */
  function Collapse(s: string, inRun: bool): string {
    if s == [] then []
    else if IsSlugChar(s[0]) then [s[0]] + Collapse(s[1..], false)
    else if inRun then Collapse(s[1..], true)
    else "_" + Collapse(s[1..], true)
  }

  function StripLeft(s: string, c: char): string {
    if s != [] && s[0] == c then StripLeft(s[1..], c) else s
  }

  function StripRight(s: string, c: char): string {
    if s != [] && s[|s| - 1] == c then StripRight(s[..|s| - 1], c) else s
  }

  function Slug(value: string): string {
    StripRight(StripLeft(Collapse(Lower(value), false), '_'), '_')
  }

  /** Slug characters separated by single underscores. */
  ghost predicate IsSlug(s: string) {
    && (forall i :: 0 <= i < |s| ==> IsSlugChar(s[i]) || s[i] == '_')
    && (forall i :: 0 <= i < |s| - 1 ==> s[i] != '_' || s[i + 1] != '_')
    && (s != [] ==> s[0] != '_' && s[|s| - 1] != '_')
  }

  ghost predicate Separated(s: string) {
    && (forall i :: 0 <= i < |s| ==> IsSlugChar(s[i]) || s[i] == '_')
    && (forall i :: 0 <= i < |s| - 1 ==> s[i] != '_' || s[i + 1] != '_')
  }

  lemma {:induction false} CollapseSeparates(s: string, inRun: bool)
    ensures Separated(Collapse(s, inRun))
    ensures inRun && Collapse(s, inRun) != [] ==> Collapse(s, inRun)[0] != '_'
  {
    if s != [] {
      CollapseSeparates(s[1..], false);
      CollapseSeparates(s[1..], true);
    }
  }

  lemma {:induction false} CollapseKeeps(s: string, inRun: bool)
    requires Separated(s) && (inRun && s != [] ==> s[0] != '_')
    ensures Collapse(s, inRun) == s
  {
    if s != [] {
      CollapseKeeps(s[1..], s[0] == '_');
      assert s == [s[0]] + s[1..];
    }
  }

  lemma {:induction false} StripLeftSeparates(s: string)
    requires Separated(s)
    ensures Separated(StripLeft(s, '_')) && (StripLeft(s, '_') != [] ==> StripLeft(s, '_')[0] != '_')
  {
    if s != [] && s[0] == '_' {
      StripLeftSeparates(s[1..]);
    }
  }

  lemma {:induction false} StripRightSeparates(s: string)
    requires Separated(s) && (s != [] ==> s[0] != '_')
    ensures IsSlug(StripRight(s, '_'))
  {
    if s != [] && s[|s| - 1] == '_' {
      StripRightSeparates(s[..|s| - 1]);
    }
  }

  /** A slug has the shape of one, and is its own slug. */
  lemma SlugIsNormalForm(value: string)
    ensures IsSlug(Slug(value))
    ensures IsSlug(value) ==> Slug(value) == value
    ensures Slug(Slug(value)) == Slug(value)
  {
    CollapseSeparates(Lower(value), false);
    StripLeftSeparates(Collapse(Lower(value), false));
    StripRightSeparates(StripLeft(Collapse(Lower(value), false), '_'));
    if IsSlug(value) {
      SlugOfSlug(value);
    }
    SlugOfSlug(Slug(value));
  }

  lemma SlugOfSlug(s: string)
    requires IsSlug(s)
    ensures Slug(s) == s
  {
    assert Lower(s) == s;
    CollapseKeeps(s, false);
  }

  lemma {:induction false} CollapseGap(gap: string, rest: string, inRun: bool)
    requires Never(gap, IsSlugChar)
    ensures Collapse(gap + rest, inRun) == (if gap == [] || inRun then [] else "_") + Collapse(rest, inRun || gap != [])
  {
    if gap == [] {
      assert gap + rest == rest;
    } else {
      assert (gap + rest)[1..] == gap[1..] + rest;
      CollapseGap(gap[1..], rest, true);
    }
  }

  lemma {:induction false} CollapseRun(run: string, rest: string, inRun: bool)
    requires Only(run, IsSlugChar) && run != []
    ensures Collapse(run + rest, inRun) == run + Collapse(rest, false)
  {
    assert (run + rest)[1..] == run[1..] + rest;
    if |run| == 1 {
      assert run[1..] + rest == rest;
    } else {
      CollapseRun(run[1..], rest, false);
    }
  }

  /** The parts that are not empty, with an underscore before each. */
  ghost function Glued(parts: seq<string>): string {
    if parts == [] then []
    else (if parts[0] == [] then [] else "_" + parts[0]) + Glued(parts[1..])
  }

  function Tail(gaps: seq<string>): string
    requires gaps != []
  {
    if gaps[|gaps| - 1] == [] then [] else "_"
  }

  lemma {:induction false} CollapseWoven(s: string, gaps: seq<string>, runs: seq<string>)
    requires MaximalRuns(s, gaps, runs, IsSlugChar) && (runs == [] || gaps[0] != [])
    ensures Collapse(s, false) == Glued(runs) + Tail(gaps)
    decreases |runs|
  {
    if runs == [] {
      CollapseGap(gaps[0], [], false);
      assert gaps[0] + [] == gaps[0];
    } else {
      var rest := RunsAfterFirst(s, gaps, runs, IsSlugChar);
      CollapseWoven(rest, gaps[1..], runs[1..]);
      CollapseFirst(gaps[0], runs[0], rest);
      Regrouped("_", runs[0], Glued(runs[1..]), Tail(gaps));
    }
  }

  lemma Regrouped(a: string, b: string, c: string, d: string)
    ensures a + (b + (c + d)) == a + b + c + d
  {
  }

  lemma {:induction false} GluedEnds(runs: seq<string>)
    requires runs != [] && forall i :: 0 <= i < |runs| ==> runs[i] != [] && Only(runs[i], IsSlugChar)
    ensures |Glued(runs)| >= 2 && IsSlugChar(Glued(runs)[1]) && IsSlugChar(Glued(runs)[|Glued(runs)| - 1])
  {
    assert Only(runs[0], IsSlugChar);
    if |runs| > 1 {
      GluedEnds(runs[1..]);
    }
  }

  /** A slug is the text in lower case with its maximal runs of a to z and 0 to 9 joined by single
      underscores, and nothing else of it. */
  lemma SlugMeaning(value: string) returns (gaps: seq<string>, runs: seq<string>)
    ensures MaximalRuns(Lower(value), gaps, runs, c => 'a' <= c <= 'z' || '0' <= c <= '9')
    ensures if runs == [] then Slug(value) == [] else "_" + Slug(value) == Glued(runs)
  {
    var s := Lower(value);
    runs := RunsOf(s, [], IsSlugChar);
    gaps := RunsAreMaximal(s, [], IsSlugChar);
    assert [] + s == s;
    if runs == [] {
      CollapseWoven(s, gaps, runs);
      assert StripLeft("_", '_') == [];
    } else {
      StrippedIsGlued(s, gaps, runs);
    }
    SameKind(s, gaps, runs, IsSlugChar, c => 'a' <= c <= 'z' || '0' <= c <= '9');
  }

  lemma CollapseAfterFirst(s: string, gaps: seq<string>, runs: seq<string>)
    requires MaximalRuns(s, gaps, runs, IsSlugChar) && runs != []
    ensures Collapse(s, false) == (if gaps[0] == [] then [] else "_") + (Glued(runs)[1..] + Tail(gaps))
  {
    var rest := RunsAfterFirst(s, gaps, runs, IsSlugChar);
    CollapseWoven(rest, gaps[1..], runs[1..]);
    CollapseFirst(gaps[0], runs[0], rest);
    GluedFirst(runs);
    Regroup(runs[0], Glued(runs[1..]), Tail(gaps));
  }

  lemma GluedFirst(runs: seq<string>)
    requires runs != [] && runs[0] != []
    ensures Glued(runs) != [] && Glued(runs)[1..] == runs[0] + Glued(runs[1..])
  {
    WithoutHead(runs[0], Glued(runs[1..]));
  }

  lemma WithoutHead(a: string, b: string)
    ensures ("_" + a + b)[1..] == a + b
  {
  }

  lemma CollapseFirst(gap: string, run: string, rest: string)
    requires Never(gap, IsSlugChar) && Only(run, IsSlugChar) && run != []
    ensures Collapse(gap + (run + rest), false) == (if gap == [] then [] else "_") + (run + Collapse(rest, false))
  {
    CollapseGap(gap, run + rest, false);
    CollapseRun(run, rest, gap != []);
  }

  lemma StrippedIsGlued(s: string, gaps: seq<string>, runs: seq<string>)
    requires MaximalRuns(s, gaps, runs, IsSlugChar) && runs != []
    ensures "_" + StripRight(StripLeft(Collapse(s, false), '_'), '_') == Glued(runs)
  {
    CollapseAfterFirst(s, gaps, runs);
    GluedEnds(runs);
    StripBoth(if gaps[0] == [] then [] else "_", Glued(runs)[1..], Tail(gaps));
    assert "_" + Glued(runs)[1..] == Glued(runs);
  }

  lemma StripBoth(before: string, inner: string, after: string)
    requires before == [] || before == "_"
    requires after == [] || after == "_"
    requires inner != [] && inner[0] != '_' && inner[|inner| - 1] != '_'
    ensures StripRight(StripLeft(before + (inner + after), '_'), '_') == inner
  {
    var right := inner + after;
    assert StripLeft(right, '_') == right;
    if before == [] {
      assert before + right == right;
    } else {
      assert ("_" + right)[1..] == right;
    }
    assert StripRight(inner, '_') == inner;
    if after == [] {
      assert right == inner;
    } else {
      assert right[..|right| - 1] == inner;
    }
  }

  // ---------- white space and lines ----------

  predicate IsSpace(c: char) {
    c == ' ' || c == '\t' || c == '\n' || c == '\r' || c == 11 as char || c == 12 as char || 28 as char <= c <= 31 as char
  }

  function TrimLeft(s: string): string {
    if s != [] && IsSpace(s[0]) then TrimLeft(s[1..]) else s
  }

  function TrimRight(s: string): string {
    if s != [] && IsSpace(s[|s| - 1]) then TrimRight(s[..|s| - 1]) else s
  }

  function Trim(s: string): string {
    TrimRight(TrimLeft(s))
  }

  function FirstLine(s: string): string {
    if s == [] || s[0] == '\n' then [] else [s[0]] + FirstLine(s[1..])
  }

  // ---------- parts ----------

  function Join(parts: seq<string>, sep: string): string {
    if parts == [] then []
    else if |parts| == 1 then parts[0]
    else parts[0] + sep + Join(parts[1..], sep)
  }

  predicate IsPart(part: string) {
    part != []
  }

  /** The parts, each with the separator before it. */
  ghost function Led(parts: seq<string>, sep: string): string {
    if parts == [] then [] else sep + parts[0] + Led(parts[1..], sep)
  }

  /** Joining puts the separator between the parts and nowhere else. */
  lemma {:induction false} JoinMeaning(parts: seq<string>, sep: string)
    ensures if parts == [] then Join(parts, sep) == [] else sep + Join(parts, sep) == Led(parts, sep)
  {
    if |parts| > 1 {
      JoinMeaning(parts[1..], sep);
    } else if |parts| == 1 {
      assert Led(parts[1..], sep) == [];
    }
  }

  lemma {:induction false} GluedAppend(a: seq<string>, b: seq<string>)
    ensures Glued(a + b) == Glued(a) + Glued(b)
  {
    if a == [] {
      assert a + b == b;
    } else {
      assert (a + b)[1..] == a[1..] + b;
      GluedAppend(a[1..], b);
    }
  }

  lemma {:induction false} GluedKept(parts: seq<string>)
    ensures Glued(Kept(parts, IsPart)) == Glued(parts)
  {
    if parts != [] {
      var before, last := parts[..|parts| - 1], parts[|parts| - 1];
      assert parts == before + [last];
      GluedKept(before);
      GluedAppend(before, [last]);
      GluedAppend(Kept(before, IsPart), [last]);
      if last == [] {
        assert Kept(before, IsPart) + [] == Kept(before, IsPart);
      }
    }
  }

  lemma {:induction false} JoinIsGlued(parts: seq<string>)
    requires parts != [] && [] !in parts
    ensures "_" + Join(parts, "_") == Glued(parts)
  {
    assert parts[0] != [];
    if |parts| > 1 {
      JoinIsGlued(parts[1..]);
    } else {
      assert Glued(parts[1..]) == [];
    }
  }

  lemma {:induction false} TrimLeftMeaning(s: string) returns (before: string)
    ensures s == before + TrimLeft(s) && Only(before, IsSpace)
    ensures TrimLeft(s) != [] ==> !IsSpace(TrimLeft(s)[0])
  {
    if s != [] && IsSpace(s[0]) {
      before := TrimLeftMeaning(s[1..]);
      before := [s[0]] + before;
    } else {
      before := [];
    }
  }

  lemma {:induction false} TrimRightMeaning(s: string) returns (after: string)
    ensures s == TrimRight(s) + after && Only(after, IsSpace)
    ensures TrimRight(s) != [] ==> !IsSpace(TrimRight(s)[|TrimRight(s)| - 1])
  {
    if s != [] && IsSpace(s[|s| - 1]) {
      after := TrimRightMeaning(s[..|s| - 1]);
      after := after + [s[|s| - 1]];
    } else {
      after := [];
    }
  }

  /** A text, stripped: what is left begins and ends with something that is no white space. */
  ghost predicate Strips(s: string, stripped: string, space: set<int>) {
    && (exists before, after :: Surrounds(before, after, s, stripped, space))
    && (stripped != [] ==> stripped[0] as int !in space && stripped[|stripped| - 1] as int !in space)
  }

  ghost predicate Surrounds(before: string, after: string, s: string, stripped: string, space: set<int>) {
    && s == before + stripped + after
    && (forall i :: 0 <= i < |before| ==> before[i] as int in space)
    && (forall i :: 0 <= i < |after| ==> after[i] as int in space)
  }

  lemma TrimMeaning(s: string)
    ensures Strips(s, Trim(s), {9, 10, 11, 12, 13, 28, 29, 30, 31, 32})
  {
    var space := {9, 10, 11, 12, 13, 28, 29, 30, 31, 32};
    assert forall c: char :: IsSpace(c) <==> c as int in space;
    var before := TrimLeftMeaning(s);
    var after := TrimRightMeaning(TrimLeft(s));
    assert Surrounds(before, after, s, Trim(s), space);
  }

  /** The text up to its first line break. */
  lemma {:induction false} FirstLineMeaning(s: string)
    ensures FirstLine(s) <= s && '\n' !in FirstLine(s)
    ensures FirstLine(s) == s || s[|FirstLine(s)|] == '\n'
  {
    if s != [] && s[0] != '\n' {
      FirstLineMeaning(s[1..]);
    }
  }
}
