/** The summary cache against the log of the calls made on it: what a hit means, and exactly
    when a value is missing. */
module SummaryCacheHistory {
  import opened Wrappers
  import opened SummaryCache

  datatype Call = Get(key: Key, now: Time) | Set(key: Key, text: string, now: Time)

  function Apply(entries: seq<Entry>, c: Call): seq<Entry> {
    match c
    case Get(key, now) => AfterGet(entries, key, now)
    case Set(key, text, now) => AfterSet(entries, key, text, now)
  }

  function After(log: seq<Call>): seq<Entry> {
    if log == [] then [] else Apply(After(log[..|log| - 1]), log[|log| - 1])
  }

  ghost predicate ClockAdvances(log: seq<Call>) {
    forall i, j :: 0 <= i < j < |log| ==> log[i].now <= log[j].now
  }

  // ---------- what the log and the answers say ----------

  /** The latest value set for `key`, with the time it was set. */
  function LastSet(log: seq<Call>, key: Key): Option<Entry> {
    if log == [] then None
    else
      var c := log[|log| - 1];
      if c.Set? && c.key == key then Some(Entry(key, c.now, c.text)) else LastSet(log[..|log| - 1], key)
  }

  /** A call touches its key when it sets it or is answered. */
  predicate Touches(before: seq<Call>, c: Call) {
    c.Set? || Answer(After(before), c.key, c.now).Some?
  }

  /** The other keys touched since `key` was last touched. */
  function TouchedSince(log: seq<Call>, key: Key): set<Key> {
    if log == [] then {}
    else
      var before, c := log[..|log| - 1], log[|log| - 1];
      if !Touches(before, c) then TouchedSince(before, key)
      else if c.key == key then {}
      else TouchedSince(before, key) + {c.key}
  }

  /** These keys, less those that a later get did not find any more. */
  function Behind(log: seq<Call>, key: Key): set<Key> {
    if log == [] then {}
    else
      var before, c := log[..|log| - 1], log[|log| - 1];
      if !Touches(before, c) then Behind(before, key) - {c.key}
      else if c.key == key then {}
      else Behind(before, key) + {c.key}
  }

  /** Since `key` was last touched, as many keys as the cache holds have stood behind it at once. */
  predicate PushedOut(log: seq<Call>, key: Key) {
    if log == [] then false
    else
      var before, c := log[..|log| - 1], log[|log| - 1];
      if Touches(before, c) && c.key == key then false
      else PushedOut(before, key) || |Behind(log, key)| >= 256
  }

  // ---------- agreement of the map with the log ----------

  ghost predicate Agrees(log: seq<Call>, entries: seq<Entry>) {
    && OncePerKey(entries) && |entries| <= MAX_KEYS
    && (forall e :: e in entries ==> LastSet(log, e.key) == Some(e))
    && BehindIs(log, entries)
    && (forall key :: Has(entries, key) ==> !PushedOut(log, key))
  }

  /** Behind a key stand the keys that come after it in the map. */
  ghost predicate BehindIs(log: seq<Call>, entries: seq<Entry>) {
    forall key, k :: Has(entries, key) ==> (k in Behind(log, key) <==> Comes(entries, key, k))
  }

  predicate Comes(entries: seq<Entry>, first: Key, second: Key) {
    Has(entries, second) && Find(entries, first) < Find(entries, second)
  }

  /** `key` is missing for a reason: never set, too old, or pushed out. */
  ghost predicate Excused(log: seq<Call>, key: Key, now: Time) {
    || LastSet(log, key).None?
    || now - LastSet(log, key).value.inserted > 30.0
    || PushedOut(log, key)
  }

  ghost predicate AbsentExcused(log: seq<Call>, entries: seq<Entry>, now: Time) {
    forall key :: !Has(entries, key) ==> Excused(log, key, now)
  }

  // ---------- positions ----------

  lemma FoundAt(entries: seq<Entry>, i: nat)
    requires OncePerKey(entries) && i < |entries|
    ensures Find(entries, entries[i].key) == i
  {
    FindIs(entries, entries[i].key, i);
  }

  lemma HasAt(entries: seq<Entry>, i: nat)
    requires i < |entries|
    ensures Has(entries, entries[i].key)
  {
  }

  /** Where the entries of the shortened map come from. */
  lemma WithoutAt(entries: seq<Entry>, gone: Key)
    ensures var rest, p := Without(entries, gone), Find(entries, gone);
            forall j :: 0 <= j < |rest| ==> (if j < p then j else j + 1) < |entries| && rest[j] == entries[if j < p then j else j + 1]
  {
  }

  lemma FindWithout(entries: seq<Entry>, gone: Key, key: Key)
    requires OncePerKey(entries)
    ensures !Has(Without(entries, gone), gone)
    ensures key != gone ==> (Has(Without(entries, gone), key) <==> Has(entries, key))
    ensures key != gone && Has(entries, key) ==>
              Find(Without(entries, gone), key) == Find(entries, key) - if Find(entries, gone) < Find(entries, key) then 1 else 0
  {
    WithoutKeepsDistinct(entries, gone);
    if key != gone && Has(entries, key) {
      FindOther(entries, gone, key);
    }
    if key != gone && Has(Without(entries, gone), key) {
      var j, p := Find(Without(entries, gone), key), Find(entries, gone);
      WithoutAt(entries, gone);
      HasAt(entries, if j < p then j else j + 1);
    }
  }

  lemma FindOther(entries: seq<Entry>, gone: Key, key: Key)
    requires OncePerKey(entries) && key != gone && Has(entries, key)
    ensures Find(Without(entries, gone), key) == Find(entries, key) - if Find(entries, gone) < Find(entries, key) then 1 else 0
    ensures Has(Without(entries, gone), key)
  {
    var i, p := Find(entries, key), Find(entries, gone);
    WithoutKeepsDistinct(entries, gone);
    var i' := if p < i then i - 1 else i;
    assert Without(entries, gone)[i'] == entries[i];
    FoundAt(Without(entries, gone), i');
  }

  lemma FindAppend(rest: seq<Entry>, e: Entry, key: Key)
    requires OncePerKey(rest) && !Has(rest, e.key)
    ensures OncePerKey(rest + [e])
    ensures Has(rest, key) ==> Find(rest + [e], key) == Find(rest, key)
    ensures Find(rest + [e], e.key) == |rest|
    ensures Has(rest + [e], key) <==> Has(rest, key) || key == e.key
  {
    FoundAt(rest + [e], |rest|);
    if Has(rest, key) {
      FoundAt(rest + [e], Find(rest, key));
    }
  }

  lemma FindRest(all: seq<Entry>, key: Key)
    requires OncePerKey(all) && all != []
    ensures OncePerKey(all[1..])
    ensures Has(all[1..], key) <==> Has(all, key) && key != all[0].key
    ensures Has(all[1..], key) ==> Find(all, key) == Find(all[1..], key) + 1
  {
    FoundAt(all, 0);
    if Has(all[1..], key) {
      FoundAt(all, Find(all[1..], key) + 1);
    }
    if Has(all, key) && key != all[0].key {
      FoundAt(all[1..], Find(all, key) - 1);
    }
  }

  function Keys(entries: seq<Entry>): set<Key> {
    set e | e in entries :: e.key
  }

  lemma {:induction false} KeyCount(entries: seq<Entry>)
    requires OncePerKey(entries)
    ensures |Keys(entries)| == |entries|
  {
    if entries == [] {
      assert Keys(entries) == {};
    } else {
      KeyCount(entries[1..]);
      assert Keys(entries) == Keys(entries[1..]) + {entries[0].key};
    }
  }

  lemma HasIsKey(entries: seq<Entry>, key: Key)
    ensures Has(entries, key) <==> key in Keys(entries)
  {
    if key in Keys(entries) {
      var e :| e in entries && e.key == key;
      var i :| 0 <= i < |entries| && entries[i] == e;
    }
  }

  lemma SmallerSet(a: set<Key>, b: set<Key>)
    requires a <= b
    ensures |a| <= |b|
  {
    assert b == a + (b - a);
  }

  // ---------- one call ----------

  /** The call `c` at the end of the log, seen from another key. */
  lemma CallOnOther(before: seq<Call>, c: Call, key: Key)
    requires key != c.key
    ensures LastSet(before + [c], key) == LastSet(before, key)
    ensures Behind(before + [c], key) == if Touches(before, c) then Behind(before, key) + {c.key} else Behind(before, key) - {c.key}
    ensures TouchedSince(before + [c], key) == TouchedSince(before, key) + if Touches(before, c) then {c.key} else {}
    ensures PushedOut(before + [c], key) <==> PushedOut(before, key) || |Behind(before + [c], key)| >= MAX_KEYS
  {
    var log := before + [c];
    assert log[..|log| - 1] == before;
  }

  lemma CallOnItself(before: seq<Call>, c: Call)
    ensures Touches(before, c) ==> Behind(before + [c], c.key) == {} && !PushedOut(before + [c], c.key)
    ensures !Touches(before, c) && PushedOut(before, c.key) ==> PushedOut(before + [c], c.key)
    ensures c.Get? ==> LastSet(before + [c], c.key) == LastSet(before, c.key)
    ensures c.Set? ==> LastSet(before + [c], c.key) == Some(Entry(c.key, c.now, c.text))
  {
    var log := before + [c];
    assert log[..|log| - 1] == before;
  }

  /** Touching a key puts it behind every other. */
  lemma TouchOrders(before: seq<Call>, c: Call, entries: seq<Entry>, e: Entry)
    requires OncePerKey(entries) && BehindIs(before, entries) && Touches(before, c) && e.key == c.key
    ensures OncePerKey(Without(entries, c.key) + [e]) && BehindIs(before + [c], Without(entries, c.key) + [e])
  {
    var rest := Without(entries, c.key);
    WithoutKeepsDistinct(entries, c.key);
    FindAppend(rest, e, c.key);
    forall key, k | Has(rest + [e], key)
      ensures k in Behind(before + [c], key) <==> Comes(rest + [e], key, k)
    {
      CallOnItself(before, c);
      if key == c.key {
        FindAppend(rest, e, k);
      } else {
        TouchedComesAfter(before, c, entries, e, key, k);
      }
    }
  }

  lemma TouchedComesAfter(before: seq<Call>, c: Call, entries: seq<Entry>, e: Entry, key: Key, k: Key)
    requires OncePerKey(entries) && BehindIs(before, entries) && Touches(before, c) && e.key == c.key
    requires key != c.key && Has(Without(entries, c.key) + [e], key)
    ensures k in Behind(before + [c], key) <==> Comes(Without(entries, c.key) + [e], key, k)
  {
    var rest := Without(entries, c.key);
    WithoutKeepsDistinct(entries, c.key);
    FindAppend(rest, e, key);
    FindAppend(rest, e, k);
    FindWithout(entries, c.key, key);
    FindWithout(entries, c.key, k);
    CallOnOther(before, c, key);
    assert k in Behind(before, key) <==> Comes(entries, key, k);
  }

  /** A get that finds nothing takes its key out of the order. */
  lemma RemovalOrders(before: seq<Call>, c: Call, entries: seq<Entry>)
    requires OncePerKey(entries) && BehindIs(before, entries) && !Touches(before, c)
    ensures BehindIs(before + [c], Without(entries, c.key))
  {
    var rest := Without(entries, c.key);
    forall key, k | Has(rest, key)
      ensures k in Behind(before + [c], key) <==> Comes(rest, key, k)
    {
      FindWithout(entries, c.key, key);
      FindWithout(entries, c.key, k);
      CallOnOther(before, c, key);
      assert k in Behind(before, key) <==> Comes(entries, key, k);
    }
  }

  /** The front has the whole rest of the map behind it. */
  lemma FrontIsPushed(log: seq<Call>, all: seq<Entry>)
    requires OncePerKey(all) && BehindIs(log, all) && |all| == MAX_KEYS + 1
    ensures |Behind(log, all[0].key)| >= MAX_KEYS
  {
    FoundAt(all, 0);
    forall k | k in Keys(all[1..])
      ensures k in Behind(log, all[0].key)
    {
      HasIsKey(all[1..], k);
      FindRest(all, k);
    }
    KeyCount(all[1..]);
    SmallerSet(Keys(all[1..]), Behind(log, all[0].key));
  }

  lemma DroppingFrontOrders(log: seq<Call>, all: seq<Entry>)
    requires OncePerKey(all) && BehindIs(log, all) && all != []
    ensures BehindIs(log, all[1..])
  {
    FoundAt(all, 0);
    forall key, k | Has(all[1..], key)
      ensures k in Behind(log, key) <==> Comes(all[1..], key, k)
    {
      FindRest(all, key);
      FindRest(all, k);
    }
  }

  /** What is in the map has fewer keys behind it than the cache holds. */
  lemma FewBehind(log: seq<Call>, entries: seq<Entry>, key: Key)
    requires OncePerKey(entries) && BehindIs(log, entries) && |entries| <= MAX_KEYS && Has(entries, key)
    ensures |Behind(log, key)| < MAX_KEYS
  {
    forall k | k in Behind(log, key)
      ensures k in Keys(entries) - {key}
    {
      HasIsKey(entries, k);
    }
    HasIsKey(entries, key);
    KeyCount(entries);
    SmallerSet(Behind(log, key), Keys(entries) - {key});
  }

  /** The entry that a touch puts last. */
  function TouchedEntry(entries: seq<Entry>, c: Call): (e: Entry)
    requires c.Set? || Has(entries, c.key)
    ensures e.key == c.key
  {
    if c.Set? then Entry(c.key, c.now, c.text) else entries[Find(entries, c.key)]
  }

  /** A touch moves its entry to the end and trims; any other get removes its key. */
  lemma WhatACallDoes(before: seq<Call>, c: Call, entries: seq<Entry>)
    requires OncePerKey(entries) && |entries| <= MAX_KEYS && entries == After(before)
    ensures Touches(before, c) ==>
              && (c.Set? || Has(entries, c.key))
              && |Without(entries, c.key)| + 1 <= MAX_KEYS + 1
              && Apply(entries, c) == Trimmed(Without(entries, c.key) + [TouchedEntry(entries, c)])
    ensures !Touches(before, c) ==> Apply(entries, c) == Without(entries, c.key)
  {
    WithoutKeepsDistinct(entries, c.key);
  }

  /** What a call leaves is ordered as the log says, and small enough. */
  lemma CallOrders(before: seq<Call>, c: Call, entries: seq<Entry>)
    requires Agrees(before, entries) && entries == After(before)
    ensures var after := Apply(entries, c);
            OncePerKey(after) && |after| <= MAX_KEYS && BehindIs(before + [c], after)
  {
    WhatACallDoes(before, c, entries);
    if Touches(before, c) {
      var e := TouchedEntry(entries, c);
      TouchOrders(before, c, entries, e);
      TrimmingOrders(before + [c], Without(entries, c.key) + [e]);
    } else {
      WithoutKeepsDistinct(entries, c.key);
      RemovalOrders(before, c, entries);
    }
  }

  lemma TrimmingOrders(log: seq<Call>, all: seq<Entry>)
    requires OncePerKey(all) && BehindIs(log, all) && |all| <= MAX_KEYS + 1
    ensures OncePerKey(Trimmed(all)) && |Trimmed(all)| <= MAX_KEYS && BehindIs(log, Trimmed(all))
  {
    if |all| > MAX_KEYS {
      DroppingFrontOrders(log, all);
    }
  }

  /** Exactly these keys are in the map after a call. */
  lemma CallKeys(before: seq<Call>, c: Call, entries: seq<Entry>, key: Key)
    requires Agrees(before, entries) && entries == After(before)
    ensures var after := Apply(entries, c);
            var all := Without(entries, c.key) + [Entry(c.key, c.now, "")];
            Has(after, key) <==>
              if !Touches(before, c) then Has(entries, key) && key != c.key
              else key == c.key || (Has(entries, key) && !(|all| > MAX_KEYS && key == all[0].key))
  {
    WhatACallDoes(before, c, entries);
    FindWithout(entries, c.key, key);
    if Touches(before, c) {
      TouchKeys(entries, TouchedEntry(entries, c), key);
    }
  }

  lemma TouchKeys(entries: seq<Entry>, e: Entry, key: Key)
    requires OncePerKey(entries) && |entries| <= MAX_KEYS
    ensures var all := Without(entries, e.key) + [e];
            Has(Trimmed(all), key) <==> key == e.key || (Has(entries, key) && !(|all| > MAX_KEYS && key == all[0].key))
  {
    var rest := Without(entries, e.key);
    WithoutKeepsDistinct(entries, e.key);
    FindWithout(entries, e.key, key);
    FindAppend(rest, e, key);
    if |rest + [e]| > MAX_KEYS {
      FindRest(rest + [e], key);
    }
  }

  lemma CallEntries(before: seq<Call>, c: Call, entries: seq<Entry>)
    requires Agrees(before, entries) && entries == After(before)
    ensures forall e :: e in Apply(entries, c) ==> LastSet(before + [c], e.key) == Some(e)
  {
    WhatACallDoes(before, c, entries);
    forall e | e in Apply(entries, c)
      ensures LastSet(before + [c], e.key) == Some(e)
    {
      if e.key != c.key {
        assert e in Without(entries, c.key);
        CallOnOther(before, c, e.key);
      } else {
        NotWithout(entries, c.key, e);
        CallOnItself(before, c);
      }
    }
  }

  lemma NotWithout(entries: seq<Entry>, key: Key, e: Entry)
    requires OncePerKey(entries) && e.key == key
    ensures e !in Without(entries, key)
  {
    WithoutKeepsDistinct(entries, key);
    HasIsKey(Without(entries, key), key);
  }

  /** One more call keeps the agreement, and keeps every absence excused. */
  lemma CallKeeps(before: seq<Call>, c: Call, entries: seq<Entry>, earlier: Time)
    requires Agrees(before, entries) && AbsentExcused(before, entries, earlier) && earlier <= c.now
    requires entries == After(before)
    ensures Agrees(before + [c], Apply(entries, c)) && AbsentExcused(before + [c], Apply(entries, c), c.now)
  {
    var log, after := before + [c], Apply(entries, c);
    CallOrders(before, c, entries);
    CallEntries(before, c, entries);
    CallOnItself(before, c);
    forall key
      ensures Has(after, key) ==> !PushedOut(log, key)
      ensures !Has(after, key) ==> Excused(log, key, c.now)
    {
      CallKeys(before, c, entries, key);
      if key != c.key {
        CallOnOther(before, c, key);
        if Has(after, key) {
          FewBehind(log, after, key);
        } else if Has(entries, key) {
          PushedByThisCall(before, c, entries, key);
        }
      } else if !Has(after, key) {
        AbsentAfterGet(before, c, entries, earlier);
      }
    }
  }

  lemma PushedByThisCall(before: seq<Call>, c: Call, entries: seq<Entry>, key: Key)
    requires Agrees(before, entries) && entries == After(before)
    requires key != c.key && Has(entries, key) && !Has(Apply(entries, c), key)
    ensures |Behind(before + [c], key)| >= MAX_KEYS
  {
    CallKeys(before, c, entries, key);
    WhatACallDoes(before, c, entries);
    var e := TouchedEntry(entries, c);
    TouchOrders(before, c, entries, e);
    FrontIsPushed(before + [c], Without(entries, c.key) + [e]);
  }

  lemma AbsentAfterGet(before: seq<Call>, c: Call, entries: seq<Entry>, earlier: Time)
    requires Agrees(before, entries) && AbsentExcused(before, entries, earlier) && earlier <= c.now
    requires entries == After(before) && !Touches(before, c)
    ensures Excused(before + [c], c.key, c.now)
  {
    CallOnItself(before, c);
    if Has(entries, c.key) {
      assert entries[Find(entries, c.key)] in entries;
    }
  }

  lemma {:induction false} LogAgrees(log: seq<Call>, now: Time)
    requires ClockAdvances(log) && (log != [] ==> log[|log| - 1].now <= now)
    ensures Agrees(log, After(log)) && AbsentExcused(log, After(log), now)
  {
    if log != [] {
      var before, c := log[..|log| - 1], log[|log| - 1];
      LogAgrees(before, c.now);
      assert log == before + [c];
      CallKeeps(before, c, After(before), c.now);
      assert AbsentExcused(log, After(log), c.now);
    }
  }

  // ---------- the theorems ----------

  /** After any calls there are at most 256 entries, one per key. */
  lemma Bounded(log: seq<Call>)
    requires ClockAdvances(log)
    ensures |After(log)| <= 256 && OncePerKey(After(log))
  {
    LogAgrees(log, if log == [] then 0.0 else log[|log| - 1].now);
  }

  /** A hit returns the value set last for the key, set at most 30 seconds ago: reading an
      entry does not make it younger. */
  lemma HitIsLatestAndFresh(log: seq<Call>, key: Key, now: Time)
    requires ClockAdvances(log) && (log != [] ==> log[|log| - 1].now <= now)
    requires Answer(After(log), key, now).Some?
    ensures LastSet(log, key).Some?
    ensures Answer(After(log), key, now) == Some(LastSet(log, key).value.text)
    ensures now - LastSet(log, key).value.inserted <= 30.0
  {
    LogAgrees(log, now);
    assert After(log)[Find(After(log), key)] in After(log);
  }

  /** A key set at most 30 seconds ago is missing exactly when, since it was last touched, 256
      other keys have stood behind it at once. */
  lemma MissExactlyWhenPushedOut(log: seq<Call>, key: Key, now: Time)
    requires ClockAdvances(log) && (log != [] ==> log[|log| - 1].now <= now)
    requires LastSet(log, key).Some? && now - LastSet(log, key).value.inserted <= 30.0
    ensures Answer(After(log), key, now).None? <==> PushedOut(log, key)
  {
    LogAgrees(log, now);
    if Has(After(log), key) {
      assert After(log)[Find(After(log), key)] in After(log);
    }
  }

  /** So it is missing only if at least 256 other keys were touched since then. */
  lemma MissMeansManyTouched(log: seq<Call>, key: Key, now: Time)
    requires ClockAdvances(log) && (log != [] ==> log[|log| - 1].now <= now)
    requires LastSet(log, key).Some? && now - LastSet(log, key).value.inserted <= 30.0
    requires Answer(After(log), key, now).None?
    ensures |TouchedSince(log, key)| >= 256 && key !in TouchedSince(log, key)
  {
    MissExactlyWhenPushedOut(log, key, now);
    PushedOutIsMany(log, key);
  }

  lemma {:induction false} PushedOutIsMany(log: seq<Call>, key: Key)
    ensures Behind(log, key) <= TouchedSince(log, key) && key !in TouchedSince(log, key)
    ensures PushedOut(log, key) ==> |TouchedSince(log, key)| >= 256
  {
    if log != [] {
      PushedOutIsMany(log[..|log| - 1], key);
      SmallerSet(Behind(log, key), TouchedSince(log, key));
      if !(Touches(log[..|log| - 1], log[|log| - 1]) && log[|log| - 1].key == key) {
        SmallerSet(TouchedSince(log[..|log| - 1], key), TouchedSince(log, key));
      }
    }
  }

  // ---------- many touched, and still there ----------
  //
  // A key touched behind the target is then found expired and leaves; 255 more are set, and
  // the target, just 30 seconds old, is still there though 256 others have been touched.

  const TARGET := Key(0, "all", [])
  const PASSING := Key(1, "all", [])

  const OPENING: seq<Call> := [Set(PASSING, "", 0.0), Set(TARGET, "kept", 1.0), Get(PASSING, 2.0), Get(PASSING, 31.0)]

  function Filler(n: nat): Key {
    Key(n + 1, "all", [])
  }

  function Filled(n: nat): seq<Call> {
    if n == 0 then OPENING else Filled(n - 1) + [Set(Filler(n), "", 31.0)]
  }

  function Fillers(n: nat): set<Key> {
    if n == 0 then {} else Fillers(n - 1) + {Filler(n)}
  }

  lemma {:induction false} FillerCount(n: nat)
    ensures |Fillers(n)| == n && forall k :: k in Fillers(n) ==> 2 <= k.tenant <= n + 1
  {
    if n > 0 {
      FillerCount(n - 1);
    }
  }

  const OPENED := [OPENING[0], OPENING[1]]

  lemma OpenedHolds()
    ensures After(OPENED) == [Entry(PASSING, 0.0, ""), Entry(TARGET, 1.0, "kept")]
    ensures Behind(OPENED, TARGET) == {} && TouchedSince(OPENED, TARGET) == {} && !PushedOut(OPENED, TARGET)
    ensures LastSet(OPENED, TARGET) == Some(Entry(TARGET, 1.0, "kept"))
  {
    var one := [OPENING[0]];
    assert one[..0] == [] && OPENED[..1] == one;
    assert After(one) == [Entry(PASSING, 0.0, "")];
  }

  /** The first get is answered. */
  lemma FirstGet()
    ensures Touches(OPENED, OPENING[2])
    ensures After(OPENED + [OPENING[2]]) == [Entry(TARGET, 1.0, "kept"), Entry(PASSING, 0.0, "")]
  {
    OpenedHolds();
    var three, entries := OPENED + [OPENING[2]], After(OPENED);
    assert three[..|three| - 1] == OPENED;
    FindIs(entries, PASSING, 0);
    assert Without(entries, PASSING) == [entries[1]];
  }

  /** The second comes too late. */
  lemma SecondGet()
    ensures !Touches(OPENED + [OPENING[2]], OPENING[3])
  {
    FirstGet();
    FindIs(After(OPENED + [OPENING[2]]), PASSING, 1);
  }

  lemma Opening()
    ensures TouchedSince(OPENING, TARGET) == {PASSING} && Behind(OPENING, TARGET) == {} && !PushedOut(OPENING, TARGET)
    ensures LastSet(OPENING, TARGET) == Some(Entry(TARGET, 1.0, "kept"))
  {
    OpenedHolds();
    FirstGet();
    SecondGet();
    var three := OPENED + [OPENING[2]];
    CallOnOther(OPENED, OPENING[2], TARGET);
    CallOnOther(three, OPENING[3], TARGET);
    assert OPENING == three + [OPENING[3]];
  }

  lemma {:induction false} FilledInOrder(n: nat)
    ensures ClockAdvances(Filled(n)) && Filled(n) != [] && Filled(n)[|Filled(n)| - 1].now == 31.0
  {
    if n > 0 {
      FilledInOrder(n - 1);
    }
  }

  lemma {:induction false} Filling(n: nat)
    requires n < MAX_KEYS
    ensures TouchedSince(Filled(n), TARGET) == {PASSING} + Fillers(n)
    ensures Behind(Filled(n), TARGET) == Fillers(n) && !PushedOut(Filled(n), TARGET)
    ensures LastSet(Filled(n), TARGET) == Some(Entry(TARGET, 1.0, "kept"))
  {
    if n == 0 {
      Opening();
    } else {
      Filling(n - 1);
      OneMoreFiller(n);
    }
  }

  lemma OneMoreFiller(n: nat)
    requires 0 < n < MAX_KEYS
    requires TouchedSince(Filled(n - 1), TARGET) == {PASSING} + Fillers(n - 1)
    requires Behind(Filled(n - 1), TARGET) == Fillers(n - 1) && !PushedOut(Filled(n - 1), TARGET)
    requires LastSet(Filled(n - 1), TARGET) == Some(Entry(TARGET, 1.0, "kept"))
    ensures TouchedSince(Filled(n), TARGET) == {PASSING} + Fillers(n)
    ensures Behind(Filled(n), TARGET) == Fillers(n) && !PushedOut(Filled(n), TARGET)
    ensures LastSet(Filled(n), TARGET) == Some(Entry(TARGET, 1.0, "kept"))
  {
    FillerCount(n);
    CallOnOther(Filled(n - 1), Set(Filler(n), "", 31.0), TARGET);
  }

  /** The plain converse fails: 256 other keys touched since, and still a hit. */
  lemma ManyTouchedYetThere()
    ensures exists log :: ClockAdvances(log) && |TouchedSince(log, TARGET)| >= 256
                          && Answer(After(log), TARGET, 31.0) == Some("kept")
  {
    var log := Filled(MAX_KEYS - 1);
    Filling(MAX_KEYS - 1);
    FilledInOrder(MAX_KEYS - 1);
    FillerCount(MAX_KEYS - 1);
    MissExactlyWhenPushedOut(log, TARGET, 31.0);
    HitIsLatestAndFresh(log, TARGET, 31.0);
    assert PASSING !in Fillers(MAX_KEYS - 1);
    assert |TouchedSince(log, TARGET)| == MAX_KEYS;
  }
}
