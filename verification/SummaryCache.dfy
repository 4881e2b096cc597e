/** The bounded cache of connection summaries: an ordered map with eviction from the front and
    a lifetime per entry, checked against the history of calls made on it. */
module SummaryCache {
  import opened Wrappers

  type Time = real

  const TTL: Time := 30.0
  const MAX_KEYS: nat := 256

  /** What the summary depends on: two API keys of a tenant with the same scope share it. */
  datatype Key = Key(tenant: nat, scopeType: string, scopeConnections: seq<nat>)

  datatype Caller = Caller(apiKey: nat, tenant: nat, scopeType: string, scopeConnections: seq<nat>) {
    function CacheKey(): Key {
      Key(tenant, scopeType, scopeConnections)
    }
  }

  /** Two callers share an answer exactly when tenant, scope and the connections in it agree,
      whichever API keys they use. */
  lemma CallersShareExactly(a: Caller, b: Caller)
    ensures a.CacheKey() == b.CacheKey() <==>
              a.tenant == b.tenant && a.scopeType == b.scopeType && a.scopeConnections == b.scopeConnections
  {
  }

  datatype Entry = Entry(key: Key, inserted: Time, text: string)

  // ---------- the ordered map ----------

  /** The position of `key`, or the length of the map. */
  function Find(entries: seq<Entry>, key: Key): (i: nat)
    ensures i <= |entries|
    ensures i < |entries| ==> entries[i].key == key
    ensures forall j :: 0 <= j < i ==> entries[j].key != key
  {
    if entries == [] then 0
    else if entries[0].key == key then 0
    else
      var i := Find(entries[1..], key);
      assert forall j :: 0 < j < 1 + i ==> entries[j] == entries[1..][j - 1];
      1 + i
  }

  predicate Has(entries: seq<Entry>, key: Key) {
    Find(entries, key) < |entries|
  }

  function Without(entries: seq<Entry>, key: Key): seq<Entry> {
    var i := Find(entries, key);
    if i < |entries| then entries[..i] + entries[i + 1..] else entries
  }

  ghost predicate OncePerKey(entries: seq<Entry>) {
    forall i, j :: 0 <= i < j < |entries| ==> entries[i].key != entries[j].key
  }

  // ---------- one call ----------

  predicate Expired(e: Entry, now: Time) {
    now - e.inserted > TTL
  }

  function Answer(entries: seq<Entry>, key: Key, now: Time): Option<string> {
    var i := Find(entries, key);
    if i == |entries| || Expired(entries[i], now) then None else Some(entries[i].text)
  }

  function AfterGet(entries: seq<Entry>, key: Key, now: Time): seq<Entry> {
    var i := Find(entries, key);
    if i == |entries| then entries
    else if Expired(entries[i], now) then Without(entries, key)
    else Without(entries, key) + [entries[i]]
  }

  /** The last MAX_KEYS entries. */
  function Trimmed(all: seq<Entry>): seq<Entry> {
    if |all| > MAX_KEYS then all[|all| - MAX_KEYS..] else all
  }

  function AfterSet(entries: seq<Entry>, key: Key, text: string, now: Time): seq<Entry> {
    Trimmed(Without(entries, key) + [Entry(key, now, text)])
  }

  class Cache {
    var entries: seq<Entry>

    ghost predicate Valid()
      reads this
    {
      OncePerKey(entries) && |entries| <= MAX_KEYS
    }

    constructor ()
      ensures Valid() && entries == []
    {
      entries := [];
    }

    method Delete(key: Key)
      modifies this
      ensures entries == Without(old(entries), key)
    {
      entries := Without(entries, key);
    }

    method MoveToEnd(key: Key)
      requires Has(entries, key)
      modifies this
      ensures entries == Without(old(entries), key) + [old(entries)[Find(old(entries), key)]]
    {
      var e := entries[Find(entries, key)];
      Delete(key);
      entries := entries + [e];
    }

    /** Assignment keeps the place of a key that is there and appends one that is not. */
    method Assign(key: Key, now: Time, text: string)
      modifies this
      ensures Has(entries, key) && entries[Find(entries, key)] == Entry(key, now, text)
      ensures Without(entries, key) == Without(old(entries), key)
    {
      var i := Find(entries, key);
      if i < |entries| {
        entries := entries[i := Entry(key, now, text)];
        FindIs(entries, key, i);
      } else {
        entries := entries + [Entry(key, now, text)];
        FindIs(entries, key, i);
      }
    }

    method Get(key: Key, now: Time) returns (text: Option<string>)
      requires Valid()
      modifies this
      ensures Valid()
      ensures text == Answer(old(entries), key, now)
      ensures entries == AfterGet(old(entries), key, now)
    {
      WithoutKeepsDistinct(entries, key);
      var i := Find(entries, key);
      if i == |entries| {
        return None;
      }
      var e := entries[i];
      if now - e.inserted > TTL {
        Delete(key);
        return None;
      }
      MoveToEnd(key);
      return Some(e.text);
    }

    method Set(key: Key, text: string, now: Time)
      requires Valid()
      modifies this
      ensures Valid()
      ensures entries == AfterSet(old(entries), key, text, now)
    {
      ghost var all := Without(entries, key) + [Entry(key, now, text)];
      AppendedIsDistinct(entries, key, now, text);
      Assign(key, now, text);
      MoveToEnd(key);
      while |entries| > MAX_KEYS
        invariant OncePerKey(entries)
        invariant Trimmed(entries) == Trimmed(all)
      {
        FrontGoes(entries);
        entries := entries[1..];
      }
    }

    /** `loaded` is what a fresh load of the caller's summary returns; it is used only when the
        cache has no answer, and is then kept. */
    method ConnectionSummary(caller: Caller, now: Time, loaded: string, later: Time) returns (text: string)
      requires Valid()
      modifies this
      ensures Valid()
      ensures match Answer(old(entries), caller.CacheKey(), now) {
                case Some(cached) => text == cached && entries == AfterGet(old(entries), caller.CacheKey(), now)
                case None =>
                  && text == loaded && Answer(entries, caller.CacheKey(), later) == Some(loaded)
                  && entries == AfterSet(AfterGet(old(entries), caller.CacheKey(), now), caller.CacheKey(), loaded, later)
              }
    {
      var key := caller.CacheKey();
      var cached := Get(key, now);
      if cached.Some? {
        return cached.value;
      }
      ghost var before := entries;
      Set(key, loaded, later);
      text := loaded;
      LastIsFound(Without(before, key), key, later, loaded);
    }
  }

  lemma FindIs(entries: seq<Entry>, key: Key, i: nat)
    requires i < |entries| && entries[i].key == key
    requires forall j :: 0 <= j < i ==> entries[j].key != key
    ensures Find(entries, key) == i
  {
  }

  lemma AppendedIsDistinct(entries: seq<Entry>, key: Key, now: Time, text: string)
    requires OncePerKey(entries)
    ensures OncePerKey(Without(entries, key) + [Entry(key, now, text)])
  {
    WithoutKeepsDistinct(entries, key);
  }

  /** Dropping the front of too long a map changes nothing of what is kept in the end. */
  lemma FrontGoes(entries: seq<Entry>)
    requires |entries| > MAX_KEYS
    ensures Trimmed(entries[1..]) == Trimmed(entries)
  {
  }

  lemma WithoutKeepsDistinct(entries: seq<Entry>, key: Key)
    requires OncePerKey(entries)
    ensures OncePerKey(Without(entries, key)) && !Has(Without(entries, key), key)
    ensures |entries| - 1 <= |Without(entries, key)| <= |entries|
    ensures |Without(entries, key)| == |entries| <==> !Has(entries, key)
  {
  }

  lemma LastIsFound(rest: seq<Entry>, key: Key, now: Time, text: string)
    requires !Has(rest, key) && |rest| <= MAX_KEYS
    ensures var all := rest + [Entry(key, now, text)];
            Answer(Trimmed(all), key, now) == Some(text)
  {
    var kept := Trimmed(rest + [Entry(key, now, text)]);
    forall j | 0 <= j < |kept| - 1
      ensures kept[j].key != key
    {
      assert kept[j] in rest;
    }
    FindIs(kept, key, |kept| - 1);
  }
}
