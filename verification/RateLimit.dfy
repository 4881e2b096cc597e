/** The sliding-window limit on anonymous tenant creation: an in-process deque per host, the
    Redis sorted set that replaces it, and the fallback from one to the other. */
module RateLimit {
  import opened Wrappers

  type Time = real
  type Host = string
  type Member = nat

  const WINDOW: Time := 60.0
  const LIMIT: nat := 20
  const KEY_TTL: Time := 65.0

  // ---------- windows over admitted times ----------

  /** The two window conventions: the deque keeps [now - 60, now], the script (now - 60, now]. */
  predicate InWindow(closed: bool, start: Time, t: Time) {
    (if closed then start <= t else start < t) && t <= start + 60.0
  }

  function CountIn(closed: bool, times: seq<Time>, start: Time): nat {
    if times == [] then 0
    else CountIn(closed, times[..|times| - 1], start) + if InWindow(closed, start, times[|times| - 1]) then 1 else 0
  }

  ghost predicate Sorted(times: seq<Time>) {
    forall i, j :: 0 <= i < j < |times| ==> times[i] <= times[j]
  }

  /** No 21 consecutive times fit in one window. */
  ghost predicate Spread(closed: bool, times: seq<Time>) {
    forall i, j :: 0 <= i && j == i + 20 && j < |times| ==>
      if closed then times[j] - times[i] > 60.0 else times[j] - times[i] >= 60.0
  }

  lemma {:induction false} CountAppend(closed: bool, a: seq<Time>, b: seq<Time>, start: Time)
    ensures CountIn(closed, a + b, start) == CountIn(closed, a, start) + CountIn(closed, b, start)
  {
    if b == [] {
      assert a + b == a;
    } else {
      assert (a + b)[..|a + b| - 1] == a + b[..|b| - 1];
      CountAppend(closed, a, b[..|b| - 1], start);
    }
  }

  lemma {:induction false} CountNone(closed: bool, times: seq<Time>, start: Time)
    requires forall t :: t in times ==> !InWindow(closed, start, t)
    ensures CountIn(closed, times, start) == 0
  {
    if times != [] {
      CountNone(closed, times[..|times| - 1], start);
    }
  }

  lemma {:induction false} CountAll(closed: bool, times: seq<Time>, start: Time)
    ensures CountIn(closed, times, start) <= |times|
    ensures (forall t :: t in times ==> InWindow(closed, start, t)) ==> CountIn(closed, times, start) == |times|
  {
    if times != [] {
      CountAll(closed, times[..|times| - 1], start);
    }
  }

  /** Spread times leave at most 20 in any window, wherever it starts. */
  lemma {:induction false} SpreadBoundsEveryWindow(closed: bool, times: seq<Time>, start: Time)
    requires Sorted(times) && Spread(closed, times)
    ensures CountIn(closed, times, start) <= 20
  {
    if |times| > LIMIT {
      var last := times[|times| - 1];
      if InWindow(closed, start, last) {
        var cut := |times| - LIMIT;
        assert times == times[..cut] + times[cut..];
        CountAppend(closed, times[..cut], times[cut..], start);
        CountAll(closed, times[cut..], start);
        forall t | t in times[..cut]
          ensures !InWindow(closed, start, t)
        {
          assert t <= times[cut - 1];
        }
        CountNone(closed, times[..cut], start);
      } else {
        SpreadBoundsEveryWindow(closed, times[..|times| - 1], start);
      }
    } else {
      CountAll(closed, times, start);
    }
  }

  // ---------- one decision ----------

  /** Whether an entry of age `now - t` has left the window. */
  predicate Stale(closed: bool, now: Time, t: Time) {
    if closed then now - t > WINDOW else t <= now - WINDOW
  }

  /** What is left of a queue once the stale entries at its front are dropped. */
  function Pruned(closed: bool, q: seq<Time>, now: Time): seq<Time> {
    if q != [] && Stale(closed, now, q[0]) then Pruned(closed, q[1..], now) else q
  }

  predicate Admits(closed: bool, q: seq<Time>, now: Time) {
    |Pruned(closed, q, now)| < LIMIT
  }

  function Decided(closed: bool, q: seq<Time>, now: Time): seq<Time> {
    if Admits(closed, q, now) then Pruned(closed, q, now) + [now] else Pruned(closed, q, now)
  }

  lemma {:induction false} PrunedIsSuffix(closed: bool, q: seq<Time>, now: Time) returns (k: nat)
    requires Sorted(q)
    ensures k <= |q| && Pruned(closed, q, now) == q[k..]
    ensures forall i :: 0 <= i < k ==> Stale(closed, now, q[i])
    ensures forall i :: k <= i < |q| ==> !Stale(closed, now, q[i])
  {
    if q != [] && Stale(closed, now, q[0]) {
      k := PrunedIsSuffix(closed, q[1..], now);
      k := k + 1;
    } else {
      k := 0;
    }
  }

  // ---------- the limiter ----------

  datatype Reply = Admitted | TooMany

  /** The Redis side for one decision: not configured, reachable, or failing, in which case the
      script may or may not have run before the failure. */
  datatype Backend = NoRedis | Reachable | Failing(scriptRan: bool)

  /** A sorted set with its time of expiry; members carry their score and stand in score order. */
  datatype Zset = Zset(entries: seq<(Member, Time)>, expiresAt: Time)

  function Scores(entries: seq<(Member, Time)>): (times: seq<Time>)
    ensures |times| == |entries|
  {
    seq(|entries|, i requires 0 <= i < |entries| => entries[i].1)
  }

  lemma ScoresOfRest(entries: seq<(Member, Time)>, now: Time)
    requires entries != [] && UpTo(Scores(entries), now)
    ensures Scores(entries[1..]) == Scores(entries)[1..] && UpTo(Scores(entries[1..]), now)
  {
  }

  lemma ScoresOfMore(entries: seq<(Member, Time)>, member: Member, now: Time)
    requires UpTo(Scores(entries), now)
    ensures Scores(entries + [(member, now)]) == Scores(entries) + [now]
    ensures UpTo(Scores(entries + [(member, now)]), now)
  {
    assert Scores(entries + [(member, now)]) == Scores(entries) + [now];
    UpToGrows(Scores(entries), now, now);
  }

  /** The script's removal by score. */
  method RemoveOld(all: seq<(Member, Time)>, now: Time) returns (entries: seq<(Member, Time)>)
    requires UpTo(Scores(all), now)
    ensures |entries| <= |all| && UpTo(Scores(entries), now)
    ensures Scores(entries) == Pruned(false, Scores(all), now)
  {
    entries := all;
    while entries != [] && entries[0].1 <= now - WINDOW
      invariant |entries| <= |all| && UpTo(Scores(entries), now)
      invariant Pruned(false, Scores(entries), now) == Pruned(false, Scores(all), now)
    {
      ScoresOfRest(entries, now);
      entries := entries[1..];
    }
  }

  function LiveEntries(z: Option<Zset>, now: Time): seq<(Member, Time)> {
    if z.None? || z.value.expiresAt <= now then [] else z.value.entries
  }

  /** What the script leaves behind, in terms of scores. */
  ghost predicate ScriptRan(before: Option<Zset>, now: Time, after: Option<Zset>, admitted: bool) {
    var old_ := Scores(LiveEntries(before, now));
    && admitted == Admits(false, old_, now)
    && Scores(LiveEntries(after, now)) == Decided(false, old_, now)
    && (admitted ==> after.Some? && after.value.expiresAt == now + 65.0)
    && (!admitted ==> after.Some? && before.Some? && after.value.expiresAt == before.value.expiresAt)
  }

  /** What the limiter keeps for one host. */
  datatype HostState = HostState(deque: seq<Time>, zset: Option<Zset>)

  /** What one request leaves behind. When Redis fails, the script may have run all the same. */
  ghost predicate Enforced(before: HostState, now: Time, backend: Backend, after: HostState, admitted: bool) {
    if backend.Reachable? then
      after.deque == before.deque && ScriptRan(before.zset, now, after.zset, admitted)
    else
      && after.deque == Decided(true, before.deque, now)
      && (admitted <==> Admits(true, before.deque, now))
      && (if backend == Failing(true) then exists lost :: ScriptRan(before.zset, now, after.zset, lost)
          else after.zset == before.zset)
  }

  class Limiter {
    var recent: map<Host, seq<Time>>
    var zsets: map<Host, Zset>

    constructor ()
      ensures recent == map[] && zsets == map[]
    {
      recent := map[];
      zsets := map[];
    }

    function Deque(host: Host): seq<Time>
      reads this
    {
      if host in recent then recent[host] else []
    }

    function Stored(host: Host): Option<Zset>
      reads this
    {
      if host in zsets then Some(zsets[host]) else None
    }

    /** Reading a host for the first time gives it an empty deque. */
    method Prune(now: Time, host: Host)
      modifies this`recent
      ensures recent == old(recent)[host := Pruned(true, old(Deque(host)), now)]
    {
      var q := Deque(host);
      ghost var all := q;
      while q != [] && now - q[0] > WINDOW
        invariant Pruned(true, q, now) == Pruned(true, all, now)
      {
        q := q[1..];
      }
      recent := recent[host := q];
    }

    method EnforceInMemory(host: Host, now: Time) returns (reply: Reply)
      modifies this`recent
      ensures recent == old(recent)[host := Decided(true, old(Deque(host)), now)]
      ensures reply.Admitted? <==> Admits(true, old(Deque(host)), now)
    {
      Prune(now, host);
      if |recent[host]| >= LIMIT {
        return TooMany;
      }
      recent := recent[host := recent[host] + [now]];
      return Admitted;
    }

    /** No score is later than `now`, and each set stands in score order. */
    ghost predicate Reached(now: Time)
      reads this
    {
      forall h :: h in zsets ==> UpTo(Scores(zsets[h].entries), now)
    }

    lemma ReachedLater(earlier: Time, now: Time)
      requires Reached(earlier) && earlier <= now
      ensures Reached(now)
    {
    }

    function At(host: Host): HostState
      reads this
    {
      HostState(Deque(host), Stored(host))
    }

    /** The script: drop what is too old, count, refuse or add and renew the expiry. A key
        that has expired is not there. The new member is drawn at random, so it is not in the
        set, and with an advancing clock it goes last. */
    method Script(host: Host, now: Time, member: Member) returns (reply: Reply)
      requires Reached(now)
      modifies this`zsets
      ensures Reached(now)
      ensures forall h :: h != host ==> Stored(h) == old(Stored(h))
      ensures ScriptRan(old(Stored(host)), now, Stored(host), reply.Admitted?)
    {
      var entries := RemoveOld(LiveEntries(Stored(host), now), now);
      if |entries| >= LIMIT {
        zsets := zsets[host := zsets[host].(entries := entries)];
        return TooMany;
      }
      ScoresOfMore(entries, member, now);
      zsets := zsets[host := Zset(entries + [(member, now)], now + KEY_TTL)];
      return Admitted;
    }

    /** One request: Redis decides when it answers, the deque otherwise. */
    method Enforce(host: Host, now: Time, member: Member, backend: Backend) returns (reply: Reply)
      requires Reached(now)
      modifies this
      ensures Reached(now)
      ensures Enforced(old(At(host)), now, backend, At(host), reply.Admitted?)
      ensures forall h :: h != host ==> At(h) == old(At(h))
    {
      match backend {
        case NoRedis =>
          reply := EnforceInMemory(host, now);
        case Reachable =>
          reply := Script(host, now, member);
        case Failing(scriptRan) =>
          var lost := TooMany;
          if scriptRan {
            lost := Script(host, now, member);
          }
          ghost var stored := Stored(host);
          reply := EnforceInMemory(host, now);
          assert Stored(host) == stored;
          assert scriptRan ==> ScriptRan(old(Stored(host)), now, Stored(host), lost.Admitted?);
      }
    }
  }

  // ---------- runs ----------
  //
  // One host, requests in clock order. `q` is what the limiter still holds, `admits` every
  // time it has admitted; for Redis `q` holds the scores and ignores the key's expiry.

  datatype Ledger = Ledger(q: seq<Time>, admits: seq<Time>)

  function Decide(closed: bool, s: Ledger, now: Time): Ledger {
    Ledger(Decided(closed, s.q, now), if Admits(closed, s.q, now) then s.admits + [now] else s.admits)
  }

  function Serve(closed: bool, arrivals: seq<Time>): Ledger {
    if arrivals == [] then Ledger([], [])
    else Decide(closed, Serve(closed, arrivals[..|arrivals| - 1]), arrivals[|arrivals| - 1])
  }

  ghost predicate UpTo(times: seq<Time>, now: Time) {
    Sorted(times) && (times == [] || times[|times| - 1] <= now)
  }

  /** The queue is the end of the admitted times; what went before it is stale, and admitted
      times are spread. */
  ghost predicate LedgerInv(closed: bool, s: Ledger, now: Time) {
    && UpTo(s.admits, now) && Spread(closed, s.admits)
    && |s.q| <= |s.admits| && |s.q| <= LIMIT
    && s.q == s.admits[|s.admits| - |s.q|..]
    && (forall i :: 0 <= i < |s.admits| - |s.q| ==> Stale(closed, now, s.admits[i]))
  }

  /** Pruning leaves the admitted times from some point on: those before it are stale, those
      after it are not. */
  lemma CutPoint(closed: bool, s: Ledger, earlier: Time, now: Time) returns (cut: nat)
    requires LedgerInv(closed, s, earlier) && earlier <= now
    ensures cut <= |s.admits| && Pruned(closed, s.q, now) == s.admits[cut..] && |s.admits| - cut <= |s.q|
    ensures forall i :: 0 <= i < cut ==> Stale(closed, now, s.admits[i])
    ensures forall i :: cut <= i < |s.admits| ==> !Stale(closed, now, s.admits[i])
  {
    var k := PrunedIsSuffix(closed, s.q, now);
    cut := |s.admits| - |s.q| + k;
    assert s.q[k..] == s.admits[cut..];
    StaleBefore(closed, s, earlier, now, k);
    CurrentAfter(closed, s, now, k);
  }

  lemma StaleBefore(closed: bool, s: Ledger, earlier: Time, now: Time, k: nat)
    requires LedgerInv(closed, s, earlier) && earlier <= now && k <= |s.q|
    requires forall i :: 0 <= i < k ==> Stale(closed, now, s.q[i])
    ensures forall i :: 0 <= i < |s.admits| - |s.q| + k ==> Stale(closed, now, s.admits[i])
  {
    var dropped := |s.admits| - |s.q|;
    forall i | 0 <= i < dropped + k
      ensures Stale(closed, now, s.admits[i])
    {
      if i < dropped {
        assert Stale(closed, earlier, s.admits[i]);
      } else {
        assert s.admits[i] == s.q[i - dropped];
      }
    }
  }

  lemma CurrentAfter(closed: bool, s: Ledger, now: Time, k: nat)
    requires |s.q| <= |s.admits| && s.q == s.admits[|s.admits| - |s.q|..] && k <= |s.q|
    requires forall i :: k <= i < |s.q| ==> !Stale(closed, now, s.q[i])
    ensures forall i :: |s.admits| - |s.q| + k <= i < |s.admits| ==> !Stale(closed, now, s.admits[i])
  {
    var dropped := |s.admits| - |s.q|;
    forall i | dropped + k <= i < |s.admits|
      ensures !Stale(closed, now, s.admits[i])
    {
      assert s.admits[i] == s.q[i - dropped];
    }
  }

  lemma SpreadGrows(closed: bool, times: seq<Time>, cut: nat, now: Time)
    requires Spread(closed, times) && cut <= |times| < cut + LIMIT
    requires forall i :: 0 <= i < cut ==> Stale(closed, now, times[i])
    ensures Spread(closed, times + [now])
  {
  }

  lemma UpToGrows(times: seq<Time>, earlier: Time, now: Time)
    requires UpTo(times, earlier) && earlier <= now
    ensures UpTo(times, now) && UpTo(times + [now], now)
  {
    if times != [] {
      assert forall i :: 0 <= i < |times| ==> times[i] <= times[|times| - 1];
    }
  }

  lemma DecideKeeps(closed: bool, s: Ledger, earlier: Time, now: Time)
    requires LedgerInv(closed, s, earlier) && earlier <= now
    ensures LedgerInv(closed, Decide(closed, s, now), now)
  {
    var cut := CutPoint(closed, s, earlier, now);
    UpToGrows(s.admits, earlier, now);
    var t := Decide(closed, s, now);
    if Admits(closed, s.q, now) {
      SpreadGrows(closed, s.admits, cut, now);
      assert t.q == t.admits[cut..];
    } else {
      assert t.q == t.admits[cut..];
    }
    assert |t.admits| - |t.q| == cut;
    assert forall i :: 0 <= i < cut ==> t.admits[i] == s.admits[i];
  }

  lemma {:induction false} ServeKeeps(closed: bool, arrivals: seq<Time>, now: Time)
    requires UpTo(arrivals, now)
    ensures LedgerInv(closed, Serve(closed, arrivals), now)
  {
    if arrivals != [] {
      var last := arrivals[|arrivals| - 1];
      ServeKeeps(closed, arrivals[..|arrivals| - 1], last);
      DecideKeeps(closed, Serve(closed, arrivals[..|arrivals| - 1]), last, last);
    }
  }

  /** Every window of 60 seconds holds at most 20 admitted requests: a closed one for the
      deque, a half-open one for the script. */
  lemma EveryWindowIsBounded(closed: bool, arrivals: seq<Time>, start: Time)
    requires Sorted(arrivals)
    ensures CountIn(closed, Serve(closed, arrivals).admits, start) <= 20
  {
    ServeKeeps(closed, arrivals, if arrivals == [] then 0.0 else arrivals[|arrivals| - 1]);
    SpreadBoundsEveryWindow(closed, Serve(closed, arrivals).admits, start);
  }

  /** A request is refused exactly when 20 requests were admitted in the window that ends now. */
  lemma RefusedExactlyWhenFull(closed: bool, arrivals: seq<Time>, now: Time)
    requires UpTo(arrivals, now)
    ensures !Admits(closed, Serve(closed, arrivals).q, now) <==>
            CountIn(closed, Serve(closed, arrivals).admits, now - 60.0) == 20
  {
    var cut := PrunedIsTheWindow(closed, arrivals, now);
  }

  /** In other words: exactly when the 20th last admission is no longer ago than the window, whose
      far end belongs to it for the deque and not for the script. */
  lemma RefusedByTheTwentieth(closed: bool, arrivals: seq<Time>, now: Time)
    requires UpTo(arrivals, now)
    ensures var admits := Serve(closed, arrivals).admits;
            !Admits(closed, Serve(closed, arrivals).q, now) <==>
              && |admits| >= 20
              && if closed then now - admits[|admits| - 20] <= 60.0 else now - admits[|admits| - 20] < 60.0
  {
    var s := Serve(closed, arrivals);
    var cut := PrunedIsTheWindow(closed, arrivals, now);
    if |s.admits| >= 20 {
      assert InWindow(closed, now - 60.0, s.admits[|s.admits| - 20]) <==> cut <= |s.admits| - 20;
      assert s.admits[|s.admits| - 20] <= now;
    }
  }

  /** After pruning, the queue is the part of the admitted times, from some `cut` on, that
      lies in the window; the times stand in order. */
  lemma PrunedIsTheWindow(closed: bool, arrivals: seq<Time>, now: Time) returns (cut: nat)
    requires UpTo(arrivals, now)
    ensures var s := Serve(closed, arrivals);
            && UpTo(s.admits, now) && cut <= |s.admits|
            && Pruned(closed, s.q, now) == s.admits[cut..]
            && |s.admits| - cut == CountIn(closed, s.admits, now - 60.0) <= 20
            && (forall i :: 0 <= i < |s.admits| ==> (InWindow(closed, now - 60.0, s.admits[i]) <==> cut <= i))
  {
    var s := Serve(closed, arrivals);
    ServeKeeps(closed, arrivals, now);
    cut := CutPoint(closed, s, now, now);
    forall i | 0 <= i < |s.admits|
      ensures InWindow(closed, now - WINDOW, s.admits[i]) <==> cut <= i
    {
      NotStaleIsInWindow(closed, s.admits, i, now);
    }
    CountSplit(closed, s.admits, cut, now - WINDOW);
  }

  lemma NotStaleIsInWindow(closed: bool, times: seq<Time>, i: nat, now: Time)
    requires UpTo(times, now) && i < |times|
    ensures InWindow(closed, now - WINDOW, times[i]) <==> !Stale(closed, now, times[i])
  {
  }

  lemma CountSplit(closed: bool, times: seq<Time>, cut: nat, start: Time)
    requires cut <= |times|
    requires forall i :: 0 <= i < |times| ==> (InWindow(closed, start, times[i]) <==> i >= cut)
    ensures CountIn(closed, times, start) == |times| - cut
  {
    assert times == times[..cut] + times[cut..];
    CountAppend(closed, times[..cut], times[cut..], start);
    CountNone(closed, times[..cut], start);
    CountAll(closed, times[cut..], start);
  }

  // ---------- the expiry of the Redis key ----------

  /** One run of the script on a key that expires KEY_TTL after the last admission. */
  function DecideWithExpiry(s: (Ledger, Time), now: Time): (Ledger, Time) {
    var live := if s.1 <= now then s.0.(q := []) else s.0;
    (Decide(false, live, now), if Admits(false, live.q, now) then now + KEY_TTL else s.1)
  }

  function ServeWithExpiry(arrivals: seq<Time>): (Ledger, Time) {
    if arrivals == [] then (Ledger([], []), 0.0)
    else DecideWithExpiry(ServeWithExpiry(arrivals[..|arrivals| - 1]), arrivals[|arrivals| - 1])
  }

  lemma {:induction false} PrunesToNothing(q: seq<Time>, now: Time)
    requires forall t :: t in q ==> Stale(false, now, t)
    ensures Pruned(false, q, now) == []
  {
    if q != [] {
      PrunesToNothing(q[1..], now);
    }
  }

  /** A key that has expired held nothing that was not stale. */
  lemma DecidesAlike(s: Ledger, expires: Time, now: Time)
    requires forall t :: t in s.q ==> t + KEY_TTL <= expires && t <= now
    ensures DecideWithExpiry((s, expires), now).0 == Decide(false, s, now)
    ensures forall t :: t in Decide(false, s, now).q ==> t + KEY_TTL <= DecideWithExpiry((s, expires), now).1
  {
    if expires <= now {
      PrunesToNothing(s.q, now);
      assert Pruned(false, [], now) == [];
    }
    PrunedStays(false, s.q, now);
  }

  /** The key's expiry never changes what the script keeps or answers. */
  lemma {:induction false} ExpiryIsInvisible(arrivals: seq<Time>, now: Time)
    requires UpTo(arrivals, now)
    ensures ServeWithExpiry(arrivals).0 == Serve(false, arrivals)
    ensures forall t :: t in Serve(false, arrivals).q ==> t + KEY_TTL <= ServeWithExpiry(arrivals).1
  {
    if arrivals != [] {
      var before, last := arrivals[..|arrivals| - 1], arrivals[|arrivals| - 1];
      ExpiryIsInvisible(before, last);
      ServeKeeps(false, before, last);
      LedgerIsPast(false, Serve(false, before), last);
      DecidesAlike(Serve(false, before), ServeWithExpiry(before).1, last);
      assert ServeWithExpiry(before) == (Serve(false, before), ServeWithExpiry(before).1);
    }
  }

  lemma {:induction false} PrunedStays(closed: bool, q: seq<Time>, now: Time)
    ensures forall t :: t in Pruned(closed, q, now) ==> t in q
  {
    if q != [] && Stale(closed, now, q[0]) {
      PrunedStays(closed, q[1..], now);
    }
  }

  // ---------- switching between Redis and the deque ----------

  datatype Arrival = Arrival(now: Time, backend: Backend)

  predicate ReachesScript(b: Backend) {
    b.Reachable? || b == Failing(true)
  }

  /** Both limiters' ledgers, and the requests that were really let through: an admission whose
      answer was lost with the connection lets nobody through. */
  datatype Both = Both(deque: Ledger, redis: Ledger, through: seq<Time>)

  function ServeBoth(arrivals: seq<Arrival>): Both {
    if arrivals == [] then Both(Ledger([], []), Ledger([], []), [])
    else ServeArrival(ServeBoth(arrivals[..|arrivals| - 1]), arrivals[|arrivals| - 1])
  }

  function ServeArrival(s: Both, a: Arrival): Both {
    var admitted := if a.backend.Reachable? then Admits(false, s.redis.q, a.now) else Admits(true, s.deque.q, a.now);
    Both(if a.backend.Reachable? then s.deque else Decide(true, s.deque, a.now),
         if ReachesScript(a.backend) then Decide(false, s.redis, a.now) else s.redis,
         if admitted then s.through + [a.now] else s.through)
  }

  /** The times at which one of the two limiters was asked. */
  function Asked(redis: bool, arrivals: seq<Arrival>): seq<Time> {
    if arrivals == [] then []
    else
      var a := arrivals[|arrivals| - 1];
      var rest := Asked(redis, arrivals[..|arrivals| - 1]);
      if (if redis then ReachesScript(a.backend) else !a.backend.Reachable?) then rest + [a.now] else rest
  }

  ghost predicate InOrder(arrivals: seq<Arrival>) {
    forall i, j :: 0 <= i < j < |arrivals| ==> arrivals[i].now <= arrivals[j].now
  }

  lemma {:induction false} AskedInOrder(redis: bool, arrivals: seq<Arrival>, now: Time)
    requires InOrder(arrivals) && (arrivals != [] ==> arrivals[|arrivals| - 1].now <= now)
    ensures UpTo(Asked(redis, arrivals), now)
  {
    if arrivals != [] {
      var before, last := arrivals[..|arrivals| - 1], arrivals[|arrivals| - 1].now;
      AskedInOrder(redis, before, last);
      UpToGrows(Asked(redis, before), last, last);
    }
  }

  lemma ServeOneMore(closed: bool, arrivals: seq<Time>, now: Time)
    ensures Serve(closed, arrivals + [now]) == Decide(closed, Serve(closed, arrivals), now)
  {
    assert (arrivals + [now])[..|arrivals|] == arrivals;
  }

  /** Each limiter goes through a run of its own on the requests it was asked about. */
  lemma {:induction false} EachServesItsOwn(arrivals: seq<Arrival>)
    ensures ServeBoth(arrivals).deque == Serve(true, Asked(false, arrivals))
    ensures ServeBoth(arrivals).redis == Serve(false, Asked(true, arrivals))
  {
    if arrivals != [] {
      var before, last := arrivals[..|arrivals| - 1], arrivals[|arrivals| - 1].now;
      EachServesItsOwn(before);
      ServeOneMore(true, Asked(false, before), last);
      ServeOneMore(false, Asked(true, before), last);
    }
  }

  lemma {:induction false} ThroughIsBoth(arrivals: seq<Arrival>, start: Time)
    ensures var s := ServeBoth(arrivals);
            var sum := CountIn(false, s.deque.admits, start) + CountIn(false, s.redis.admits, start);
            && CountIn(false, s.through, start) <= sum
            && ((forall a :: a in arrivals ==> a.backend != Failing(true)) ==> CountIn(false, s.through, start) == sum)
  {
    if arrivals != [] {
      var before, a := arrivals[..|arrivals| - 1], arrivals[|arrivals| - 1];
      ThroughIsBoth(before, start);
      var s := ServeBoth(before);
      CountAppend(false, s.deque.admits, [a.now], start);
      CountAppend(false, s.redis.admits, [a.now], start);
      CountAppend(false, s.through, [a.now], start);
    }
  }

  lemma {:induction false} HalfOpenIsSmaller(times: seq<Time>, start: Time)
    ensures CountIn(false, times, start) <= CountIn(true, times, start)
  {
    if times != [] {
      HalfOpenIsSmaller(times[..|times| - 1], start);
    }
  }

  /** However a run switches between Redis and the deque, at most 40 requests get through in
      any half-open window of 60 seconds. */
  lemma SwitchingAtMostDoubles(arrivals: seq<Arrival>, start: Time)
    requires InOrder(arrivals)
    ensures CountIn(false, ServeBoth(arrivals).through, start) <= 40
  {
    var now := if arrivals == [] then 0.0 else arrivals[|arrivals| - 1].now;
    EachServesItsOwn(arrivals);
    AskedInOrder(true, arrivals, now);
    AskedInOrder(false, arrivals, now);
    ThroughIsBoth(arrivals, start);
    EveryWindowIsBounded(true, Asked(false, arrivals), start);
    EveryWindowIsBounded(false, Asked(true, arrivals), start);
    HalfOpenIsSmaller(ServeBoth(arrivals).deque.admits, start);
  }

  // ---------- the calls on a limiter ----------

  /** The calls for one host: `states` are what the limiter keeps for it before and after each,
      `replies` whether each was admitted. */
  ghost predicate HostRun(arrivals: seq<Arrival>, states: seq<HostState>, replies: seq<bool>) {
    && |states| == |arrivals| + 1 && |replies| == |arrivals|
    && states[0] == HostState([], None)
    && forall i :: 0 <= i < |arrivals| ==> CallAt(arrivals, states, replies, i)
  }

  ghost predicate CallAt(arrivals: seq<Arrival>, states: seq<HostState>, replies: seq<bool>, i: nat)
    requires i < |arrivals| && i + 1 < |states| && i < |replies|
  {
    Enforced(states[i], arrivals[i].now, arrivals[i].backend, states[i + 1], replies[i])
  }

  function AdmittedTimes(arrivals: seq<Arrival>, replies: seq<bool>): seq<Time>
    requires |arrivals| == |replies|
  {
    if arrivals == [] then []
    else
      var n := |arrivals| - 1;
      AdmittedTimes(arrivals[..n], replies[..n]) + if replies[n] then [arrivals[n].now] else []
  }

  /** The sorted set holds the script's queue, and does not expire before it is stale. */
  ghost predicate SetHolds(zset: Option<Zset>, q: seq<Time>) {
    match zset
    case None => q == []
    case Some(z) => Scores(z.entries) == q && forall t :: t in q ==> t + KEY_TTL <= z.expiresAt
  }

  lemma LiveScores(zset: Option<Zset>, q: seq<Time>, now: Time)
    requires SetHolds(zset, q)
    ensures Pruned(false, Scores(LiveEntries(zset, now)), now) == Pruned(false, q, now)
  {
    if zset.Some? && zset.value.expiresAt <= now {
      PrunesToNothing(q, now);
    }
  }

  /** Running the script on the sorted set is deciding on its queue: an expired key was stale. */
  lemma ScriptDecides(before: Option<Zset>, q: seq<Time>, now: Time, after: Option<Zset>, admitted: bool)
    requires SetHolds(before, q) && ScriptRan(before, now, after, admitted) && forall t :: t in q ==> t <= now
    ensures admitted == Admits(false, q, now) && SetHolds(after, Decided(false, q, now))
  {
    LiveScores(before, q, now);
    PrunedStays(false, q, now);
    if !admitted {
      assert Pruned(false, [], now) == [];
      assert LiveEntries(before, now) != [];
    }
  }

  /** The calls do to a limiter what ServeBoth says, and admit what it lets through. */
  lemma {:induction false} CallsServeBoth(arrivals: seq<Arrival>, states: seq<HostState>, replies: seq<bool>)
    requires HostRun(arrivals, states, replies) && InOrder(arrivals)
    ensures Reflects(states[|arrivals|], ServeBoth(arrivals))
    ensures AdmittedTimes(arrivals, replies) == ServeBoth(arrivals).through
  {
    if arrivals != [] {
      var n := |arrivals| - 1;
      var earlier := states[..|states| - 1];
      forall i | 0 <= i < n
        ensures CallAt(arrivals[..n], earlier, replies[..n], i)
      {
        assert CallAt(arrivals, states, replies, i);
      }
      CallsServeBoth(arrivals[..n], earlier, replies[..n]);
      assert CallAt(arrivals, states, replies, n);
      QueueIsPast(arrivals[..n], arrivals[n].now);
      CallServesArrival(states[n], ServeBoth(arrivals[..n]), arrivals[n], states[n + 1], replies[n]);
    }
  }

  ghost predicate Reflects(kept: HostState, s: Both) {
    kept.deque == s.deque.q && SetHolds(kept.zset, s.redis.q)
  }

  lemma CallServesArrival(before: HostState, s: Both, a: Arrival, after: HostState, admitted: bool)
    requires Reflects(before, s) && Enforced(before, a.now, a.backend, after, admitted)
    requires forall t :: t in s.redis.q ==> t <= a.now
    ensures Reflects(after, ServeArrival(s, a))
    ensures ServeArrival(s, a).through == if admitted then s.through + [a.now] else s.through
  {
    if a.backend.Reachable? {
      ScriptDecides(before.zset, s.redis.q, a.now, after.zset, admitted);
    } else if a.backend == Failing(true) {
      var lost :| ScriptRan(before.zset, a.now, after.zset, lost);
      ScriptDecides(before.zset, s.redis.q, a.now, after.zset, lost);
    }
  }

  lemma QueueIsPast(arrivals: seq<Arrival>, now: Time)
    requires InOrder(arrivals) && (arrivals != [] ==> arrivals[|arrivals| - 1].now <= now)
    ensures forall t :: t in ServeBoth(arrivals).redis.q ==> t <= now
  {
    EachServesItsOwn(arrivals);
    AskedInOrder(true, arrivals, now);
    ServeKeeps(false, Asked(true, arrivals), now);
    LedgerIsPast(false, Serve(false, Asked(true, arrivals)), now);
  }

  lemma LedgerIsPast(closed: bool, s: Ledger, now: Time)
    requires LedgerInv(closed, s, now)
    ensures forall t :: t in s.q ==> t <= now
  {
    forall i | 0 <= i < |s.q|
      ensures s.q[i] <= now
    {
      assert s.q[i] == s.admits[|s.admits| - |s.q| + i];
    }
  }

  /** Whatever calls are made on a limiter for one host, at most 40 are admitted in any
      half-open window of 60 seconds. */
  lemma LimiterIsBounded(arrivals: seq<Arrival>, states: seq<HostState>, replies: seq<bool>, start: Time)
    requires HostRun(arrivals, states, replies) && InOrder(arrivals)
    ensures CountIn(false, AdmittedTimes(arrivals, replies), start) <= 40
  {
    CallsServeBoth(arrivals, states, replies);
    SwitchingAtMostDoubles(arrivals, start);
  }

  lemma EarlierCalls(arrivals: seq<Arrival>, states: seq<HostState>, replies: seq<bool>, n: nat)
    requires HostRun(arrivals, states, replies) && n <= |arrivals|
    ensures HostRun(arrivals[..n], states[..n + 1], replies[..n])
  {
    var earlier := states[..n + 1];
    forall i | 0 <= i < n
      ensures CallAt(arrivals[..n], earlier, replies[..n], i)
    {
      assert CallAt(arrivals, states, replies, i);
    }
  }

  lemma ReplyFollowsQueue(arrivals: seq<Arrival>, states: seq<HostState>, replies: seq<bool>, n: nat)
    requires HostRun(arrivals, states, replies) && InOrder(arrivals) && n < |arrivals|
    ensures var s := ServeBoth(arrivals[..n]);
            replies[n] == if arrivals[n].backend.Reachable? then Admits(false, s.redis.q, arrivals[n].now)
                          else Admits(true, s.deque.q, arrivals[n].now)
  {
    EarlierCalls(arrivals, states, replies, n);
    CallsServeBoth(arrivals[..n], states[..n + 1], replies[..n]);
    assert CallAt(arrivals, states, replies, n);
    QueueIsPast(arrivals[..n], arrivals[n].now);
    ReplyIs(states[n], ServeBoth(arrivals[..n]), arrivals[n], states[n + 1], replies[n]);
  }

  lemma ReplyIs(before: HostState, s: Both, a: Arrival, after: HostState, admitted: bool)
    requires Reflects(before, s) && Enforced(before, a.now, a.backend, after, admitted)
    requires forall t :: t in s.redis.q ==> t <= a.now
    ensures admitted == if a.backend.Reachable? then Admits(false, s.redis.q, a.now) else Admits(true, s.deque.q, a.now)
  {
    if a.backend.Reachable? {
      ScriptDecides(before.zset, s.redis.q, a.now, after.zset, admitted);
    }
  }

  /** Each reply in turn: the request is admitted unless 20 admissions of the limiter that answers
      it, counting those whose answers were lost, lie within the last 60 seconds. */
  lemma RepliesExactly(arrivals: seq<Arrival>, states: seq<HostState>, replies: seq<bool>, n: nat)
    requires HostRun(arrivals, states, replies) && InOrder(arrivals) && n < |arrivals|
    ensures var redis, now := arrivals[n].backend.Reachable?, arrivals[n].now;
            var admits := Serve(!redis, Asked(redis, arrivals[..n])).admits;
            replies[n] <==>
              || |admits| < 20
              || if redis then now - admits[|admits| - 20] >= 60.0 else now - admits[|admits| - 20] > 60.0
  {
    ReplyFollowsQueue(arrivals, states, replies, n);
    EachServesItsOwn(arrivals[..n]);
    AskedInOrder(arrivals[n].backend.Reachable?, arrivals[..n], arrivals[n].now);
    RefusedByTheTwentieth(!arrivals[n].backend.Reachable?, Asked(arrivals[n].backend.Reachable?, arrivals[..n]), arrivals[n].now);
  }

  // The bound is reached: 20 requests through Redis and 20 more, at the same instant, through
  // the deque once Redis fails.

  function Burst(n: nat, b: Backend): seq<Arrival> {
    if n == 0 then [] else Burst(n - 1, b) + [Arrival(1.0, b)]
  }

  function Outage(n: nat): seq<Arrival> {
    if n == 0 then Burst(LIMIT, Reachable) else Outage(n - 1) + [Arrival(1.0, Failing(false))]
  }

  function Ones(n: nat): seq<Time> {
    if n == 0 then [] else Ones(n - 1) + [1.0]
  }

  lemma {:induction false} OnesStay(closed: bool, n: nat)
    ensures |Ones(n)| == n && Pruned(closed, Ones(n), 1.0) == Ones(n) && (forall t :: t in Ones(n) ==> t == 1.0)
  {
    if n > 0 {
      OnesStay(closed, n - 1);
      assert Ones(n)[0] in Ones(n);
    }
  }

  lemma {:induction false} BurstIsAdmitted(n: nat)
    requires n <= LIMIT
    ensures AllAdmitted(n)
  {
    if n > 0 {
      BurstIsAdmitted(n - 1);
      OneMoreInBurst(n);
    }
  }

  predicate AllAdmitted(n: nat) {
    ServeBoth(Burst(n, Reachable)) == Both(Ledger([], []), Ledger(Ones(n), Ones(n)), Ones(n))
  }

  lemma ServeOneArrival(before: seq<Arrival>, a: Arrival)
    ensures ServeBoth(before + [a]) == ServeArrival(ServeBoth(before), a)
  {
    assert (before + [a])[..|before|] == before;
  }

  lemma OneMoreInBurst(n: nat)
    requires 0 < n <= LIMIT && AllAdmitted(n - 1)
    ensures AllAdmitted(n)
  {
    OnesStay(false, n - 1);
    ServeOneArrival(Burst(n - 1, Reachable), Arrival(1.0, Reachable));
  }

  lemma {:induction false} OutageIsAdmitted(n: nat)
    requires n <= LIMIT
    ensures ServeBoth(Outage(n)).deque == Ledger(Ones(n), Ones(n))
    ensures ServeBoth(Outage(n)).through == Ones(LIMIT + n)
  {
    if n == 0 {
      BurstIsAdmitted(LIMIT);
    } else {
      OutageIsAdmitted(n - 1);
      OneMoreInOutage(ServeBoth(Outage(n - 1)), n - 1);
      ServeOneArrival(Outage(n - 1), Arrival(1.0, Failing(false)));
    }
  }

  lemma OneMoreInOutage(s: Both, n: nat)
    requires n < LIMIT && s.deque == Ledger(Ones(n), Ones(n)) && s.through == Ones(LIMIT + n)
    ensures var t := ServeArrival(s, Arrival(1.0, Failing(false)));
            t.deque == Ledger(Ones(n + 1), Ones(n + 1)) && t.through == Ones(LIMIT + n + 1)
  {
    OnesStay(true, n);
  }

  lemma {:induction false} BurstAtOnce(n: nat)
    ensures forall a :: a in Burst(n, Reachable) ==> a.now == 1.0
  {
    if n > 0 {
      BurstAtOnce(n - 1);
    }
  }

  lemma {:induction false} OutageAtOnce(n: nat)
    ensures forall a :: a in Outage(n) ==> a.now == 1.0
  {
    if n == 0 {
      BurstAtOnce(LIMIT);
    } else {
      OutageAtOnce(n - 1);
    }
  }

  lemma DoublingIsReached()
    ensures exists arrivals, start :: InOrder(arrivals) && CountIn(false, ServeBoth(arrivals).through, start) == 40
  {
    var arrivals := Outage(LIMIT);
    OutageIsAdmitted(LIMIT);
    OutageAtOnce(LIMIT);
    OnesStay(false, 2 * LIMIT);
    CountAll(false, Ones(2 * LIMIT), 0.0);
    assert InOrder(arrivals) by {
      forall i | 0 <= i < |arrivals|
        ensures arrivals[i].now == 1.0
      {
        assert arrivals[i] in arrivals;
      }
    }
    assert CountIn(false, ServeBoth(arrivals).through, 0.0) == 2 * LIMIT;
  }
}
