/** Cookie-session rows: what each service call reads from and writes to a row, and the
    table those calls update. Time is in microseconds, the resolution of the stored
    timestamps; durations that the service states in seconds are scaled by SECOND. */
module WebSession {
  import opened Wrappers

  type Time = int
  type Sid = nat
  type RefreshToken = nat

  const SECOND: int := 1_000_000
  const REFRESH_MARGIN: int := 60 * SECOND

  /** An access token, known by when its response arrived and by the lifetime, in whole
      seconds, that Keycloak granted it. */
  datatype AccessToken = AccessToken(receivedAt: Time, expiresIn: int) {
    function GrantedUntil(): Time {
      receivedAt + expiresIn * SECOND
    }
  }

  datatype TokenSet = TokenSet(refresh: RefreshToken, access: AccessToken, accessExp: Time, refreshExp: Time)

  datatype Reason = Logout | LogoutAll | RefreshReuse | DecryptFailed

  datatype Row = Row(user: string, refresh: RefreshToken, access: AccessToken, accessExp: Time, refreshExp: Time,
                     absExp: Time, idleExp: Time, lastSeen: Time,
                     revokedAt: Option<Time>, reason: Option<Reason>)

  datatype Settings = Settings(idleTtl: int, absTtl: int)

  datatype AuthError = KcError(kcError: Option<string>) | MissingRefreshToken | SessionRevoked | CiphertextInvalid
                     | RowGone | Unreachable

  /** The token endpoint's reply, as far as the expiry arithmetic reads it. */
  datatype TokenResponse =
    | Success(refresh: Option<RefreshToken>, expiresIn: Option<int>, refreshExpiresIn: Option<int>)
    | Failure(kcError: Option<string>)
    | NoReply

  function Max(a: int, b: int): int {
    if a >= b then a else b
  }

  function OrElse(o: Option<int>, default: int): int {
    match o
    case None => default
    case Some(v) => v
  }

  function AccessExpiry(access: AccessToken): Time {
    access.receivedAt + Max(access.expiresIn - 60, 30) * SECOND
  }

  function PostToken(resp: TokenResponse, now: Time): Result<TokenSet, AuthError> {
    match resp
    case NoReply => Err(Unreachable)
    case Failure(e) => Err(KcError(e))
    case Success(None, _, _) => Err(MissingRefreshToken)
    case Success(Some(rt), e, re) =>
      var access := AccessToken(now, OrElse(e, 0));
      Ok(TokenSet(rt, access, AccessExpiry(access), now + Max(OrElse(re, 0) - 60, 60) * SECOND))
  }

  // ---------- effects on one row ----------

  function NewRow(tokens: TokenSet, user: string, now: Time, settings: Settings): Row {
    Row(user, tokens.refresh, tokens.access, tokens.accessExp, tokens.refreshExp,
        now + settings.absTtl * SECOND, now + settings.idleTtl * SECOND, now, None, None)
  }

  function LiveRow(row: Option<Row>, now: Time): Option<Row> {
    match row
    case None => None
    case Some(r) =>
      if r.revokedAt.Some? then None
      else if r.idleExp <= now || r.absExp <= now then None
      else Some(r)
  }

  predicate NeedsRefresh(row: Row, now: Time) {
    row.accessExp <= now + REFRESH_MARGIN
  }

  function NewIdle(absExp: Time, now: Time, settings: Settings): Time {
    Min(now + settings.idleTtl * SECOND, absExp)
  }

  function Touched(row: Row, seenAt: Time, newIdle: Time): Row {
    row.(lastSeen := seenAt, idleExp := newIdle)
  }

  function Rotated(row: Row, tokens: TokenSet): Row {
    row.(refresh := tokens.refresh, access := tokens.access,
         accessExp := tokens.accessExp, refreshExp := tokens.refreshExp)
  }

  function Revoked(row: Row, at: Time, reason: Reason): Row {
    row.(revokedAt := Some(at), reason := Some(reason))
  }

  predicate Purgeable(row: Row, now: Time, graceSeconds: int) {
    var cutoff := now - graceSeconds * SECOND;
    row.absExp < cutoff || (row.revokedAt.Some? && row.revokedAt.value < cutoff)
  }

  predicate KillsSession(e: AuthError) {
    e == KcError(Some("invalid_grant")) || e == KcError(Some("unauthorized_client"))
  }

  function ReplyOutcome(latest: Row, reply: Result<TokenSet, AuthError>, t2: Time)
    : (Option<Row>, Result<Row, AuthError>)
  {
    match reply
    case Ok(tokens) => (Some(Rotated(latest, tokens)), Ok(Rotated(latest, tokens)))
    case Err(e) => (Some(if KillsSession(e) then Revoked(latest, t2, RefreshReuse) else latest), Err(e))
  }

  /** What an uncontended refresh leaves in the row and hands to the caller, once `latest` has
      been read under the lock at `t1`; the reply arrives at `t2`. */
  function LockedOutcome(latest: Row, t1: Time, readable: bool, resp: TokenResponse, t2: Time)
    : (Option<Row>, Result<Row, AuthError>)
  {
    if latest.revokedAt.Some? then (Some(latest), Err(SessionRevoked))
    else if !NeedsRefresh(latest, t1) then (Some(latest), Ok(latest))
    else if !readable then (Some(Revoked(latest, t2, DecryptFailed)), Err(CiphertextInvalid))
    else ReplyOutcome(latest, PostToken(resp, t2), t2)
  }

  /** The same from the start: `seen` is the caller's copy, first looked at `t0`. */
  function RefreshOutcome(seen: Row, latest: Option<Row>, t0: Time, t1: Time, readable: bool,
                          resp: TokenResponse, t2: Time): (Option<Row>, Result<Row, AuthError>)
  {
    if !NeedsRefresh(seen, t0) then (latest, Ok(seen))
    else if latest.None? then (latest, Err(RowGone))
    else LockedOutcome(latest.value, t1, readable, resp, t2)
  }

  // ---------- laws about one row ----------

  /** A token that may be used without an exchange has more than 120 seconds of its granted
      life left, so a token granted at most 120 seconds is always exchanged. */
  lemma UnexchangedTokenOutlivesTwoMinutes(row: Row, now: Time)
    requires row.accessExp == AccessExpiry(row.access) && row.access.receivedAt <= now
    requires !NeedsRefresh(row, now)
    ensures row.access.GrantedUntil() > now + 120 * SECOND
    ensures row.access.expiresIn > 120
  {
  }

  /** Exactly the reply that carries a refresh token yields tokens, and the stored expiry
      is always ahead of the clock. */
  lemma PostTokenMeaning(resp: TokenResponse, now: Time)
    ensures PostToken(resp, now).Ok? <==> resp.Success? && resp.refresh.Some?
    ensures PostToken(resp, now).Ok? ==>
              var t := PostToken(resp, now).value;
              && t.refresh == resp.refresh.value
              && t.accessExp == AccessExpiry(t.access)
              && t.accessExp >= now + 30 * SECOND && t.refreshExp >= now + 60 * SECOND
              && (t.access.expiresIn >= 90 ==> t.accessExp == t.access.GrantedUntil() - 60 * SECOND)
              && (t.access.expiresIn <= 90 ==> t.accessExp == now + 30 * SECOND)
              && (forall e :: resp.refreshExpiresIn == Some(e) && e >= 120 ==> t.refreshExp == now + e * SECOND - 60 * SECOND)
              && (forall e :: resp.refreshExpiresIn == Some(e) && e <= 120 ==> t.refreshExp == now + 60 * SECOND)
              && (resp.refreshExpiresIn.None? ==> t.refreshExp == now + 60 * SECOND)
  {
  }

  /** Purging rows never changes the answer of a lookup when the grace is not negative. */
  lemma PurgeNeverChangesLookup(row: Row, now: Time, later: Time, graceSeconds: int)
    requires Purgeable(row, now, graceSeconds) && graceSeconds >= 0 && now <= later
    ensures LiveRow(Some(row), later) == LiveRow(None, later)
  {
  }

  /** Keycloak refuses the token, or the client that presents it. */
  predicate Refusal(resp: TokenResponse) {
    resp == Failure(Some("invalid_grant")) || resp == Failure(Some("unauthorized_client"))
  }

  /** The row is unrevoked, its token is within 60 seconds of expiry and can be read. */
  predicate GoesToKeycloak(seen: Row, latest: Row, t0: Time, t1: Time, readable: bool) {
    && seen.accessExp <= t0 + 60_000_000 && latest.revokedAt.None?
    && latest.accessExp <= t1 + 60_000_000 && readable
  }

  /** Where a refresh does not go to Keycloak: whose token is used, and what is written. */
  lemma RefreshWithoutKeycloak(seen: Row, latest: Option<Row>, t0: Time, t1: Time, readable: bool, resp: TokenResponse, t2: Time)
    ensures var outcome := RefreshOutcome(seen, latest, t0, t1, readable, resp, t2);
            if seen.accessExp > t0 + 60_000_000 then outcome == (latest, Ok(seen))
            else if latest.None? then outcome == (None, Err(RowGone))
            else if latest.value.revokedAt.Some? then outcome == (latest, Err(SessionRevoked))
            else if latest.value.accessExp > t1 + 60_000_000 then outcome == (latest, Ok(latest.value))
            else if !readable then
              outcome == (Some(latest.value.(revokedAt := Some(t2), reason := Some(DecryptFailed))), Err(CiphertextInvalid))
            else GoesToKeycloak(seen, latest.value, t0, t1, readable)
  {
  }

  /** Where it does: the session ends for reuse exactly when Keycloak refuses, the row takes the
      new tokens exactly when they come with a refresh token, and is left alone otherwise. */
  lemma RefreshAtKeycloak(seen: Row, latest: Row, t0: Time, t1: Time, readable: bool, resp: TokenResponse, t2: Time)
    requires GoesToKeycloak(seen, latest, t0, t1, readable)
    ensures var (row, result) := RefreshOutcome(seen, Some(latest), t0, t1, readable, resp, t2);
            && (row == Some(latest.(revokedAt := Some(t2), reason := Some(RefreshReuse))) <==> Refusal(resp))
            && (result.Ok? <==> resp.Success? && resp.refresh.Some?)
            && (result.Err? && !Refusal(resp) ==> row == Some(latest))
            && (result.Ok? ==>
                  && row == Some(result.value)
                  && result.value == latest.(refresh := resp.refresh.value, access := result.value.access,
                                             accessExp := result.value.accessExp, refreshExp := result.value.refreshExp)
                  && result.value.access == AccessToken(t2, if resp.expiresIn.Some? then resp.expiresIn.value else 0))
  {
  }

  /** A session that is not touched again dies its idle lifetime after the touch, or at its
      absolute end if that comes first; nothing else of the row changes. */
  lemma TouchMeaning(row: Row, seenAt: Time, settings: Settings, now: Time)
    ensures var touched := Touched(row, seenAt, NewIdle(row.absExp, seenAt, settings));
            && (LiveRow(Some(touched), now).Some? <==>
                  row.revokedAt.None? && now < seenAt + settings.idleTtl * 1_000_000 && now < row.absExp)
            && touched.lastSeen == seenAt
            && touched.(lastSeen := row.lastSeen, idleExp := row.idleExp) == row
  {
  }

  /** A new session lives for the shorter of its two lifetimes and holds the tokens given. */
  lemma NewRowMeaning(tokens: TokenSet, user: string, created: Time, settings: Settings, now: Time)
    ensures var row := NewRow(tokens, user, created, settings);
            && (LiveRow(Some(row), now).Some? <==>
                  now < created + settings.idleTtl * 1_000_000 && now < created + settings.absTtl * 1_000_000)
            && row.absExp == created + settings.absTtl * 1_000_000 && row.lastSeen == created && row.user == user
            && TokenSet(row.refresh, row.access, row.accessExp, row.refreshExp) == tokens
  {
  }

  /** A row goes exactly when its absolute end, or its revocation, lies before the cutoff. */
  lemma PurgeMeaning(row: Row, now: Time, graceSeconds: int)
    ensures Purgeable(row, now, graceSeconds) <==>
              || row.absExp + graceSeconds * 1_000_000 < now
              || exists at :: row.revokedAt == Some(at) && at + graceSeconds * 1_000_000 < now
  {
  }

  // ---------- the table ----------

  class SessionTable {
    var rows: map<Sid, Row>
    const settings: Settings

    constructor (settings: Settings)
      ensures rows == map[] && this.settings == settings
    {
      rows := map[];
      this.settings := settings;
    }

    function At(sid: Sid): Option<Row>
      reads this
    {
      if sid in rows then Some(rows[sid]) else None
    }

    /** `sid` is the freshly drawn random identifier. */
    method Create(tokens: TokenSet, user: string, sid: Sid, now: Time)
      requires sid !in rows
      modifies this
      ensures rows == old(rows)[sid := NewRow(tokens, user, now, settings)]
    {
      rows := rows[sid := NewRow(tokens, user, now, settings)];
    }

    /** An absent or empty cookie has no session. */
    method Lookup(cookie: Option<Sid>, now: Time) returns (found: Option<Row>)
      ensures found.Some? <==>
                && cookie.Some? && cookie.value in rows
                && rows[cookie.value].revokedAt.None?
                && now < rows[cookie.value].idleExp && now < rows[cookie.value].absExp
      ensures found.Some? ==> found.value == rows[cookie.value]
    {
      if cookie.None? {
        return None;
      }
      found := LiveRow(At(cookie.value), now);
    }

    /** The update names the row by id: a purged row is not brought back. */
    method Touch(sid: Sid, row: Row, now: Time)
      modifies this
      ensures rows.Keys == old(rows).Keys
      ensures forall s :: s in rows && s != sid ==> rows[s] == old(rows)[s]
      ensures sid in rows ==> rows[sid] == Touched(old(rows)[sid], now, NewIdle(row.absExp, now, settings))
    {
      var newIdle := NewIdle(row.absExp, now, settings);
      if sid in rows {
        rows := rows[sid := Touched(rows[sid], now, newIdle)];
      }
    }

    /** The refresh with its pauses closed up: `t0` is the first clock reading, `t1` the one
        under the lock, `t2` the one after the reply. `logout` is the token that Keycloak is
        asked to end afterwards. */
    method SilentlyRefreshIfNeeded(sid: Sid, seen: Row, t0: Time, t1: Time, readable: bool,
                                   resp: TokenResponse, t2: Time)
      returns (result: Result<Row, AuthError>, logout: Option<RefreshToken>)
      modifies this
      ensures (At(sid), result) == RefreshOutcome(seen, old(At(sid)), t0, t1, readable, resp, t2)
      ensures rows.Keys == old(rows).Keys
      ensures forall s :: s in rows && s != sid ==> rows[s] == old(rows)[s]
      ensures logout.Some? <==> sid in rows && GoesToKeycloak(seen, old(rows)[sid], t0, t1, readable) && Refusal(resp)
      ensures logout.Some? ==> logout.value == old(rows)[sid].refresh
    {
      logout := None;
      if seen.accessExp > t0 + REFRESH_MARGIN {
        return Ok(seen), None;
      }
      if sid !in rows {
        return Err(RowGone), None;
      }
      var latest := rows[sid];
      if latest.revokedAt.Some? {
        return Err(SessionRevoked), None;
      }
      if latest.accessExp > t1 + REFRESH_MARGIN {
        return Ok(latest), None;
      }
      if !readable {
        rows := rows[sid := Revoked(latest, t2, DecryptFailed)];
        return Err(CiphertextInvalid), None;
      }
      var reply := PostToken(resp, t2);
      if reply.Err? {
        if KillsSession(reply.error) {
          rows := rows[sid := Revoked(latest, t2, RefreshReuse)];
          logout := Some(latest.refresh);
        }
        return Err(reply.error), logout;
      }
      latest := Rotated(latest, reply.value);
      rows := rows[sid := latest];
      return Ok(latest), None;
    }

    /** Ends one session; `row` is the caller's copy. The write happens before the token is
        sent to Keycloak's logout endpoint. */
    method Revoke(sid: Sid, row: Row, readable: bool, now: Time) returns (logout: Option<RefreshToken>)
      modifies this
      ensures row.revokedAt.Some? ==> rows == old(rows) && logout.None?
      ensures rows.Keys == old(rows).Keys
      ensures forall s :: s in rows && s != sid ==> rows[s] == old(rows)[s]
      ensures row.revokedAt.None? && sid in rows ==> rows[sid] == old(rows)[sid].(revokedAt := Some(now), reason := Some(Logout))
      ensures row.revokedAt.None? ==> logout == if readable then Some(row.refresh) else None
    {
      if row.revokedAt.Some? {
        return None;
      }
      logout := if readable then Some(row.refresh) else None;
      if sid in rows {
        rows := rows[sid := Revoked(rows[sid], now, Logout)];
      }
    }

    ghost predicate LiveOf(sub: string, s: Sid)
      reads this
    {
      s in rows && rows[s].user == sub && rows[s].revokedAt.None?
    }

    /** Every unrevoked row of `sub` is revoked, and only those; the readable tokens among
        them are first sent to Keycloak. */
    method RevokeAllForUser(sub: string, readable: set<Sid>, now: Time)
      returns (count: nat, logouts: seq<RefreshToken>)
      modifies this
      ensures rows.Keys == old(rows).Keys
      ensures forall s :: s in rows ==>
                rows[s] == if old(LiveOf(sub, s)) then old(rows)[s].(revokedAt := Some(now), reason := Some(LogoutAll)) else old(rows)[s]
      ensures forall s :: old(LiveOf(sub, s)) && s in readable ==> old(rows)[s].refresh in logouts
      ensures forall t :: t in logouts ==> exists s :: old(LiveOf(sub, s)) && s in readable && old(rows)[s].refresh == t
      ensures count == |set s | s in old(rows) && old(rows)[s].user == sub && old(rows)[s].revokedAt.None?|
    {
      var live := set s | s in rows && rows[s].user == sub && rows[s].revokedAt.None?;
      var todo := live;
      logouts := [];
      while todo != {}
        invariant todo <= live
        invariant forall s :: s in live - todo && s in readable ==> rows[s].refresh in logouts
        invariant forall t :: t in logouts ==> exists s :: LiveOf(sub, s) && s in readable && rows[s].refresh == t
        decreases todo
      {
        var s :| s in todo;
        if s in readable {
          assert LiveOf(sub, s);
          logouts := logouts + [rows[s].refresh];
        }
        todo := todo - {s};
      }
      rows := map s | s in rows :: if s in live then Revoked(rows[s], now, LogoutAll) else rows[s];
      count := |live|;
    }

    method DeleteExpired(now: Time, graceSeconds: int) returns (count: nat)
      modifies this
      ensures rows == map s | s in old(rows) && !Purgeable(old(rows)[s], now, graceSeconds) :: old(rows)[s]
      ensures count == |old(rows)| - |rows|
      ensures graceSeconds >= 0 ==> forall s, later :: now <= later ==> LiveRow(At(s), later) == old(LiveRow(At(s), later))
    {
      var gone := set s | s in rows && Purgeable(rows[s], now, graceSeconds);
      assert |rows.Keys - gone| == |rows.Keys| - |gone|;
      ghost var before := rows;
      rows := rows - gone;
      assert rows.Keys == before.Keys - gone;
      assert |before| == |before.Keys| && |rows| == |rows.Keys|;
      count := |gone|;
    }
  }
}
