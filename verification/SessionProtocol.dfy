/** One session row shared by any number of concurrent requests, and the single-use refresh
    token family that Keycloak keeps for it. Every pause in the request path is a step of its
    own, so a run is any interleaving of the steps below. */
module SessionProtocol {
  import opened Wrappers
  import opened WebSession

  type Worker = nat

  datatype Request = Use | Logout | LogoutAll

  /** Where one request stands. `latest` is the copy read under the row lock. */
  datatype Pc =
    | Begin(request: Request)
    | SawRow(row: Row)
    | WaitLock(row: Row)
    | Locked(latest: Row)
    | Presenting(latest: Row)
    | Granted(latest: Row, token: RefreshToken)
    | Received(latest: Row, tokens: TokenSet)
    | Refused(latest: Row)
    | Unreadable(latest: Row)
    | Serving(row: Row, exchanged: bool, servedAt: Time, locked: bool)
    | TouchWritten(seenAt: Time, newIdle: Time)
    | LogoutSaw(row: Row)
    | LogoutTell
    | AllSaw
    | AllTold
    | Ended

  /** Keycloak's side: only `current` can be exchanged, and only while the family lives. */
  datatype Family = Family(current: RefreshToken, alive: bool)

  /** Everything the requests share.
      `lost`: a rotation took place whose tokens never reached the row.
      `killed`: Keycloak was told, or decided by itself, to end the family before the row was revoked.
      `rejected`: Keycloak answered unauthorized_client.
      `rotations` holds the time of each rotation, `grants` the lifetime of each received token. */
  datatype Shared = Shared(now: Time, committed: Option<Row>, lock: Option<Worker>, family: Family,
                           lost: bool, killed: bool, rejected: bool,
                           rotations: seq<Time>, grants: seq<int>)

  datatype State = State(shared: Shared, workers: map<Worker, Pc>)

  /** `freshRead`: the locking re-read returns the committed row. Without it the re-read
      returns the copy that the request loaded at lookup. */
  datatype Config = Config(freshRead: bool, settings: Settings, created: Time)

  datatype Step =
    | Tick(to: Time)
    | KcEnd
    | Purge(grace: nat)
    | Spawn(w: Worker, request: Request)
    | Run(w: Worker, action: Action)

  datatype Action =
    | LookupRow
    | Decide
    | Lock
    | Reread(readable: bool)
    | KcRotate
    | KcRefuse(ends: bool)
    | KcReject
    | Receive(expiresIn: Option<int>, refreshExpiresIn: Option<int>)
    | CommitRefresh
    | CommitRevoke(at: Time)
    | Touch(at: Time)
    | CommitTouch
    | LogoutRevoke(at: Time, readable: bool)
    | KcLogout(ends: bool)
    | AllTell(ends: bool)
    | AllRevoke(at: Time)
    | Crash

  predicate FreshTokens(tokens: TokenSet, now: Time) {
    tokens.access.receivedAt <= now && tokens.accessExp == AccessExpiry(tokens.access)
  }

  /** Tokens that a reply of the token endpoint has brought. */
  ghost predicate Issued(tokens: TokenSet, now: Time) {
    exists resp, at :: at <= now && PostToken(resp, at) == Ok(tokens)
  }

  lemma IssuedIsFresh(tokens: TokenSet, now: Time)
    requires Issued(tokens, now)
    ensures FreshTokens(tokens, now)
  {
    var resp, at :| at <= now && PostToken(resp, at) == Ok(tokens);
    PostTokenMeaning(resp, at);
  }

  function Init(cfg: Config, user: string, tokens: TokenSet): State {
    State(Shared(cfg.created, Some(NewRow(tokens, user, cfg.created, cfg.settings)), None,
                 Family(tokens.refresh, true), false, false, false, [], []),
          map[])
  }

  predicate Gone(row: Option<Row>) {
    row.None? || row.value.revokedAt.Some?
  }

  // Updates that name the row by id: a purged row is not brought back.

  function SetTokens(row: Option<Row>, tokens: TokenSet): Option<Row> {
    if row.None? then None else Some(Rotated(row.value, tokens))
  }

  function SetRevoked(row: Option<Row>, at: Time, reason: Reason): Option<Row> {
    if row.None? then None else Some(Revoked(row.value, at, reason))
  }

  function SetTouched(row: Option<Row>, seenAt: Time, newIdle: Time): Option<Row> {
    if row.None? then None else Some(Touched(row.value, seenAt, newIdle))
  }

  /** The lock once a transaction of `w` has ended. */
  function Released(s: Shared, w: Worker): Option<Worker> {
    if s.lock == Some(w) then None else s.lock
  }

  predicate InFlight(pc: Pc) {
    pc.Granted? || pc.Received?
  }

  predicate Exchangeable(s: Shared, latest: Row) {
    s.family.alive && latest.refresh == s.family.current
  }

  function EndFamily(s: Shared, ends: bool): Shared {
    s.(family := s.family.(alive := s.family.alive && !ends))
  }

  /** Reading the row, waiting for its lock and taking it: the lock afterwards, and where `w`
      stands then; None where the action is not possible. */
  function ActLocally(cfg: Config, s: Shared, w: Worker, pc: Pc, action: Action): Option<(Option<Worker>, Pc)> {
    match action
    case LookupRow =>
      if !pc.Begin? then None
      else if pc.request.LogoutAll? then Some((s.lock, AllSaw))
      else
        var live := LiveRow(s.committed, s.now);
        if live.None? then Some((s.lock, Ended))
        else Some((s.lock, if pc.request.Use? then SawRow(live.value) else LogoutSaw(live.value)))
    case Decide =>
      if !pc.SawRow? then None
      else if NeedsRefresh(pc.row, s.now) then Some((s.lock, WaitLock(pc.row)))
      else Some((s.lock, Serving(pc.row, false, s.now, false)))
    case Lock =>
      if !pc.WaitLock? || s.lock.Some? then None
      else if s.committed.None? then Some((s.lock, Ended))
      else Some((Some(w), Locked(if cfg.freshRead then s.committed.value else pc.row)))
    case Reread(readable) =>
      if !pc.Locked? then None
      else if pc.latest.revokedAt.Some? then Some((Released(s, w), Ended))
      else if !NeedsRefresh(pc.latest, s.now) then Some((s.lock, Serving(pc.latest, false, s.now, true)))
      else if !readable then Some((s.lock, Unreadable(pc.latest)))
      else Some((s.lock, Presenting(pc.latest)))
    case Touch(at) =>
      if !pc.Serving? || at > s.now || (!pc.locked && s.lock.Some?) then None
      else if s.committed.None? then Some((Released(s, w), Ended))
      else Some((Some(w), TouchWritten(at, NewIdle(pc.row.absExp, at, cfg.settings))))
    case _ => None
  }

  /** Talking to Keycloak: neither the row nor its lock is touched. */
  function ActAtKeycloak(s: Shared, pc: Pc, action: Action): Option<(Shared, Pc)> {
    match action
    case KcRotate =>
      if !pc.Presenting? || !Exchangeable(s, pc.latest) then None
      else
        var token := s.family.current + 1;
        Some((s.(family := s.family.(current := token), rotations := s.rotations + [s.now]),
              Granted(pc.latest, token)))
    case KcRefuse(ends) =>
      if !pc.Presenting? || Exchangeable(s, pc.latest) then None
      else Some((EndFamily(s, ends).(killed := s.killed || ends), Refused(pc.latest)))
    case KcReject =>
      if !pc.Presenting? then None else Some((s.(rejected := true), Refused(pc.latest)))
    case Receive(e, re) =>
      if !pc.Granted? then None
      else
        var tokens := PostToken(Success(Some(pc.token), e, re), s.now).value;
        Some((s.(grants := s.grants + [tokens.access.expiresIn]), Received(pc.latest, tokens)))
    case KcLogout(ends) =>
      if !pc.LogoutTell? then None else Some((EndFamily(s, ends), Ended))
    case AllTell(ends) =>
      if !pc.AllSaw? then None else Some((EndFamily(s, ends).(killed := s.killed || ends), AllTold))
    case _ => None
  }

  /** Ending a transaction, with what it leaves in the row. */
  function ActOnRow(s: Shared, pc: Pc, action: Action): Option<(Option<Row>, Pc)> {
    match action
    case CommitRefresh =>
      if !pc.Received? then None
      else Some((SetTokens(s.committed, pc.tokens), Serving(Rotated(pc.latest, pc.tokens), true, s.now, false)))
    case CommitRevoke(at) =>
      if at > s.now then None
      else if pc.Refused? then Some((SetRevoked(s.committed, at, RefreshReuse), LogoutTell))
      else if pc.Unreadable? then Some((SetRevoked(s.committed, at, DecryptFailed), Ended))
      else None
    case CommitTouch =>
      if !pc.TouchWritten? then None
      else Some((SetTouched(s.committed, pc.seenAt, pc.newIdle), Ended))
    case LogoutRevoke(at, readable) =>
      if !pc.LogoutSaw? || at > s.now || s.lock.Some? then None
      else Some((SetRevoked(s.committed, at, Reason.Logout), if readable then LogoutTell else Ended))
    case AllRevoke(at) =>
      if !pc.AllTold? || at > s.now || s.lock.Some? then None
      else Some((if Gone(s.committed) then s.committed else SetRevoked(s.committed, at, Reason.LogoutAll), Ended))
    case Crash =>
      Some((s.committed, Ended))
    case _ => None
  }

  predicate IsLocal(action: Action) {
    action.LookupRow? || action.Decide? || action.Lock? || action.Reread? || action.Touch?
  }

  predicate AtKeycloak(action: Action) {
    || action.KcRotate? || action.KcRefuse? || action.KcReject? || action.Receive?
    || action.KcLogout? || action.AllTell?
  }

  /** The state once a transaction of `w` has ended with `row`. A crash in mid-exchange loses
      the new tokens. */
  function AfterEnd(s: Shared, w: Worker, pc: Pc, action: Action, row: Option<Row>): Shared {
    s.(committed := row, lock := Released(s, w), lost := s.lost || (action.Crash? && InFlight(pc)))
  }

  /** What `w`, standing at `pc`, does to the shared state and where it stands then;
      None where the action is not possible. */
  function Act(cfg: Config, s: Shared, w: Worker, pc: Pc, action: Action): Option<(Shared, Pc)> {
    if IsLocal(action) then
      match ActLocally(cfg, s, w, pc, action)
      case None => None
      case Some((lock, next)) => Some((s.(lock := lock), next))
    else if AtKeycloak(action) then ActAtKeycloak(s, pc, action)
    else
      match ActOnRow(s, pc, action)
      case None => None
      case Some((row, next)) => Some((AfterEnd(s, w, pc, action, row), next))
  }

  /** The state after `step`, or None where the step is not possible. */
  function Apply(cfg: Config, s: State, step: Step): Option<State> {
    match step
    case Tick(to) =>
      if to < s.shared.now then None else Some(s.(shared := s.shared.(now := to)))
    case KcEnd =>
      Some(s.(shared := EndFamily(s.shared, true).(killed := true)))
    case Purge(grace) =>
      if s.shared.lock.None? && s.shared.committed.Some? && Purgeable(s.shared.committed.value, s.shared.now, grace)
      then Some(s.(shared := s.shared.(committed := None))) else None
    case Spawn(w, request) =>
      if w in s.workers then None else Some(s.(workers := s.workers[w := Begin(request)]))
    case Run(w, action) =>
      if w !in s.workers then None
      else
        match Act(cfg, s.shared, w, s.workers[w], action)
        case None => None
        case Some((shared, pc)) => Some(State(shared, s.workers[w := pc]))
  }

  ghost predicate Next(cfg: Config, s: State, t: State) {
    exists step :: Apply(cfg, s, step) == Some(t)
  }

  ghost predicate StepAt(cfg: Config, trace: seq<State>, i: nat)
    requires i + 1 < |trace|
  {
    Next(cfg, trace[i], trace[i + 1])
  }

  /** A run starts from a freshly created session and takes any possible step each time. */
  ghost predicate IsRun(cfg: Config, trace: seq<State>) {
    && |trace| > 0
    && (exists user, tokens :: Issued(tokens, cfg.created) && trace[0] == Init(cfg, user, tokens))
    && forall i :: 0 <= i < |trace| - 1 ==> StepAt(cfg, trace, i)
  }

  // ---------- what every step keeps ----------
  //
  // Common(s) speaks of the shared state alone, Local(s, w, pc) of one request against it.
  // An action re-establishes both for the request that takes it, and Guarantee says what the
  // other requests may rely on.

  predicate Holds(pc: Pc) {
    || pc.Locked? || pc.Presenting? || pc.Granted? || pc.Received? || pc.Refused? || pc.Unreadable?
    || pc.TouchWritten? || (pc.Serving? && pc.locked)
  }

  predicate Exchanging(pc: Pc) {
    pc.Presenting? || pc.Granted? || pc.Received? || pc.Refused? || pc.Unreadable?
  }

  predicate Disturbed(s: Shared) {
    s.lost || s.killed || s.rejected
  }

  predicate LockLocal(cfg: Config, s: Shared, w: Worker, pc: Pc) {
    && (Holds(pc) <==> s.lock == Some(w))
    && (Holds(pc) ==> s.committed.Some?)
    && (pc.LogoutTell? ==> Gone(s.committed))
    && (cfg.freshRead && pc.Locked? ==> s.committed == Some(pc.latest))
    && (cfg.freshRead && Exchanging(pc) ==> s.committed == Some(pc.latest) && pc.latest.revokedAt.None?)
  }

  /** Which refresh token the row holds, against Keycloak's current one. */
  predicate RotationCommon(s: Shared) {
    s.committed.Some? ==>
      var held := s.committed.value.refresh;
      && (s.lost ==> held < s.family.current)
      && (!s.lost && s.lock.None? ==> held == s.family.current)
  }

  predicate RotationLocal(s: Shared, pc: Pc) {
    Holds(pc) && s.committed.Some? ==>
      var held := s.committed.value.refresh;
      && (pc.Granted? ==> !s.lost && pc.token == s.family.current == held + 1)
      && (pc.Received? ==> !s.lost && pc.tokens.refresh == s.family.current == held + 1)
      && (!InFlight(pc) && !s.lost ==> held == s.family.current)
  }

  predicate CauseCommon(s: Shared) {
    && (!s.family.alive ==> s.killed || Gone(s.committed))
    && (s.committed.Some? && s.committed.value.reason == Some(RefreshReuse) ==> Disturbed(s))
  }

  predicate CauseLocal(s: Shared, pc: Pc) {
    pc.Refused? ==> Disturbed(s)
  }

  function AbsoluteEnd(cfg: Config): Time {
    cfg.created + cfg.settings.absTtl * SECOND
  }

  predicate Dated(cfg: Config, s: Shared, row: Row) {
    && row.absExp == AbsoluteEnd(cfg)
    && row.access.receivedAt <= s.now && row.accessExp == AccessExpiry(row.access)
  }

  predicate TimeCommon(cfg: Config, s: Shared) {
    s.committed.Some? ==>
      var row := s.committed.value;
      && Dated(cfg, s, row)
      && (row.idleExp <= row.absExp
          || (row.lastSeen == cfg.created && row.idleExp == cfg.created + cfg.settings.idleTtl * SECOND))
  }

  predicate TimeLocal(cfg: Config, s: Shared, pc: Pc) {
    && (pc.SawRow? || pc.WaitLock? || pc.Serving? || pc.LogoutSaw? ==> Dated(cfg, s, pc.row))
    && (pc.Locked? || Exchanging(pc) ==> Dated(cfg, s, pc.latest))
    && (pc.Received? ==> FreshTokens(pc.tokens, s.now))
    && (pc.Serving? && !pc.exchanged ==>
          pc.row.access.receivedAt <= pc.servedAt && pc.row.access.GrantedUntil() > pc.servedAt + 120 * SECOND)
    && (pc.TouchWritten? ==> pc.newIdle <= AbsoluteEnd(cfg))
  }

  /** The time a token granted for `e` seconds keeps further exchanges away. */
  function Gap(e: int): int {
    (Max(e - 60, 30) - 60) * SECOND
  }

  predicate SpacingCommon(s: Shared) {
    var n := |s.rotations|;
    && |s.grants| <= n <= |s.grants| + 1
    && (forall i :: 0 <= i < n - 1 ==> s.rotations[i + 1] >= s.rotations[i] + Gap(s.grants[i]))
    && (n > 0 ==> s.rotations[n - 1] <= s.now)
    && (s.committed.Some? && !s.lost && s.lock.None? ==> ExpiryFollows(s, s.committed.value.accessExp))
  }

  /** `exp` is the expiry that belongs to the latest rotation. */
  predicate ExpiryFollows(s: Shared, exp: Time) {
    var n := |s.rotations|;
    n > 0 ==> |s.grants| == n && exp >= s.rotations[n - 1] + Gap(s.grants[n - 1]) + REFRESH_MARGIN
  }

  predicate SpacingLocal(s: Shared, pc: Pc) {
    && (pc.Presenting? ==> NeedsRefresh(pc.latest, s.now))
    && (pc.Granted? ==> |s.grants| == |s.rotations| - 1)
    && (pc.Received? ==> |s.rotations| > 0 && ExpiryFollows(s, pc.tokens.accessExp))
    && (Holds(pc) && !InFlight(pc) && s.committed.Some? && !s.lost ==> ExpiryFollows(s, s.committed.value.accessExp))
  }

  predicate Common(cfg: Config, s: Shared) {
    && TimeCommon(cfg, s)
    && (cfg.freshRead ==> RotationCommon(s) && CauseCommon(s) && SpacingCommon(s))
  }

  predicate Local(cfg: Config, s: Shared, w: Worker, pc: Pc) {
    && LockLocal(cfg, s, w, pc) && TimeLocal(cfg, s, pc)
    && (cfg.freshRead ==> RotationLocal(s, pc) && CauseLocal(s, pc) && SpacingLocal(s, pc))
  }

  /** What a step by others may do while `w` is inside its transaction. */
  predicate Guarantee(s: Shared, t: Shared, w: Worker) {
    && s.now <= t.now
    && (s.lost ==> t.lost) && (s.killed ==> t.killed) && (s.rejected ==> t.rejected)
    && (Gone(s.committed) ==> Gone(t.committed))
    && (s.lock == Some(w) <==> t.lock == Some(w))
    && (s.lock == Some(w) ==>
          && t.committed == s.committed && t.lost == s.lost && t.family.current == s.family.current
          && t.rotations == s.rotations && t.grants == s.grants)
  }

  predicate Mine(lock: Option<Worker>, w: Worker) {
    lock.None? || lock == Some(w)
  }

  /** What no action of `w` does: move the clock, forget a cause, bring a row back, exchange a
      token for a row that is gone, or touch what another holds the lock for. */
  predicate Exclusive(cfg: Config, s: Shared, t: Shared, w: Worker) {
    && t.now == s.now
    && (s.lost ==> t.lost) && (s.killed ==> t.killed) && (s.rejected ==> t.rejected)
    && (Gone(s.committed) ==> Gone(t.committed)) && (s.committed.None? ==> t.committed.None?)
    && (cfg.freshRead && Gone(s.committed) ==> t.rotations == s.rotations)
    && (t.lock == s.lock || (Mine(s.lock, w) && Mine(t.lock, w)))
    && (!Mine(s.lock, w) ==>
          && t.committed == s.committed && t.lost == s.lost && t.family.current == s.family.current
          && t.rotations == s.rotations && t.grants == s.grants)
  }

  lemma ExclusiveGuarantees(cfg: Config, s: Shared, t: Shared, w: Worker, other: Worker)
    requires Exclusive(cfg, s, t, w) && other != w
    ensures Guarantee(s, t, other)
  {
  }

  // ---------- reading and locking ----------

  predicate Locally(cfg: Config, s: Shared, w: Worker, pc: Pc, action: Action, t: Shared, qc: Pc) {
    ActLocally(cfg, s, w, pc, action) == Some((t.lock, qc)) && t == s.(lock := t.lock)
  }

  lemma LocallyKeepsLock(cfg: Config, s: Shared, w: Worker, pc: Pc, action: Action, t: Shared, qc: Pc)
    requires LockLocal(cfg, s, w, pc) && Locally(cfg, s, w, pc, action, t, qc)
    ensures LockLocal(cfg, t, w, qc) && Exclusive(cfg, s, t, w)
    ensures !InFlight(pc) && !InFlight(qc) && !qc.Refused?
    ensures Holds(qc) || t.lock.None? ==> Holds(pc) || s.lock.None?
  {
  }

  lemma LocallyKeepsTime(cfg: Config, s: Shared, w: Worker, pc: Pc, action: Action, t: Shared, qc: Pc)
    requires LockLocal(cfg, s, w, pc) && Locally(cfg, s, w, pc, action, t, qc)
    requires TimeCommon(cfg, s) && TimeLocal(cfg, s, pc)
    ensures TimeCommon(cfg, t) && TimeLocal(cfg, t, qc)
  {
  }

  lemma LocallyKeepsTokens(cfg: Config, s: Shared, w: Worker, pc: Pc, action: Action, t: Shared, qc: Pc)
    requires cfg.freshRead && LockLocal(cfg, s, w, pc) && Locally(cfg, s, w, pc, action, t, qc)
    requires Common(cfg, s) && Local(cfg, s, w, pc)
    ensures RotationCommon(t) && RotationLocal(t, qc) && CauseCommon(t) && CauseLocal(t, qc)
  {
    LocallyKeepsLock(cfg, s, w, pc, action, t, qc);
  }

  lemma LocallyKeepsSpacing(cfg: Config, s: Shared, w: Worker, pc: Pc, action: Action, t: Shared, qc: Pc)
    requires LockLocal(cfg, s, w, pc) && Locally(cfg, s, w, pc, action, t, qc)
    requires SpacingCommon(s) && SpacingLocal(s, pc)
    ensures SpacingCommon(t) && SpacingLocal(t, qc)
  {
    LocallyKeepsLock(cfg, s, w, pc, action, t, qc);
  }

  // ---------- Keycloak ----------

  predicate AskingKeycloak(s: Shared, pc: Pc, action: Action, t: Shared, qc: Pc) {
    ActAtKeycloak(s, pc, action) == Some((t, qc))
  }

  lemma KeycloakKeepsLock(cfg: Config, s: Shared, w: Worker, pc: Pc, action: Action, t: Shared, qc: Pc)
    requires LockLocal(cfg, s, w, pc) && AskingKeycloak(s, pc, action, t, qc)
    ensures LockLocal(cfg, t, w, qc) && Exclusive(cfg, s, t, w)
    ensures t.committed == s.committed && t.lock == s.lock && (Holds(qc) <==> Holds(pc))
  {
  }

  lemma KeycloakKeepsTime(cfg: Config, s: Shared, pc: Pc, action: Action, t: Shared, qc: Pc)
    requires AskingKeycloak(s, pc, action, t, qc) && TimeCommon(cfg, s) && TimeLocal(cfg, s, pc)
    ensures TimeCommon(cfg, t) && TimeLocal(cfg, t, qc)
  {
  }

  lemma KeycloakKeepsTokens(cfg: Config, s: Shared, w: Worker, pc: Pc, action: Action, t: Shared, qc: Pc)
    requires cfg.freshRead && LockLocal(cfg, s, w, pc) && AskingKeycloak(s, pc, action, t, qc)
    requires RotationCommon(s) && RotationLocal(s, pc) && CauseCommon(s) && CauseLocal(s, pc)
    ensures RotationCommon(t) && RotationLocal(t, qc) && CauseCommon(t) && CauseLocal(t, qc)
  {
  }

  lemma RotateKeepsSpacing(cfg: Config, s: Shared, w: Worker, pc: Pc, t: Shared, qc: Pc)
    requires cfg.freshRead && LockLocal(cfg, s, w, pc) && AskingKeycloak(s, pc, KcRotate, t, qc)
    requires RotationCommon(s) && RotationLocal(s, pc) && SpacingCommon(s) && SpacingLocal(s, pc)
    ensures SpacingCommon(t) && SpacingLocal(t, qc)
  {
    assert !s.lost && NeedsRefresh(pc.latest, s.now) && ExpiryFollows(s, pc.latest.accessExp);
    var n := |s.rotations|;
    if n > 0 {
      assert s.now >= s.rotations[n - 1] + Gap(s.grants[n - 1]);
    }
  }

  lemma ReceiveKeepsSpacing(cfg: Config, s: Shared, w: Worker, pc: Pc, action: Action, t: Shared, qc: Pc)
    requires action.Receive? && LockLocal(cfg, s, w, pc) && AskingKeycloak(s, pc, action, t, qc)
    requires SpacingCommon(s) && SpacingLocal(s, pc)
    ensures SpacingCommon(t) && SpacingLocal(t, qc)
  {
    assert Gap(t.grants[|s.grants|]) + REFRESH_MARGIN == qc.tokens.accessExp - s.now;
  }

  lemma KeycloakKeepsSpacing(cfg: Config, s: Shared, w: Worker, pc: Pc, action: Action, t: Shared, qc: Pc)
    requires cfg.freshRead && LockLocal(cfg, s, w, pc) && AskingKeycloak(s, pc, action, t, qc)
    requires RotationCommon(s) && RotationLocal(s, pc) && SpacingCommon(s) && SpacingLocal(s, pc)
    ensures SpacingCommon(t) && SpacingLocal(t, qc)
  {
    if action.KcRotate? {
      RotateKeepsSpacing(cfg, s, w, pc, t, qc);
    } else if action.Receive? {
      ReceiveKeepsSpacing(cfg, s, w, pc, action, t, qc);
    }
  }

  // ---------- ending a transaction ----------

  predicate Ending(s: Shared, w: Worker, pc: Pc, action: Action, t: Shared, qc: Pc) {
    ActOnRow(s, pc, action) == Some((t.committed, qc)) && t == AfterEnd(s, w, pc, action, t.committed)
  }

  lemma EndingKeepsLock(cfg: Config, s: Shared, w: Worker, pc: Pc, action: Action, t: Shared, qc: Pc)
    requires LockLocal(cfg, s, w, pc) && Ending(s, w, pc, action, t, qc)
    ensures LockLocal(cfg, t, w, qc) && Exclusive(cfg, s, t, w) && !Holds(qc)
    ensures t.lock.None? ==> s.lock.None? || Holds(pc)
  {
  }

  /** All that is written of a row but by CommitRefresh leaves its token and expiry alone. */
  lemma EndingKeepsExpiry(s: Shared, w: Worker, pc: Pc, action: Action, t: Shared, qc: Pc)
    requires Ending(s, w, pc, action, t, qc) && !action.CommitRefresh?
    ensures t.committed.Some? <==> s.committed.Some?
    ensures s.committed.Some? ==>
              && t.committed.value.accessExp == s.committed.value.accessExp
              && t.committed.value.refresh == s.committed.value.refresh
    ensures InFlight(pc) ==> t.lost
  {
  }

  lemma EndingKeepsTime(cfg: Config, s: Shared, w: Worker, pc: Pc, action: Action, t: Shared, qc: Pc)
    requires LockLocal(cfg, s, w, pc) && Ending(s, w, pc, action, t, qc)
    requires TimeCommon(cfg, s) && TimeLocal(cfg, s, pc)
    ensures TimeCommon(cfg, t) && TimeLocal(cfg, t, qc)
  {
  }

  lemma EndingKeepsRotation(cfg: Config, s: Shared, w: Worker, pc: Pc, action: Action, t: Shared, qc: Pc)
    requires LockLocal(cfg, s, w, pc) && Ending(s, w, pc, action, t, qc)
    requires RotationCommon(s) && RotationLocal(s, pc)
    ensures RotationCommon(t) && RotationLocal(t, qc)
  {
    EndingKeepsLock(cfg, s, w, pc, action, t, qc);
    if !action.CommitRefresh? {
      EndingKeepsExpiry(s, w, pc, action, t, qc);
    }
  }

  lemma EndingKeepsCause(s: Shared, w: Worker, pc: Pc, action: Action, t: Shared, qc: Pc)
    requires Ending(s, w, pc, action, t, qc) && CauseCommon(s) && CauseLocal(s, pc)
    ensures CauseCommon(t) && CauseLocal(t, qc)
  {
  }

  lemma EndingKeepsSpacing(cfg: Config, s: Shared, w: Worker, pc: Pc, action: Action, t: Shared, qc: Pc)
    requires LockLocal(cfg, s, w, pc) && Ending(s, w, pc, action, t, qc)
    requires SpacingCommon(s) && SpacingLocal(s, pc)
    ensures SpacingCommon(t) && SpacingLocal(t, qc)
  {
    EndingKeepsLock(cfg, s, w, pc, action, t, qc);
    if !action.CommitRefresh? {
      EndingKeepsExpiry(s, w, pc, action, t, qc);
    }
  }

  // ---------- any action ----------

  lemma WhichAction(cfg: Config, s: Shared, w: Worker, pc: Pc, action: Action, t: Shared, qc: Pc)
    requires Act(cfg, s, w, pc, action) == Some((t, qc))
    ensures IsLocal(action) ==> Locally(cfg, s, w, pc, action, t, qc)
    ensures AtKeycloak(action) ==> AskingKeycloak(s, pc, action, t, qc)
    ensures !IsLocal(action) && !AtKeycloak(action) ==> Ending(s, w, pc, action, t, qc)
  {
  }

  lemma ActKeepsLock(cfg: Config, s: Shared, w: Worker, pc: Pc, action: Action, t: Shared, qc: Pc)
    requires LockLocal(cfg, s, w, pc) && Act(cfg, s, w, pc, action) == Some((t, qc))
    ensures LockLocal(cfg, t, w, qc) && Exclusive(cfg, s, t, w)
  {
    WhichAction(cfg, s, w, pc, action, t, qc);
    if IsLocal(action) {
      LocallyKeepsLock(cfg, s, w, pc, action, t, qc);
    } else if AtKeycloak(action) {
      KeycloakKeepsLock(cfg, s, w, pc, action, t, qc);
    } else {
      EndingKeepsLock(cfg, s, w, pc, action, t, qc);
    }
  }

  /** Every action re-establishes, for the request that takes it, all that is said of the
      shared state and of the request: the lock, the dates, which token the row holds, the
      causes and the spacing of exchanges. */
  lemma ActKeepsInvariants(cfg: Config, s: Shared, w: Worker, pc: Pc, action: Action, t: Shared, qc: Pc)
    requires Common(cfg, s) && Local(cfg, s, w, pc) && Act(cfg, s, w, pc, action) == Some((t, qc))
    ensures Common(cfg, t) && Local(cfg, t, w, qc)
  {
    WhichAction(cfg, s, w, pc, action, t, qc);
    ActKeepsLock(cfg, s, w, pc, action, t, qc);
    if IsLocal(action) {
      LocallyKeepsTime(cfg, s, w, pc, action, t, qc);
      if cfg.freshRead {
        LocallyKeepsTokens(cfg, s, w, pc, action, t, qc);
        LocallyKeepsSpacing(cfg, s, w, pc, action, t, qc);
      }
    } else if AtKeycloak(action) {
      KeycloakKeepsTime(cfg, s, pc, action, t, qc);
      if cfg.freshRead {
        KeycloakKeepsTokens(cfg, s, w, pc, action, t, qc);
        KeycloakKeepsSpacing(cfg, s, w, pc, action, t, qc);
      }
    } else {
      EndingKeepsTime(cfg, s, w, pc, action, t, qc);
      if cfg.freshRead {
        EndingKeepsRotation(cfg, s, w, pc, action, t, qc);
        EndingKeepsCause(s, w, pc, action, t, qc);
        EndingKeepsSpacing(cfg, s, w, pc, action, t, qc);
      }
    }
  }

  lemma LocalSurvives(cfg: Config, s: Shared, t: Shared, w: Worker, pc: Pc)
    requires Local(cfg, s, w, pc) && Guarantee(s, t, w)
    ensures Local(cfg, t, w, pc)
  {
  }
}
