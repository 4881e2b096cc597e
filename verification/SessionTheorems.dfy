/** What holds in every run of the session protocol. */
module SessionTheorems {
  import opened Wrappers
  import opened WebSession
  import opened SessionProtocol

  ghost predicate Inv(cfg: Config, s: State) {
    && Common(cfg, s.shared)
    && (s.shared.lock.Some? ==> s.shared.lock.value in s.workers)
    && forall w :: w in s.workers ==> Local(cfg, s.shared, w, s.workers[w])
  }

  lemma ActKeepsInv(cfg: Config, s: State, w: Worker, action: Action, t: State)
    requires Inv(cfg, s) && Apply(cfg, s, Run(w, action)) == Some(t)
    ensures Inv(cfg, t)
  {
    var pc, qc := s.workers[w], t.workers[w];
    ActKeepsInvariants(cfg, s.shared, w, pc, action, t.shared, qc);
    ActKeepsLock(cfg, s.shared, w, pc, action, t.shared, qc);
    forall x | x in t.workers && x != w
      ensures Local(cfg, t.shared, x, t.workers[x])
    {
      ExclusiveGuarantees(cfg, s.shared, t.shared, w, x);
      LocalSurvives(cfg, s.shared, t.shared, x, s.workers[x]);
    }
  }

  lemma StepKeepsInv(cfg: Config, s: State, step: Step, t: State)
    requires Inv(cfg, s) && Apply(cfg, s, step) == Some(t)
    ensures Inv(cfg, t)
  {
    if step.Run? {
      ActKeepsInv(cfg, s, step.w, step.action, t);
    } else {
      EnvironmentKeepsInv(cfg, s, step, t);
    }
  }

  /** Steps that no request takes: the clock, Keycloak's own, the purge, a new request. */
  lemma EnvironmentKeepsInv(cfg: Config, s: State, step: Step, t: State)
    requires Inv(cfg, s) && !step.Run? && Apply(cfg, s, step) == Some(t)
    ensures Inv(cfg, t)
  {
    EnvironmentKeepsCommon(cfg, s, step, t);
    forall x | x in t.workers
      ensures Local(cfg, t.shared, x, t.workers[x])
    {
      EnvironmentGuarantees(cfg, s, step, t, x);
      if x in s.workers {
        LocalSurvives(cfg, s.shared, t.shared, x, s.workers[x]);
      }
    }
  }

  lemma EnvironmentKeepsCommon(cfg: Config, s: State, step: Step, t: State)
    requires Common(cfg, s.shared) && !step.Run? && Apply(cfg, s, step) == Some(t)
    ensures Common(cfg, t.shared) && t.shared.lock == s.shared.lock
  {
  }

  /** It changes nothing that a request relies on, and a new request has just begun. */
  lemma EnvironmentGuarantees(cfg: Config, s: State, step: Step, t: State, x: Worker)
    requires !step.Run? && Apply(cfg, s, step) == Some(t) && x in t.workers
    ensures Guarantee(s.shared, t.shared, x)
    ensures if x in s.workers then t.workers[x] == s.workers[x] else t.workers[x].Begin? && t.shared == s.shared
  {
  }

  lemma RunStep(cfg: Config, trace: seq<State>, i: nat)
    requires IsRun(cfg, trace) && i + 1 < |trace|
    ensures Next(cfg, trace[i], trace[i + 1])
  {
    assert StepAt(cfg, trace, i);
  }

  lemma {:induction false} RunInv(cfg: Config, trace: seq<State>, i: nat)
    requires IsRun(cfg, trace) && i < |trace|
    ensures Inv(cfg, trace[i])
  {
    if i == 0 {
      var user, tokens :| Issued(tokens, cfg.created) && trace[0] == Init(cfg, user, tokens);
      IssuedIsFresh(tokens, cfg.created);
    } else {
      RunInv(cfg, trace, i - 1);
      RunStep(cfg, trace, i - 1);
      var step :| Apply(cfg, trace[i - 1], step) == Some(trace[i]);
      StepKeepsInv(cfg, trace[i - 1], step, trace[i]);
    }
  }

  // ---------- rotation safety ----------

  /** Whenever nobody holds the row lock, the row holds Keycloak's current refresh token,
      unless a rotation's tokens were lost on the way, and then it never does. */
  lemma RotationSafety(cfg: Config, trace: seq<State>, i: nat)
    requires cfg.freshRead && IsRun(cfg, trace) && i < |trace|
    ensures var s := trace[i].shared;
            s.lock.None? && s.committed.Some? ==>
              (s.committed.value.refresh == s.family.current <==> !s.lost)
  {
    RunInv(cfg, trace, i);
  }

  /** A token that a request presents is refused as stale or dead only after such a loss, or
      after Keycloak ended the family. */
  lemma PresentedTokenIsCurrent(cfg: Config, trace: seq<State>, i: nat, w: Worker)
    requires cfg.freshRead && IsRun(cfg, trace) && i < |trace|
    requires w in trace[i].workers && trace[i].workers[w].Presenting?
    ensures var s := trace[i].shared;
            && (Exchangeable(s, trace[i].workers[w].latest) <==> !s.lost && s.family.alive)
            && (!s.family.alive ==> s.killed)
  {
    RunInv(cfg, trace, i);
  }

  /** No run without a loss, an ended family or a rejected client ends a session for reuse. */
  ghost predicate ReuseSafe(cfg: Config) {
    forall trace: seq<State> :: IsRun(cfg, trace) ==> ReuseExplained(trace[|trace| - 1].shared)
  }

  predicate ReuseExplained(s: Shared) {
    s.committed.Some? && s.committed.value.reason == Some(RefreshReuse) ==> Disturbed(s)
  }

  lemma FreshReadsAreReuseSafe(cfg: Config)
    requires cfg.freshRead
    ensures ReuseSafe(cfg)
  {
    forall trace: seq<State> | IsRun(cfg, trace)
      ensures ReuseExplained(trace[|trace| - 1].shared)
    {
      RunInv(cfg, trace, |trace| - 1);
    }
  }

  lemma Extend(cfg: Config, trace: seq<State>, step: Step, t: State) returns (longer: seq<State>)
    requires IsRun(cfg, trace) && Apply(cfg, trace[|trace| - 1], step) == Some(t)
    ensures IsRun(cfg, longer) && longer == trace + [t]
  {
    longer := trace + [t];
    forall i | 0 <= i < |longer| - 1
      ensures StepAt(cfg, longer, i)
    {
      if i < |trace| - 1 {
        assert StepAt(cfg, trace, i);
      }
    }
  }

  /** Two requests see the same row; the second takes the lock after the first has committed,
      but re-reads its own old copy and presents the token that was already exchanged. */
  lemma StaleReadsBreakReuseSafety(cfg: Config)
    requires !cfg.freshRead && cfg.settings.idleTtl > 0 && cfg.settings.absTtl > 0
    ensures !ReuseSafe(cfg)
  {
    var now := cfg.created;
    var tokens := PostToken(Success(Some(0), None, None), now).value;
    var row := NewRow(tokens, "u", now, cfg.settings);
    var s0 := Init(cfg, "u", tokens);
    assert IsRun(cfg, [s0]) by {
      assert Issued(tokens, cfg.created) && [s0][0] == Init(cfg, "u", tokens);
    }
    var trace := Queue(cfg, [s0], 1, row);
    trace := Queue(cfg, trace, 2, row);
    trace := WinnerRotates(cfg, trace, row);
    trace := WinnerCommits(cfg, trace, row);
    trace := LoserIsRefused(cfg, trace, row);
    assert !ReuseExplained(trace[|trace| - 1].shared);
  }

  lemma Queue(cfg: Config, trace: seq<State>, w: Worker, row: Row) returns (longer: seq<State>)
    requires IsRun(cfg, trace) && w !in trace[|trace| - 1].workers
    requires var s := trace[|trace| - 1].shared; LiveRow(s.committed, s.now) == Some(row) && NeedsRefresh(row, s.now)
    ensures IsRun(cfg, longer)
    ensures var s := trace[|trace| - 1];
            longer[|longer| - 1] == State(s.shared, s.workers[w := WaitLock(row)])
  {
    var s := trace[|trace| - 1];
    var t := State(s.shared, s.workers[w := Begin(Use)]);
    longer := Extend(cfg, trace, Spawn(w, Use), t);
    var u := State(s.shared, t.workers[w := SawRow(row)]);
    longer := Extend(cfg, longer, Run(w, LookupRow), u);
    longer := Extend(cfg, longer, Run(w, Decide), State(s.shared, u.workers[w := WaitLock(row)]));
    assert u.workers[w := WaitLock(row)] == s.workers[w := WaitLock(row)];
  }

  lemma Moves(cfg: Config, trace: seq<State>, w: Worker, action: Action, s: Shared, pc: Pc) returns (longer: seq<State>)
    requires IsRun(cfg, trace) && w in trace[|trace| - 1].workers
    requires var last := trace[|trace| - 1]; Act(cfg, last.shared, w, last.workers[w], action) == Some((s, pc))
    ensures IsRun(cfg, longer) && |longer| == |trace| + 1
    ensures longer[|longer| - 1] == State(s, trace[|trace| - 1].workers[w := pc])
    ensures longer[|longer| - 2] == trace[|trace| - 1]
  {
    longer := Extend(cfg, trace, Run(w, action), State(s, trace[|trace| - 1].workers[w := pc]));
  }

  ghost predicate BothQueued(cfg: Config, s: State, row: Row) {
    && 1 in s.workers && 2 in s.workers && s.workers[2] == WaitLock(row)
    && row.revokedAt.None? && row.refresh == 0 && row.reason.None? && NeedsRefresh(row, s.shared.now)
    && s.shared.lock.None? && s.shared.family.alive && !Disturbed(s.shared)
  }

  lemma WinnerRotates(cfg: Config, trace: seq<State>, row: Row) returns (longer: seq<State>)
    requires IsRun(cfg, trace)
    requires var s := trace[|trace| - 1];
             BothQueued(cfg, s, row) && s.workers[1] == WaitLock(row) && s.shared.family.current == 0
             && s.shared.committed == Some(row)
    ensures IsRun(cfg, longer)
    ensures var s := longer[|longer| - 1];
            BothQueued(cfg, s.(shared := s.shared.(lock := None)), row)
            && s.workers[1] == Granted(row, 1) && s.shared.family.current == 1 && s.shared.lock == Some(1)
            && s.shared.committed == Some(row)
  {
    var s := trace[|trace| - 1].shared;
    var held := s.(lock := Some(1));
    longer := Moves(cfg, trace, 1, Lock, held, Locked(row));
    longer := Moves(cfg, longer, 1, Reread(true), held, Presenting(row));
    longer := Moves(cfg, longer, 1, KcRotate,
                    held.(family := Family(1, true), rotations := held.rotations + [s.now]), Granted(row, 1));
  }

  lemma WinnerCommits(cfg: Config, trace: seq<State>, row: Row) returns (longer: seq<State>)
    requires IsRun(cfg, trace)
    requires var s := trace[|trace| - 1];
             BothQueued(cfg, s.(shared := s.shared.(lock := None)), row)
             && s.workers[1] == Granted(row, 1) && s.shared.family.current == 1 && s.shared.lock == Some(1)
             && s.shared.committed == Some(row)
    ensures IsRun(cfg, longer)
    ensures var s := longer[|longer| - 1];
            BothQueued(cfg, s, row) && s.shared.family.current == 1 && s.shared.committed.Some?
  {
    var s := trace[|trace| - 1].shared;
    var tokens := PostToken(Success(Some(1), None, None), s.now).value;
    var received := s.(grants := s.grants + [0]);
    longer := Moves(cfg, trace, 1, Receive(None, None), received, Received(row, tokens));
    longer := Moves(cfg, longer, 1, CommitRefresh, received.(lock := None, committed := Some(Rotated(row, tokens))),
                    Serving(Rotated(row, tokens), true, s.now, false));
  }

  lemma LoserIsRefused(cfg: Config, trace: seq<State>, row: Row) returns (longer: seq<State>)
    requires IsRun(cfg, trace) && !cfg.freshRead
    requires var s := trace[|trace| - 1];
             BothQueued(cfg, s, row) && s.shared.family.current == 1 && s.shared.committed.Some?
    ensures IsRun(cfg, longer)
    ensures !ReuseExplained(longer[|longer| - 1].shared)
  {
    var s := trace[|trace| - 1].shared;
    var held := s.(lock := Some(2));
    longer := Moves(cfg, trace, 2, Lock, held, Locked(row));
    longer := Moves(cfg, longer, 2, Reread(true), held, Presenting(row));
    longer := Moves(cfg, longer, 2, KcRefuse(false), held, Refused(row));
    longer := Moves(cfg, longer, 2, CommitRevoke(s.now),
                    s.(committed := Some(Revoked(s.committed.value, s.now, RefreshReuse))), LogoutTell);
  }

  /** For sessions that can live at all, the fresh re-read is exactly what makes reuse
      detection fire only for a reason. */
  lemma ReuseSafeExactlyWithFreshReads(cfg: Config)
    requires cfg.settings.idleTtl > 0 && cfg.settings.absTtl > 0
    ensures ReuseSafe(cfg) <==> cfg.freshRead
  {
    if cfg.freshRead {
      FreshReadsAreReuseSafe(cfg);
    } else {
      StaleReadsBreakReuseSafety(cfg);
    }
  }

  /** `w` waits for the lock, which is free, of a row that needs a refresh. */
  predicate Queued(s: State, w: Worker) {
    && s.shared.lock.None? && s.shared.committed.Some?
    && NeedsRefresh(s.shared.committed.value, s.shared.now)
    && w in s.workers && s.workers[w].WaitLock?
  }

  /** An undisturbed request that finds the lock free is served with the new token, and the
      row then holds it: the runs above do get through. */
  lemma UndisturbedRequestIsServed(cfg: Config, trace: seq<State>, w: Worker, e: Option<int>) returns (longer: seq<State>)
    requires cfg.freshRead && IsRun(cfg, trace) && Queued(trace[|trace| - 1], w)
    requires var s := trace[|trace| - 1].shared; !s.lost && s.family.alive && !Gone(s.committed)
    ensures IsRun(cfg, longer) && w in longer[|longer| - 1].workers
    ensures var s, t := trace[|trace| - 1].shared, longer[|longer| - 1].shared;
            && longer[|longer| - 1].workers[w].Serving? && longer[|longer| - 1].workers[w].exchanged
            && t.lock.None? && t.committed.Some?
            && t.committed.value.refresh == t.family.current == s.family.current + 1
            && t.rotations == s.rotations + [s.now] && !t.lost
  {
    RunInv(cfg, trace, |trace| - 1);
    var s := trace[|trace| - 1].shared;
    longer := PresentsToken(cfg, trace, w);
    longer := GrantIsARun(cfg, longer, w, s.committed.value, Success(Some(s.family.current + 1), e, None));
  }

  /** A queued request that gets the lock of a live row presents the row's token. */
  lemma PresentsToken(cfg: Config, trace: seq<State>, w: Worker) returns (longer: seq<State>)
    requires cfg.freshRead && IsRun(cfg, trace) && Queued(trace[|trace| - 1], w)
    requires !Gone(trace[|trace| - 1].shared.committed)
    ensures IsRun(cfg, longer)
    ensures var s := trace[|trace| - 1];
            longer[|longer| - 1] == State(s.shared.(lock := Some(w)), s.workers[w := Presenting(s.shared.committed.value)])
  {
    var s := trace[|trace| - 1];
    var row := s.shared.committed.value;
    longer := Moves(cfg, trace, w, Lock, s.shared.(lock := Some(w)), Locked(row));
    longer := Moves(cfg, longer, w, Reread(true), s.shared.(lock := Some(w)), Presenting(row));
    assert s.workers[w := Locked(row)][w := Presenting(row)] == s.workers[w := Presenting(row)];
  }

  // ---------- revocation ----------

  /** What no step undoes once the row is gone. */
  ghost predicate StaysGone(cfg: Config, s: Shared, t: Shared) {
    && Gone(t.committed) && (s.committed.None? ==> t.committed.None?)
    && (cfg.freshRead ==> t.rotations == s.rotations)
  }

  lemma StepNeverRevives(cfg: Config, s: State, t: State)
    requires Inv(cfg, s) && Next(cfg, s, t) && Gone(s.shared.committed)
    ensures StaysGone(cfg, s.shared, t.shared)
  {
    var step :| Apply(cfg, s, step) == Some(t);
    if step.Run? {
      ActKeepsLock(cfg, s.shared, step.w, s.workers[step.w], step.action, t.shared, t.workers[step.w]);
    } else {
      EnvironmentNeverRevives(cfg, s, step, t);
    }
  }

  lemma EnvironmentNeverRevives(cfg: Config, s: State, step: Step, t: State)
    requires !step.Run? && Apply(cfg, s, step) == Some(t) && Gone(s.shared.committed)
    ensures StaysGone(cfg, s.shared, t.shared)
  {
  }

  lemma {:induction false} GoneStaysGone(cfg: Config, trace: seq<State>, i: nat, j: nat)
    requires IsRun(cfg, trace) && i <= j < |trace| && Gone(trace[i].shared.committed)
    ensures StaysGone(cfg, trace[i].shared, trace[j].shared)
  {
    if i < j {
      GoneStaysGone(cfg, trace, i, j - 1);
      GoneForOneStep(cfg, trace, j);
      GoneComposes(cfg, trace[i].shared, trace[j - 1].shared, trace[j].shared);
    }
  }

  lemma GoneForOneStep(cfg: Config, trace: seq<State>, i: nat)
    requires IsRun(cfg, trace) && 0 < i < |trace| && Gone(trace[i - 1].shared.committed)
    ensures StaysGone(cfg, trace[i - 1].shared, trace[i].shared)
  {
    RunInv(cfg, trace, i - 1);
    RunStep(cfg, trace, i - 1);
    StepNeverRevives(cfg, trace[i - 1], trace[i]);
  }

  lemma GoneComposes(cfg: Config, s: Shared, t: Shared, u: Shared)
    requires StaysGone(cfg, s, t) && StaysGone(cfg, t, u)
    ensures StaysGone(cfg, s, u)
  {
  }

  /** Once the row is revoked or purged, no later step of any request brings it back: every
      lookup finds nothing, nobody is exchanging, and Keycloak sees no further exchange. */
  lemma RevocationIsPermanent(cfg: Config, trace: seq<State>, i: nat, j: nat)
    requires IsRun(cfg, trace) && i <= j < |trace| && Gone(trace[i].shared.committed)
    ensures Gone(trace[j].shared.committed)
    ensures trace[i].shared.committed.None? ==> trace[j].shared.committed.None?
    ensures forall now :: LiveRow(trace[j].shared.committed, now).None?
    ensures cfg.freshRead ==> forall w :: w in trace[j].workers ==> !Exchanging(trace[j].workers[w])
    ensures cfg.freshRead ==> trace[j].shared.rotations == trace[i].shared.rotations
  {
    GoneStaysGone(cfg, trace, i, j);
    RunInv(cfg, trace, j);
  }

  // ---------- lifetime ----------

  /** No run of requests keeps a session past its absolute end, which never moves; the idle
      end stays within it from the first touch on, and from the start if the idle lifetime is
      not the longer one. */
  lemma SessionEndsAbsolutely(cfg: Config, trace: seq<State>, i: nat)
    requires IsRun(cfg, trace) && i < |trace|
    ensures var s := trace[i].shared;
            && (LiveRow(s.committed, s.now).Some? ==> s.now < AbsoluteEnd(cfg))
            && (s.committed.Some? ==>
                  && s.committed.value.absExp == AbsoluteEnd(cfg)
                  && (s.committed.value.lastSeen != cfg.created || cfg.settings.idleTtl <= cfg.settings.absTtl ==>
                        s.committed.value.idleExp <= AbsoluteEnd(cfg)))
  {
    RunInv(cfg, trace, i);
  }

  lemma PurgeIsInvisible(cfg: Config, s: State, grace: nat, t: State, later: Time)
    requires Apply(cfg, s, Purge(grace)) == Some(t) && s.shared.now <= later
    ensures LiveRow(t.shared.committed, later) == LiveRow(s.shared.committed, later)
  {
    PurgeNeverChangesLookup(s.shared.committed.value, s.shared.now, later, grace);
  }

  // ---------- skew and queued requests ----------

  /** A request served without an exchange got a token with more than 120 seconds of its
      granted life left; so tokens granted at most 120 seconds are never reused. */
  lemma ServedTokenIsFresh(cfg: Config, trace: seq<State>, i: nat, w: Worker)
    requires IsRun(cfg, trace) && i < |trace| && w in trace[i].workers
    requires trace[i].workers[w].Serving? && !trace[i].workers[w].exchanged
    ensures var pc := trace[i].workers[w];
            && pc.row.access.GrantedUntil() > pc.servedAt + 120 * SECOND
            && pc.row.access.expiresIn > 120
  {
    RunInv(cfg, trace, i);
  }

  /** Any two rotations are further apart than `wait` seconds when each token received before
      the later one was granted more than 120 + wait seconds. */
  lemma {:induction false} RotationsAreSpaced(cfg: Config, trace: seq<State>, i: nat, a: nat, b: nat, wait: nat)
    requires cfg.freshRead && IsRun(cfg, trace) && i < |trace|
    requires a < b < |trace[i].shared.rotations|
    requires forall k :: a <= k < |trace[i].shared.grants| ==> trace[i].shared.grants[k] > 120 + wait
    ensures trace[i].shared.rotations[b] > trace[i].shared.rotations[a] + wait * SECOND
  {
    var s := trace[i].shared;
    RunInv(cfg, trace, i);
    assert s.rotations[b - 1 + 1] >= s.rotations[b - 1] + Gap(s.grants[b - 1]);
    if a < b - 1 {
      RotationsAreSpaced(cfg, trace, i, a, b - 1, wait);
    }
  }

  /** Where a queued request can stand as long as nothing has been exchanged. */
  predicate NotServed(pc: Pc, exp: Time) {
    || pc.WaitLock? || pc.Presenting? || pc.Refused? || pc.Unreadable? || pc.LogoutTell? || pc.Ended?
    || (pc.Locked? && pc.latest.accessExp == exp)
  }

  /** The row still has the expiry `exp`, nothing is in flight and `w` has not been served. */
  ghost predicate Unserved(exp: Time, t: State, w: Worker) {
    && (t.shared.committed.Some? ==> t.shared.committed.value.accessExp == exp)
    && (forall x :: x in t.workers ==> !InFlight(t.workers[x]))
    && w in t.workers && NotServed(t.workers[w], exp)
  }

  /** Since `s`, in which the row needed a refresh and nobody held the lock: any later rotation
      is dated after `s`, and as long as there is none, nobody has been served. */
  ghost predicate StillQueued(s: Shared, t: State, w: Worker) {
    && s.now <= t.shared.now
    && |s.rotations| <= |t.shared.rotations|
    && (forall k :: |s.rotations| <= k < |t.shared.rotations| ==> t.shared.rotations[k] >= s.now)
    && (s.committed.Some? && |t.shared.rotations| == |s.rotations| ==> Unserved(s.committed.value.accessExp, t, w))
  }

  lemma RotationsGrow(cfg: Config, s: Shared, w: Worker, pc: Pc, action: Action, t: Shared, qc: Pc)
    requires Act(cfg, s, w, pc, action) == Some((t, qc))
    ensures s.now == t.now
    ensures t.rotations == s.rotations || t.rotations == s.rotations + [s.now]
    ensures action.KcRotate? ==> |t.rotations| > |s.rotations|
  {
    WhichAction(cfg, s, w, pc, action, t, qc);
  }

  /** Nothing but an exchange changes the expiry that the row holds. */
  lemma ExpiryStays(cfg: Config, s: Shared, w: Worker, pc: Pc, action: Action, t: Shared, qc: Pc)
    requires LockLocal(cfg, s, w, pc) && Act(cfg, s, w, pc, action) == Some((t, qc))
    requires !action.KcRotate? && !action.Receive? && !action.CommitRefresh?
    ensures t.committed.Some? <==> s.committed.Some?
    ensures s.committed.Some? ==> t.committed.value.accessExp == s.committed.value.accessExp
    ensures !InFlight(qc)
  {
    WhichAction(cfg, s, w, pc, action, t, qc);
    if IsLocal(action) {
      LocallyKeepsLock(cfg, s, w, pc, action, t, qc);
    } else if AtKeycloak(action) {
      KeycloakKeepsLock(cfg, s, w, pc, action, t, qc);
    } else {
      EndingKeepsLock(cfg, s, w, pc, action, t, qc);
      EndingKeepsExpiry(s, w, pc, action, t, qc);
    }
  }

  lemma NotServedStep(cfg: Config, s: Shared, w: Worker, pc: Pc, action: Action, t: Shared, qc: Pc, exp: Time)
    requires cfg.freshRead && LockLocal(cfg, s, w, pc) && Act(cfg, s, w, pc, action) == Some((t, qc))
    requires NotServed(pc, exp) && exp <= s.now + REFRESH_MARGIN && !action.KcRotate?
    requires s.committed.Some? ==> s.committed.value.accessExp == exp
    ensures NotServed(qc, exp)
  {
    WhichAction(cfg, s, w, pc, action, t, qc);
    if IsLocal(action) {
      NotServedLocally(cfg, s, w, pc, action, t, qc, exp);
    }
  }

  lemma NotServedLocally(cfg: Config, s: Shared, w: Worker, pc: Pc, action: Action, t: Shared, qc: Pc, exp: Time)
    requires cfg.freshRead && LockLocal(cfg, s, w, pc) && Locally(cfg, s, w, pc, action, t, qc)
    requires NotServed(pc, exp) && exp <= s.now + REFRESH_MARGIN
    requires s.committed.Some? ==> s.committed.value.accessExp == exp
    ensures NotServed(qc, exp)
  {
  }

  lemma UnservedStep(cfg: Config, exp: Time, t: State, action: Action, x: Worker, u: State, w: Worker)
    requires cfg.freshRead && Inv(cfg, t) && Unserved(exp, t, w) && exp <= t.shared.now + REFRESH_MARGIN
    requires Apply(cfg, t, Run(x, action)) == Some(u) && !action.KcRotate?
    ensures Unserved(exp, u, w)
  {
    var pc, qc := t.workers[x], u.workers[x];
    if action.Receive? || action.CommitRefresh? {
      assert false;
    } else {
      ExpiryStays(cfg, t.shared, x, pc, action, u.shared, qc);
      if x == w {
        NotServedStep(cfg, t.shared, w, pc, action, u.shared, qc, exp);
      }
    }
  }

  lemma StillQueuedStep(cfg: Config, s: Shared, t: State, step: Step, u: State, w: Worker)
    requires cfg.freshRead && Inv(cfg, t) && StillQueued(s, t, w)
    requires s.committed.Some? && NeedsRefresh(s.committed.value, s.now)
    requires Apply(cfg, t, step) == Some(u)
    ensures StillQueued(s, u, w)
  {
    if step.Run? {
      RotationsGrow(cfg, t.shared, step.w, t.workers[step.w], step.action, u.shared, u.workers[step.w]);
      if |u.shared.rotations| == |s.rotations| {
        UnservedStep(cfg, s.committed.value.accessExp, t, step.action, step.w, u, w);
      }
    }
  }

  lemma StillQueuedStart(cfg: Config, t: State, w: Worker)
    requires Inv(cfg, t) && Queued(t, w)
    ensures StillQueued(t.shared, t, w)
  {
    forall x | x in t.workers
      ensures !InFlight(t.workers[x])
    {
      assert Local(cfg, t.shared, x, t.workers[x]);
    }
  }

  lemma StillQueuedNext(cfg: Config, s: Shared, t: State, u: State, w: Worker)
    requires cfg.freshRead && Inv(cfg, t) && StillQueued(s, t, w) && Next(cfg, t, u)
    requires s.committed.Some? && NeedsRefresh(s.committed.value, s.now)
    ensures StillQueued(s, u, w)
  {
    var step :| Apply(cfg, t, step) == Some(u);
    StillQueuedStep(cfg, s, t, step, u, w);
  }

  lemma {:induction false} StillQueuedRun(cfg: Config, trace: seq<State>, i: nat, j: nat, w: Worker)
    requires cfg.freshRead && IsRun(cfg, trace) && i <= j < |trace|
    requires Queued(trace[i], w)
    ensures StillQueued(trace[i].shared, trace[j], w)
    decreases j
  {
    if i == j {
      RunInv(cfg, trace, i);
      StillQueuedStart(cfg, trace[i], w);
    } else {
      var k := j - 1;
      StillQueuedRun(cfg, trace, i, k, w);
      RunInv(cfg, trace, k);
      RunStep(cfg, trace, k);
      assert j == k + 1;
      StillQueuedNext(cfg, trace[i].shared, trace[k], trace[j], w);
    }
  }

  /** However many requests queue for a row that needs a refresh, by the time any of them is
      served, within `wait` seconds, exactly one exchange has taken place, provided tokens
      are granted more than 120 + wait seconds. */
  lemma QueuedRequestsShareOneExchange(cfg: Config, trace: seq<State>, i: nat, j: nat, w: Worker, wait: nat)
    requires cfg.freshRead && IsRun(cfg, trace) && i <= j < |trace|
    requires Queued(trace[i], w)
    requires w in trace[j].workers && trace[j].workers[w].Serving?
    requires trace[j].shared.now <= trace[i].shared.now + wait * SECOND
    requires forall k :: |trace[i].shared.rotations| <= k < |trace[j].shared.grants| ==> trace[j].shared.grants[k] > 120 + wait
    ensures |trace[j].shared.rotations| == |trace[i].shared.rotations| + 1
  {
    var s, t := trace[i].shared, trace[j].shared;
    StillQueuedRun(cfg, trace, i, j, w);
    RunInv(cfg, trace, j);
    var n := |s.rotations|;
    if |t.rotations| > n + 1 {
      RotationsAreSpaced(cfg, trace, j, n, |t.rotations| - 1, wait);
      assert false;
    }
  }

  // ---------- the uncontended call is one of the runs ----------

  lemma Waits(cfg: Config, trace: seq<State>, to: Time) returns (longer: seq<State>)
    requires IsRun(cfg, trace) && trace[|trace| - 1].shared.now <= to
    ensures IsRun(cfg, longer) && |longer| == |trace| + 1
    ensures var s := trace[|trace| - 1]; longer[|longer| - 1] == State(s.shared.(now := to), s.workers)
  {
    var s := trace[|trace| - 1];
    longer := Extend(cfg, trace, Tick(to), State(s.shared.(now := to), s.workers));
  }

  /** A reply Keycloak can give to `latest` in state `s`. */
  predicate Possible(s: Shared, latest: Row, resp: TokenResponse) {
    match resp
    case Success(rt, _, _) => Exchangeable(s, latest) && (rt.Some? ==> rt.value == s.family.current + 1)
    case Failure(e) => e == Some("invalid_grant") ==> !Exchangeable(s, latest)
    case NoReply => true
  }

  ghost predicate AtExchange(s: State, w: Worker, latest: Row, resp: TokenResponse) {
    && w in s.workers && s.workers[w] == Presenting(latest)
    && s.shared.lock == Some(w) && s.shared.committed == Some(latest) && Possible(s.shared, latest, resp)
  }

  lemma GrantArrives(cfg: Config, trace: seq<State>, w: Worker, latest: Row, resp: TokenResponse) returns (longer: seq<State>)
    requires IsRun(cfg, trace) && AtExchange(trace[|trace| - 1], w, latest, resp)
    requires PostToken(resp, trace[|trace| - 1].shared.now).Ok?
    ensures IsRun(cfg, longer) && w in longer[|longer| - 1].workers
    ensures var s, tokens := trace[|trace| - 1].shared, PostToken(resp, trace[|trace| - 1].shared.now).value;
            && longer[|longer| - 1].workers[w] == Received(latest, tokens)
            && longer[|longer| - 1].shared == s.(family := Family(s.family.current + 1, true), rotations := s.rotations + [s.now],
                                                 grants := s.grants + [tokens.access.expiresIn])
  {
    var s := trace[|trace| - 1].shared;
    var token := s.family.current + 1;
    var t := s.(family := Family(token, true), rotations := s.rotations + [s.now]);
    longer := Moves(cfg, trace, w, KcRotate, t, Granted(latest, token));
    var tokens := PostToken(resp, s.now).value;
    t := t.(grants := s.grants + [tokens.access.expiresIn]);
    longer := Moves(cfg, longer, w, Receive(resp.expiresIn, resp.refreshExpiresIn), t, Received(latest, tokens));
  }

  lemma GrantIsARun(cfg: Config, trace: seq<State>, w: Worker, latest: Row, resp: TokenResponse) returns (longer: seq<State>)
    requires IsRun(cfg, trace) && AtExchange(trace[|trace| - 1], w, latest, resp)
    requires PostToken(resp, trace[|trace| - 1].shared.now).Ok?
    ensures IsRun(cfg, longer) && w in longer[|longer| - 1].workers
    ensures var s, t := trace[|trace| - 1].shared, longer[|longer| - 1].shared;
            var row := Rotated(latest, PostToken(resp, s.now).value);
            && longer[|longer| - 1].workers[w] == Serving(row, true, s.now, false)
            && t.committed == Some(row) && t.lock.None? && t.lost == s.lost
            && t.family.current == s.family.current + 1 && t.rotations == s.rotations + [s.now]
  {
    longer := GrantArrives(cfg, trace, w, latest, resp);
    var t := longer[|longer| - 1].shared;
    var row := Rotated(latest, PostToken(resp, t.now).value);
    longer := Moves(cfg, longer, w, CommitRefresh, t.(lock := None, committed := Some(row)), Serving(row, true, t.now, false));
  }

  /** The last step of the run: `w`, refused by Keycloak, revokes the row for reuse and goes on to
      send its token to Keycloak's logout. */
  ghost predicate RevokesOnRefusal(trace: seq<State>, w: Worker, latest: Row, at: Time) {
    && |trace| >= 2
    && w in trace[|trace| - 2].workers && trace[|trace| - 2].workers[w] == Refused(latest)
    && w in trace[|trace| - 1].workers && trace[|trace| - 1].workers[w] == LogoutTell
    && trace[|trace| - 2].shared.committed == Some(latest)
    && trace[|trace| - 1].shared.committed == Some(latest.(revokedAt := Some(at), reason := Some(RefreshReuse)))
  }

  lemma KillIsARun(cfg: Config, trace: seq<State>, w: Worker, latest: Row, resp: TokenResponse) returns (longer: seq<State>)
    requires IsRun(cfg, trace) && AtExchange(trace[|trace| - 1], w, latest, resp) && Refusal(resp)
    ensures IsRun(cfg, longer) && RevokesOnRefusal(longer, w, latest, trace[|trace| - 1].shared.now)
  {
    var s := trace[|trace| - 1].shared;
    var reuse := resp.kcError == Some("invalid_grant");
    var t := if reuse then s else s.(rejected := true);
    longer := Moves(cfg, trace, w, if reuse then KcRefuse(false) else KcReject, t, Refused(latest));
    longer := Moves(cfg, longer, w, CommitRevoke(s.now),
                    t.(lock := None, committed := Some(Revoked(latest, s.now, RefreshReuse))), LogoutTell);
  }

  lemma FailureIsARun(cfg: Config, trace: seq<State>, w: Worker, latest: Row, resp: TokenResponse) returns (longer: seq<State>)
    requires IsRun(cfg, trace) && AtExchange(trace[|trace| - 1], w, latest, resp)
    requires PostToken(resp, trace[|trace| - 1].shared.now).Err? && !Refusal(resp)
    ensures IsRun(cfg, longer) && w in longer[|longer| - 1].workers && longer[|longer| - 1].workers[w].Ended?
    ensures longer[|longer| - 1].shared.committed == Some(latest)
  {
    var s := trace[|trace| - 1].shared;
    longer := trace;
    if resp.Success? {
      var token := s.family.current + 1;
      s := s.(family := Family(token, true), rotations := s.rotations + [s.now]);
      longer := Moves(cfg, trace, w, KcRotate, s, Granted(latest, token));
    }
    longer := Moves(cfg, longer, w, Crash, s.(lock := None, lost := resp.Success? || s.lost), Ended);
  }

  /** The request at `pc` with `committed` stands where `outcome` says it should. */
  predicate Arrived(committed: Option<Row>, pc: Pc, outcome: (Option<Row>, Result<Row, AuthError>)) {
    && committed == outcome.0
    && (outcome.1.Ok? <==> pc.Serving?)
    && (outcome.1.Ok? ==> pc.row == outcome.1.value)
  }

  lemma ExchangeIsARun(cfg: Config, trace: seq<State>, w: Worker, latest: Row, resp: TokenResponse) returns (longer: seq<State>)
    requires IsRun(cfg, trace) && AtExchange(trace[|trace| - 1], w, latest, resp)
    ensures IsRun(cfg, longer) && w in longer[|longer| - 1].workers
    ensures var now := trace[|trace| - 1].shared.now;
            && Arrived(longer[|longer| - 1].shared.committed, longer[|longer| - 1].workers[w],
                       ReplyOutcome(latest, PostToken(resp, now), now))
            && (Refusal(resp) ==> RevokesOnRefusal(longer, w, latest, now))
  {
    if PostToken(resp, trace[|trace| - 1].shared.now).Ok? {
      longer := GrantIsARun(cfg, trace, w, latest, resp);
    } else if Refusal(resp) {
      longer := KillIsARun(cfg, trace, w, latest, resp);
    } else {
      longer := FailureIsARun(cfg, trace, w, latest, resp);
    }
  }

  lemma UnreadableIsARun(cfg: Config, trace: seq<State>, w: Worker, latest: Row, t2: Time) returns (longer: seq<State>)
    requires IsRun(cfg, trace) && w in trace[|trace| - 1].workers && trace[|trace| - 1].workers[w] == Locked(latest)
    requires trace[|trace| - 1].shared.lock == Some(w) && trace[|trace| - 1].shared.committed == Some(latest)
    requires latest.revokedAt.None? && NeedsRefresh(latest, trace[|trace| - 1].shared.now)
    requires trace[|trace| - 1].shared.now <= t2
    ensures IsRun(cfg, longer) && w in longer[|longer| - 1].workers && longer[|longer| - 1].workers[w].Ended?
    ensures longer[|longer| - 1].shared.committed == Some(Revoked(latest, t2, DecryptFailed))
  {
    var s := trace[|trace| - 1].shared;
    longer := Moves(cfg, trace, w, Reread(false), s, Unreadable(latest));
    longer := Waits(cfg, longer, t2);
    longer := Moves(cfg, longer, w, CommitRevoke(t2),
                    s.(now := t2, lock := None, committed := Some(Revoked(latest, t2, DecryptFailed))), Ended);
  }

  lemma PresentedRefreshIsARun(cfg: Config, trace: seq<State>, w: Worker, latest: Row, resp: TokenResponse, t2: Time)
    returns (longer: seq<State>)
    requires IsRun(cfg, trace) && w in trace[|trace| - 1].workers && trace[|trace| - 1].workers[w] == Locked(latest)
    requires latest.revokedAt.None? && NeedsRefresh(latest, trace[|trace| - 1].shared.now)
    requires var s := trace[|trace| - 1].shared;
             s.lock == Some(w) && s.committed == Some(latest) && Possible(s, latest, resp) && s.now <= t2
    ensures IsRun(cfg, longer) && w in longer[|longer| - 1].workers
    ensures Arrived(longer[|longer| - 1].shared.committed, longer[|longer| - 1].workers[w],
                    ReplyOutcome(latest, PostToken(resp, t2), t2))
    ensures Refusal(resp) ==> RevokesOnRefusal(longer, w, latest, t2)
  {
    longer := Moves(cfg, trace, w, Reread(true), trace[|trace| - 1].shared, Presenting(latest));
    longer := Waits(cfg, longer, t2);
    longer := ExchangeIsARun(cfg, longer, w, latest, resp);
  }

  lemma LockedRefreshIsARun(cfg: Config, trace: seq<State>, w: Worker, latest: Row, readable: bool, resp: TokenResponse, t2: Time)
    returns (longer: seq<State>)
    requires IsRun(cfg, trace) && w in trace[|trace| - 1].workers && trace[|trace| - 1].workers[w] == Locked(latest)
    requires var s := trace[|trace| - 1].shared;
             s.lock == Some(w) && s.committed == Some(latest) && Possible(s, latest, resp) && s.now <= t2
    ensures IsRun(cfg, longer) && w in longer[|longer| - 1].workers
    ensures Arrived(longer[|longer| - 1].shared.committed, longer[|longer| - 1].workers[w],
                    LockedOutcome(latest, trace[|trace| - 1].shared.now, readable, resp, t2))
    ensures latest.revokedAt.None? && latest.accessExp <= trace[|trace| - 1].shared.now + 60_000_000 && readable && Refusal(resp) ==>
              RevokesOnRefusal(longer, w, latest, t2)
  {
    var s := trace[|trace| - 1].shared;
    if latest.revokedAt.Some? {
      longer := Moves(cfg, trace, w, Reread(readable), s.(lock := None), Ended);
    } else if !NeedsRefresh(latest, s.now) {
      longer := Moves(cfg, trace, w, Reread(readable), s, Serving(latest, false, s.now, true));
    } else if !readable {
      longer := UnreadableIsARun(cfg, trace, w, latest, t2);
    } else {
      longer := PresentedRefreshIsARun(cfg, trace, w, latest, resp, t2);
    }
  }

  lemma WaitingRefreshIsARun(cfg: Config, trace: seq<State>, w: Worker, t1: Time, readable: bool, resp: TokenResponse, t2: Time)
    returns (longer: seq<State>)
    requires cfg.freshRead && IsRun(cfg, trace) && w in trace[|trace| - 1].workers
    requires trace[|trace| - 1].workers[w].WaitLock? && trace[|trace| - 1].shared.now <= t1 <= t2
    requires var s := trace[|trace| - 1].shared;
             s.lock.None? && (s.committed.Some? ==> Possible(s, s.committed.value, resp))
    ensures IsRun(cfg, longer) && w in longer[|longer| - 1].workers
    ensures var latest := trace[|trace| - 1].shared.committed;
            Arrived(longer[|longer| - 1].shared.committed, longer[|longer| - 1].workers[w],
                    if latest.None? then (latest, Err(RowGone)) else LockedOutcome(latest.value, t1, readable, resp, t2))
    ensures var latest := trace[|trace| - 1].shared.committed;
            latest.Some? && latest.value.revokedAt.None? && latest.value.accessExp <= t1 + 60_000_000 && readable && Refusal(resp) ==>
              RevokesOnRefusal(longer, w, latest.value, t2)
  {
    var s := trace[|trace| - 1].shared;
    if s.committed.None? {
      longer := Moves(cfg, trace, w, Lock, s, Ended);
    } else {
      longer := Moves(cfg, trace, w, Lock, s.(lock := Some(w)), Locked(s.committed.value));
      longer := Waits(cfg, longer, t1);
      longer := LockedRefreshIsARun(cfg, longer, w, s.committed.value, readable, resp, t2);
    }
  }

  /** What SilentlyRefreshIfNeeded computes when nobody interferes, whenever it reads the
      clock, is what the protocol's own steps arrive at; where Keycloak refuses, through the
      refused state and the revocation committed from it. */
  lemma UncontendedRefreshIsARun(cfg: Config, trace: seq<State>, w: Worker, seen: Row,
                                 t1: Time, readable: bool, resp: TokenResponse, t2: Time)
    returns (longer: seq<State>)
    requires cfg.freshRead && IsRun(cfg, trace) && w in trace[|trace| - 1].workers
    requires trace[|trace| - 1].workers[w] == SawRow(seen) && trace[|trace| - 1].shared.now <= t1 <= t2
    requires var s := trace[|trace| - 1].shared;
             s.lock.None? && (s.committed.Some? ==> Possible(s, s.committed.value, resp))
    ensures IsRun(cfg, longer) && w in longer[|longer| - 1].workers
    ensures var s := trace[|trace| - 1].shared;
            Arrived(longer[|longer| - 1].shared.committed, longer[|longer| - 1].workers[w],
                    RefreshOutcome(seen, s.committed, s.now, t1, readable, resp, t2))
    ensures var s := trace[|trace| - 1].shared;
            s.committed.Some? && GoesToKeycloak(seen, s.committed.value, s.now, t1, readable) && Refusal(resp) ==>
              RevokesOnRefusal(longer, w, s.committed.value, t2)
  {
    var s := trace[|trace| - 1].shared;
    if !NeedsRefresh(seen, s.now) {
      longer := Moves(cfg, trace, w, Decide, s, Serving(seen, false, s.now, false));
    } else {
      longer := Moves(cfg, trace, w, Decide, s, WaitLock(seen));
      longer := WaitingRefreshIsARun(cfg, longer, w, t1, readable, resp, t2);
    }
  }

  /** So is an uncontended touch of a served request: it writes what SessionTable.Touch does. */
  lemma TouchIsARun(cfg: Config, trace: seq<State>, w: Worker) returns (longer: seq<State>)
    requires IsRun(cfg, trace) && w in trace[|trace| - 1].workers && trace[|trace| - 1].workers[w].Serving?
    requires trace[|trace| - 1].shared.lock.None? && trace[|trace| - 1].shared.committed.Some?
    ensures IsRun(cfg, longer)
    ensures var s, served := trace[|trace| - 1].shared, trace[|trace| - 1].workers[w].row;
            var end := Min(s.now + cfg.settings.idleTtl * 1_000_000, served.absExp);
            longer[|longer| - 1].shared == s.(committed := Some(s.committed.value.(lastSeen := s.now, idleExp := end)))
  {
    var s, served := trace[|trace| - 1].shared, trace[|trace| - 1].workers[w].row;
    var idle := NewIdle(served.absExp, s.now, cfg.settings);
    longer := Moves(cfg, trace, w, Touch(s.now), s.(lock := Some(w)), TouchWritten(s.now, idle));
    longer := Moves(cfg, longer, w, CommitTouch, s.(committed := SetTouched(s.committed, s.now, idle)), Ended);
  }

  lemma LogoutCommits(cfg: Config, trace: seq<State>, w: Worker, row: Row, readable: bool) returns (longer: seq<State>)
    requires IsRun(cfg, trace) && w in trace[|trace| - 1].workers && trace[|trace| - 1].workers[w] == LogoutSaw(row)
    requires var s := trace[|trace| - 1].shared; s.lock.None? && s.committed == Some(row)
    ensures IsRun(cfg, longer) && w in longer[|longer| - 1].workers
    ensures longer[|longer| - 1].workers[w] == if readable then LogoutTell else Ended
    ensures var s := trace[|trace| - 1].shared;
            longer[|longer| - 1].shared == s.(committed := Some(row.(revokedAt := Some(s.now), reason := Some(Reason.Logout))))
  {
    var s := trace[|trace| - 1].shared;
    longer := Moves(cfg, trace, w, LogoutRevoke(s.now, readable), s.(committed := Some(Revoked(row, s.now, Reason.Logout))),
                    if readable then LogoutTell else Ended);
  }

  lemma LogoutTells(cfg: Config, trace: seq<State>, w: Worker, ends: bool) returns (longer: seq<State>)
    requires IsRun(cfg, trace) && w in trace[|trace| - 1].workers && trace[|trace| - 1].workers[w] == LogoutTell
    ensures IsRun(cfg, longer)
    ensures var s := trace[|trace| - 1].shared;
            longer[|longer| - 1].shared == s.(family := s.family.(alive := s.family.alive && !ends))
  {
    longer := Moves(cfg, trace, w, KcLogout(ends), EndFamily(trace[|trace| - 1].shared, ends), Ended);
  }

  /** And an uncontended logout: a live session ends as logged out, and its token family ends too
      when the token can be read and Keycloak hears of it. */
  lemma LogoutIsARun(cfg: Config, trace: seq<State>, w: Worker, readable: bool, ends: bool) returns (longer: seq<State>)
    requires IsRun(cfg, trace) && w in trace[|trace| - 1].workers && trace[|trace| - 1].workers[w] == Begin(Request.Logout)
    requires var s := trace[|trace| - 1].shared; s.lock.None? && LiveRow(s.committed, s.now).Some?
    ensures IsRun(cfg, longer)
    ensures var s, t := trace[|trace| - 1].shared, longer[|longer| - 1].shared;
            && t.committed == Some(s.committed.value.(revokedAt := Some(s.now), reason := Some(Reason.Logout)))
            && t.family == s.family.(alive := s.family.alive && !(readable && ends))
  {
    var s := trace[|trace| - 1].shared;
    longer := Moves(cfg, trace, w, LookupRow, s, LogoutSaw(s.committed.value));
    longer := LogoutCommits(cfg, longer, w, s.committed.value, readable);
    if readable {
      longer := LogoutTells(cfg, longer, w, ends);
    }
  }

  lemma AllTellIsARun(cfg: Config, trace: seq<State>, w: Worker, ends: bool) returns (longer: seq<State>)
    requires IsRun(cfg, trace) && w in trace[|trace| - 1].workers && trace[|trace| - 1].workers[w] == Begin(Request.LogoutAll)
    ensures IsRun(cfg, longer) && w in longer[|longer| - 1].workers && longer[|longer| - 1].workers[w] == AllTold
    ensures var s := trace[|trace| - 1].shared;
            longer[|longer| - 1].shared == s.(family := s.family.(alive := s.family.alive && !ends), killed := s.killed || ends)
  {
    var s := trace[|trace| - 1].shared;
    longer := Moves(cfg, trace, w, LookupRow, s, AllSaw);
    longer := Moves(cfg, longer, w, AllTell(ends), EndFamily(s, ends).(killed := s.killed || ends), AllTold);
  }

  /** And a logout from everywhere, which tells Keycloak first and then marks the unrevoked row. */
  lemma LogoutAllIsARun(cfg: Config, trace: seq<State>, w: Worker, ends: bool) returns (longer: seq<State>)
    requires IsRun(cfg, trace) && w in trace[|trace| - 1].workers && trace[|trace| - 1].workers[w] == Begin(Request.LogoutAll)
    requires var s := trace[|trace| - 1].shared; s.lock.None? && !Gone(s.committed)
    ensures IsRun(cfg, longer)
    ensures var s, t := trace[|trace| - 1].shared, longer[|longer| - 1].shared;
            && t.committed == Some(s.committed.value.(revokedAt := Some(s.now), reason := Some(Reason.LogoutAll)))
            && t.family == s.family.(alive := s.family.alive && !ends)
  {
    longer := AllTellIsARun(cfg, trace, w, ends);
    var s := longer[|longer| - 1].shared;
    longer := Moves(cfg, longer, w, AllRevoke(s.now), s.(committed := SetRevoked(s.committed, s.now, Reason.LogoutAll)), Ended);
  }

  /** A request starts with the row that a lookup finds: one that is there, unrevoked and before
      both its ends; without one it is over. */
  lemma LookupIsARun(cfg: Config, trace: seq<State>, w: Worker) returns (longer: seq<State>)
    requires IsRun(cfg, trace) && w in trace[|trace| - 1].workers && trace[|trace| - 1].workers[w] == Begin(Use)
    ensures IsRun(cfg, longer) && w in longer[|longer| - 1].workers && longer[|longer| - 1].shared == trace[|trace| - 1].shared
    ensures var s, pc := trace[|trace| - 1].shared, longer[|longer| - 1].workers[w];
            if s.committed.Some? && s.committed.value.revokedAt.None?
               && s.now < s.committed.value.idleExp && s.now < s.committed.value.absExp
            then pc == SawRow(s.committed.value) else pc == Ended
  {
    var s := trace[|trace| - 1].shared;
    var live := LiveRow(s.committed, s.now);
    longer := Moves(cfg, trace, w, LookupRow, s, if live.Some? then SawRow(live.value) else Ended);
  }

  /** With more than 60 seconds left on its token the request is served as it is, else it queues. */
  lemma DecideIsARun(cfg: Config, trace: seq<State>, w: Worker, row: Row) returns (longer: seq<State>)
    requires IsRun(cfg, trace) && w in trace[|trace| - 1].workers && trace[|trace| - 1].workers[w] == SawRow(row)
    ensures IsRun(cfg, longer) && w in longer[|longer| - 1].workers && longer[|longer| - 1].shared == trace[|trace| - 1].shared
    ensures var now := trace[|trace| - 1].shared.now;
            longer[|longer| - 1].workers[w] == if row.accessExp > now + 60_000_000 then Serving(row, false, now, false) else WaitLock(row)
  {
    var s := trace[|trace| - 1].shared;
    longer := Moves(cfg, trace, w, Decide, s, if NeedsRefresh(row, s.now) then WaitLock(row) else Serving(row, false, s.now, false));
  }

  /** Keycloak can refuse any token but the current one of a live family, and may end the family. */
  lemma RefusalIsARun(cfg: Config, trace: seq<State>, w: Worker, latest: Row, ends: bool) returns (longer: seq<State>)
    requires IsRun(cfg, trace) && w in trace[|trace| - 1].workers && trace[|trace| - 1].workers[w] == Presenting(latest)
    requires var family := trace[|trace| - 1].shared.family; !family.alive || latest.refresh != family.current
    ensures IsRun(cfg, longer) && w in longer[|longer| - 1].workers && longer[|longer| - 1].workers[w] == Refused(latest)
    ensures var s := trace[|trace| - 1].shared;
            longer[|longer| - 1].shared == s.(family := s.family.(alive := s.family.alive && !ends), killed := s.killed || ends)
  {
    var s := trace[|trace| - 1].shared;
    longer := Moves(cfg, trace, w, KcRefuse(ends), EndFamily(s, ends).(killed := s.killed || ends), Refused(latest));
  }

  /** A row past the cutoff can be purged whenever nobody holds its lock. */
  lemma PurgeIsARun(cfg: Config, trace: seq<State>, grace: nat) returns (longer: seq<State>)
    requires IsRun(cfg, trace) && trace[|trace| - 1].shared.lock.None? && trace[|trace| - 1].shared.committed.Some?
    requires var s := trace[|trace| - 1].shared;
             || s.committed.value.absExp + grace * 1_000_000 < s.now
             || (s.committed.value.revokedAt.Some? && s.committed.value.revokedAt.value + grace * 1_000_000 < s.now)
    ensures IsRun(cfg, longer)
    ensures var s := trace[|trace| - 1]; longer[|longer| - 1] == s.(shared := s.shared.(committed := None))
  {
    var s := trace[|trace| - 1];
    PurgeMeaning(s.shared.committed.value, s.shared.now, grace);
    longer := Extend(cfg, trace, Purge(grace), s.(shared := s.shared.(committed := None)));
  }
}
