/** What holds in every interleaving of the session transactions. */
module RefreshRaces {
  import opened Wrappers
  import opened Sessions

  // ---------------------------------------------------------------- every reachable state

  lemma CatchKeepsWinner(st: State, call: nat, otherwise: Phase)
    requires OneWinner(st) && call in st.calls && !Won(st, call)
    requires otherwise.Done? ==> !otherwise.result.Rotated?
    ensures OneWinner(CatchReuse(st, call, otherwise))
  {
  }

  /** What a locked renewal does to calls and retired cookies. */
  lemma RenewalCalls(st: State, cfg: Settings, e: Event)
    requires Enabled(st, e) && e.LockedRenewal?
    ensures var after := Step(st, cfg, e); var cookie := st.calls[e.call].cookie;
            && after.calls.Keys == st.calls.Keys && after.calls[e.call].cookie == cookie
            && (forall i :: i in st.calls && i != e.call ==> after.calls[i] == st.calls[i])
            && (if Won(after, e.call) then after.retired.Keys == st.retired.Keys + {cookie} else after.retired == st.retired)
            && (Look(st, cookie).NoSession? ==> after.calls[e.call].phase == Missed)
  {
    hide RenewLocked, Look;
    var cookie := st.calls[e.call].cookie;
    RenewalRetires(st, cfg, cookie, e.newCookie, e.reply);
    var (next, result) := RenewLocked(st, cfg, cookie, e.newCookie, e.reply);
    var after := Step(st, cfg, e);
    if result.Some? && e.commits {
      assert after == At(next, e.call, Done(result.value));
      assert after.retired == next.retired;
      assert Won(after, e.call) <==> result.value.Rotated?;
    } else {
      assert !Won(after, e.call);
      assert after.retired == st.retired;
    }
  }

  lemma RenewalKeepsWinner(st: State, cfg: Settings, e: Event)
    requires Inv(st) && Enabled(st, e) && e.LockedRenewal?
    ensures OneWinner(Step(st, cfg, e))
  {
    hide Step, Rows, Look;
    InvRows(st);
    RenewalCalls(st, cfg, e);
    RetiredIsNotCurrent(st, st.calls[e.call].cookie);
    var after := Step(st, cfg, e);
    assert forall i :: i != e.call ==> (Won(after, i) <==> Won(st, i));
  }

  lemma StepKeepsWinner(st: State, cfg: Settings, e: Event)
    requires Inv(st) && Enabled(st, e)
    ensures OneWinner(Step(st, cfg, e))
  {
    hide Rows, RevokeAll, RenewLocked, OneWinner, CatchReuse, Look;
    InvOneWinner(st);
    match e
    case CheckRetired(call) => CatchKeepsWinner(st, call, NotRetired);
    case Recheck(call) => CatchKeepsWinner(st, call, Done(Expired));
    case LockedRenewal(_, _, _, _) => RenewalKeepsWinner(st, cfg, e);
    case _ => OtherStepKeepsWinner(st, cfg, e);
  }

  lemma InvOneWinner(st: State)
    requires Inv(st)
    ensures OneWinner(st)
  {
  }

  lemma OtherStepKeepsWinner(st: State, cfg: Settings, e: Event)
    requires OneWinner(st) && Enabled(st, e) && !e.CheckRetired? && !e.Recheck? && !e.LockedRenewal?
    ensures OneWinner(Step(st, cfg, e))
  {
    hide Step, Enabled, Won;
    SameCalls(st, cfg, e);
  }

  lemma StepKeepsInv(st: State, cfg: Settings, e: Event)
    requires Inv(st)
    ensures Inv(Step(st, cfg, e))
  {
    StepKeepsRows(st, cfg, e);
    hide Rows, OneWinner;
    if Enabled(st, e) {
      StepKeepsWinner(st, cfg, e);
    }
  }

  /** Steps outside the refresh protocol leave retired cookies alone and finish no call. */
  lemma SameCalls(st: State, cfg: Settings, e: Event)
    requires Enabled(st, e) && !e.CheckRetired? && !e.Recheck? && !e.LockedRenewal?
    ensures var after := Step(st, cfg, e);
            && after.retired == st.retired
            && forall i :: Won(after, i) ==> Won(st, i) && after.calls[i] == st.calls[i]
  {
    hide RevokeAll, Look, LogoutIds, OfIdentity;
    RevokeKeepsCalls(st);
  }

  lemma {:induction false} RunKeepsInv(st: State, cfg: Settings, events: seq<Event>)
    requires Inv(st)
    ensures Inv(Run(st, cfg, events))
  {
    hide Inv, Step;
    if events != [] {
      var n := |events| - 1;
      RunKeepsInv(st, cfg, events[..n]);
      StepKeepsInv(Run(st, cfg, events[..n]), cfg, events[n]);
    }
  }

  /**
   From empty tables, in every reachable state: a session's generation is its number of retired
   cookies, its current cookie is none of them, the sealed bearer carries that generation, and its
   refresh credential is in the live row or in the queue, never in both.
   */
  lemma ReachableStates(cfg: Settings, events: seq<Event>, sid: nat)
    requires sid in Run(EMPTY, cfg, events).sessions
    ensures var st := Run(EMPTY, cfg, events); var s := st.sessions[sid];
            && s.generation == |RetiredOf(st, sid)| && s.cookie !in st.retired
            && (Live(st, sid) <==> HoldsFor(s.box, sid, s.generation))
            && (if Live(st, sid) then sid !in st.queue else s.box == Box(sid, Emptied))
            && (sid in st.queue ==> Holds(st.queue[sid], sid))
  {
    EmptyIsSound();
    RunKeepsInv(EMPTY, cfg, events);
  }

  lemma EmptyIsSound()
    ensures Inv(EMPTY)
  {
  }

  /** In every interleaving at most one call on a cookie returns a new cookie. */
  lemma AtMostOneWinner(cfg: Settings, events: seq<Event>, i: nat, j: nat)
    requires var st := Run(EMPTY, cfg, events);
             Won(st, i) && Won(st, j) && st.calls[i].cookie == st.calls[j].cookie
    ensures i == j
  {
    EmptyIsSound();
    RunKeepsInv(EMPTY, cfg, events);
  }

  // ---------------------------------------------------------------- what time never undoes

  /** Everything that can only move one way between two states. */
  ghost predicate Later(a: State, b: State) {
    && a.clock <= b.clock && a.acknowledged <= b.acknowledged
    && (forall c :: c in a.retired ==> c in b.retired && b.retired[c] == a.retired[c])
    && (forall s :: s in a.sessions ==> s in b.sessions && Aged(a.sessions[s], b.sessions[s]))
  }

  ghost predicate Aged(a: Session, b: Session) {
    && a.identity == b.identity && a.expiresAt == b.expiresAt && a.generation <= b.generation
    && (a.revokedAt.Some? ==> b.revokedAt == a.revokedAt)
  }

  lemma RevokeIsLater(st: State, ids: set<nat>)
    ensures Later(st, RevokeAll(st, ids))
  {
  }

  lemma SettleIsLater(st: State, cfg: Settings, sid: nat, cookie: nat, newCookie: nat, secret: Secret, reply: Reply)
    requires sid in st.sessions && secret.Credentials? && cookie !in st.retired
    ensures Later(st, Settle(st, cfg, sid, cookie, newCookie, secret, reply).0)
  {
    hide RevokeAll, Rotate, Keep, Later;
    match Consult(secret, reply)
    case Renewed(tokens) => RotateIsLater(st, cfg, sid, cookie, newCookie, secret, tokens);
    case Deferred(kept) => KeepIsLater(st, sid, secret, kept);
    case Refused => RevokeIsLater(st, {sid});
  }

  lemma RotateIsLater(st: State, cfg: Settings, sid: nat, cookie: nat, newCookie: nat, secret: Secret, tokens: Grant)
    requires sid in st.sessions && secret.Credentials? && cookie !in st.retired
    ensures Later(st, Rotate(st, cfg, sid, cookie, newCookie, secret, tokens))
  {
  }

  lemma KeepIsLater(st: State, sid: nat, secret: Secret, kept: Option<Grant>)
    requires sid in st.sessions && secret.Credentials?
    ensures Later(st, Keep(st, sid, secret, kept))
  {
  }

  lemma RenewIsLater(st: State, cfg: Settings, cookie: nat, newCookie: nat, reply: Reply)
    requires Rows(st)
    ensures Later(st, RenewLocked(st, cfg, cookie, newCookie, reply).0)
  {
    RetiredIsNotCurrent(st, cookie);
    hide Rows, Settle;
    if Look(st, cookie).Found? {
      var sid := st.index[cookie];
      var secret := st.sessions[sid].box.secret;
      if secret.Credentials? {
        SettleIsLater(st, cfg, sid, cookie, newCookie, secret, reply);
      }
    }
  }

  /** The sessions that a step outside the locked renewal revokes. */
  function Revoked(st: State, e: Event): set<nat>
    requires Enabled(st, e)
  {
    match e
    case Login(_, identity, _, reply, recover, commits) =>
      if recover && Admits(st, identity, reply, commits) then OfIdentity(st, identity) else {}
    case CheckRetired(call) => Replayed(st, call)
    case Recheck(call) => Replayed(st, call)
    case Logout(cookie, everywhere) => LogoutIds(st, cookie, everywhere)
    case Expire(ids) => ids
    case _ => {}
  }

  function Replayed(st: State, call: nat): set<nat>
    requires call in st.calls
  {
    if st.calls[call].cookie in st.retired then {st.retired[st.calls[call].cookie]} else {}
  }

  lemma RevokeNone(st: State)
    ensures RevokeAll(st, {}).sessions == st.sessions && RevokeAll(st, {}).queue == st.queue
  {
  }

  /** What a step does to rows and queue: the locked renewal and drain apart, it revokes and may log in. */
  lemma StepTables(st: State, cfg: Settings, e: Event)
    requires Enabled(st, e) && !e.LockedRenewal? && !e.Drain?
    ensures var after := Step(st, cfg, e); var base := RevokeAll(st, Revoked(st, e));
            && after.queue == base.queue && after.retired == base.retired
            && after.acknowledged == base.acknowledged && after.clock >= base.clock
            && after.sessions == if e.Login? && e.sid in after.sessions
                                 then base.sessions[e.sid := after.sessions[e.sid]] else base.sessions
  {
    hide RevokeAll, LogoutIds, OfIdentity, Look;
    RevokeNone(st);
    RevokeFrame(st, Revoked(st, e));
    RevokeFrame(st, {});
  }

  lemma RevokeFrame(st: State, ids: set<nat>)
    ensures var base := RevokeAll(st, ids);
            && base.calls == st.calls && base.retired == st.retired && base.clock == st.clock
            && base.acknowledged == st.acknowledged && base.sessions.Keys == st.sessions.Keys
  {
  }

  lemma LaterTables(st: State, base: State, after: State, sid: nat)
    requires Later(st, base) && after.retired == base.retired && after.clock >= base.clock
    requires after.acknowledged == base.acknowledged
    requires forall s :: s in base.sessions && s != sid ==> s in after.sessions && after.sessions[s] == base.sessions[s]
    requires sid !in st.sessions || after.sessions == base.sessions
    ensures Later(st, after)
  {
  }

  lemma StepIsLater(st: State, cfg: Settings, e: Event)
    requires Rows(st)
    ensures Later(st, Step(st, cfg, e))
  {
    if !Enabled(st, e) {
      AgedReflexive(st);
    } else if e.LockedRenewal? {
      RenewStepIsLater(st, cfg, e);
    } else if e.Drain? {
      AgedReflexive(st);
    } else {
      TablesStepIsLater(st, cfg, e);
    }
    hide Rows, RenewLocked, Look, LogoutIds, RevokeAll, Aged;
  }

  lemma RenewStepIsLater(st: State, cfg: Settings, e: Event)
    requires Rows(st) && Enabled(st, e) && e.LockedRenewal?
    ensures Later(st, Step(st, cfg, e))
  {
    hide Rows, RenewLocked, Aged;
    AgedReflexive(st);
    RenewIsLater(st, cfg, st.calls[e.call].cookie, e.newCookie, e.reply);
  }

  lemma TablesStepIsLater(st: State, cfg: Settings, e: Event)
    requires Enabled(st, e) && !e.LockedRenewal? && !e.Drain?
    ensures Later(st, Step(st, cfg, e))
  {
    hide RevokeAll, Revoked, Step, Later, Look;
    var ids := Revoked(st, e);
    StepTables(st, cfg, e);
    RevokeIsLater(st, ids);
    RevokeFrame(st, ids);
    LaterTables(st, RevokeAll(st, ids), Step(st, cfg, e), if e.Login? then e.sid else 0);
  }

  /** `expires_at` and the owner are fixed, `revoked_at` is never cleared, generations never go back. */
  lemma {:induction false} RunIsLater(st: State, cfg: Settings, events: seq<Event>)
    requires Inv(st)
    ensures Later(st, Run(st, cfg, events))
  {
    hide Inv, Step, Aged;
    if events == [] {
      assert Later(st, st) by { AgedReflexive(st); }
    } else {
      var n := |events| - 1;
      var before := Run(st, cfg, events[..n]);
      RunIsLater(st, cfg, events[..n]);
      RunKeepsInv(st, cfg, events[..n]);
      LaterStep(st, before, cfg, events[n]);
    }
  }

  lemma AgedReflexive(st: State)
    ensures forall s :: s in st.sessions ==> Aged(st.sessions[s], st.sessions[s])
  {
  }

  lemma LaterTransitive(a: State, b: State, c: State)
    requires Later(a, b) && Later(b, c)
    ensures Later(a, c)
  {
  }

  lemma InvRows(st: State)
    requires Inv(st)
    ensures Rows(st)
  {
  }

  lemma LaterStep(st: State, before: State, cfg: Settings, e: Event)
    requires Later(st, before) && Inv(before)
    ensures Later(st, Step(before, cfg, e))
  {
    hide Inv, Rows, Step, Later;
    InvRows(before);
    StepIsLater(before, cfg, e);
    LaterTransitive(st, before, Step(before, cfg, e));
  }

  // ---------------------------------------------------------------- idle limits and granted credentials

  /** From `a` to `b`, limits and cookie moved only with the generation, and then no further than the settings. */
  ghost predicate Limited(a: Session, b: Session, cfg: Settings, now: int) {
    if b.generation == a.generation
    then b.idleUntil == a.idleUntil && b.accessUntil == a.accessUntil && b.cookie == a.cookie
    else b.idleUntil <= b.expiresAt && b.idleUntil <= now + cfg.idle && b.accessUntil <= now + cfg.access
  }

  lemma SettleLimits(st: State, cfg: Settings, sid: nat, cookie: nat, newCookie: nat, secret: Secret, reply: Reply, s: nat)
    requires sid in st.sessions && secret.Credentials? && s in st.sessions
    ensures var after := Settle(st, cfg, sid, cookie, newCookie, secret, reply).0;
            s in after.sessions && Limited(st.sessions[s], after.sessions[s], cfg, st.clock)
  {
    hide RevokeAll;
    RevokeLimits(st, {sid}, cfg, s);
  }

  lemma RenewLimits(st: State, cfg: Settings, cookie: nat, newCookie: nat, reply: Reply, s: nat)
    requires s in st.sessions
    ensures var after := RenewLocked(st, cfg, cookie, newCookie, reply).0;
            s in after.sessions && Limited(st.sessions[s], after.sessions[s], cfg, st.clock)
  {
    hide Settle;
    if Look(st, cookie).Found? && st.sessions[st.index[cookie]].box.secret.Credentials? {
      var sid := st.index[cookie];
      SettleLimits(st, cfg, sid, cookie, newCookie, st.sessions[sid].box.secret, reply, s);
    }
  }

  lemma RevokeLimits(st: State, ids: set<nat>, cfg: Settings, s: nat)
    requires s in st.sessions
    ensures var after := RevokeAll(st, ids);
            s in after.sessions && Limited(st.sessions[s], after.sessions[s], cfg, st.clock)
            && after.sessions[s].generation == st.sessions[s].generation
  {
  }

  lemma StepLimits(st: State, cfg: Settings, e: Event, s: nat)
    requires s in st.sessions
    ensures var after := Step(st, cfg, e);
            s in after.sessions && Limited(st.sessions[s], after.sessions[s], cfg, st.clock)
  {
    hide Step, RevokeAll, RenewLocked, Revoked, DrainOne;
    if !Enabled(st, e) {
      DisabledStep(st, cfg, e);
    } else if e.LockedRenewal? {
      RenewalQueue(st, cfg, e);
      RenewLimits(st, cfg, st.calls[e.call].cookie, e.newCookie, e.reply, s);
    } else if e.Drain? {
      DrainKeepsSessions(st, cfg, e);
    } else {
      StepTables(st, cfg, e);
      RevokeLimits(st, Revoked(st, e), cfg, s);
      FreshLogin(st, e, s);
    }
  }

  lemma FreshLogin(st: State, e: Event, s: nat)
    requires Enabled(st, e) && s in st.sessions
    ensures e.Login? ==> e.sid != s
  {
  }

  lemma DrainKeepsSessions(st: State, cfg: Settings, e: Event)
    requires Enabled(st, e) && e.Drain?
    ensures Step(st, cfg, e).sessions == st.sessions
  {
  }

  /** Only a rotation moves the idle limit, so a session that is not refreshed in time dies, and never later than it must. */
  lemma {:induction false} OnlyRotationExtends(st: State, cfg: Settings, events: seq<Event>, s: nat)
    requires Inv(st) && s in st.sessions
    ensures var after := Run(st, cfg, events);
            && s in after.sessions && Limited(st.sessions[s], after.sessions[s], cfg, after.clock)
            && (after.sessions[s].generation == st.sessions[s].generation && after.clock >= st.sessions[s].idleUntil ==>
                  !Current(after, s))
  {
    if events != [] {
      hide Step, Inv, Limited, Current, Later;
      var n := |events| - 1;
      var before := Run(st, cfg, events[..n]);
      OnlyRotationExtends(st, cfg, events[..n], s);
      RunKeepsInv(st, cfg, events[..n]);
      RunIsLater(st, cfg, events[..n]);
      LimitsOneMore(st, before, cfg, events[n], s);
      LimitKills(st, Step(before, cfg, events[n]), cfg, s);
    }
  }

  lemma LimitsOneMore(st: State, before: State, cfg: Settings, e: Event, s: nat)
    requires s in st.sessions && Later(st, before) && Inv(before)
    requires Limited(st.sessions[s], before.sessions[s], cfg, before.clock)
    ensures var after := Step(before, cfg, e);
            s in after.sessions && Limited(st.sessions[s], after.sessions[s], cfg, after.clock)
  {
    hide Step, Inv, Rows;
    InvRows(before);
    StepLimits(before, cfg, e, s);
    StepIsLater(before, cfg, e);
  }

  lemma LimitKills(st: State, after: State, cfg: Settings, s: nat)
    requires s in st.sessions && s in after.sessions
    requires Limited(st.sessions[s], after.sessions[s], cfg, after.clock)
    ensures after.sessions[s].generation == st.sessions[s].generation && after.clock >= st.sessions[s].idleUntil ==>
              !Current(after, s)
  {
  }

  function CredentialIn(r: GrantReply): Option<nat> {
    match r
    case Granted(grant) => grant.refresh
    case Unusable(grant) => grant.refresh
    case _ => None
  }

  /** The refresh credential that the issuer newly grants during a step, whatever the service makes of it. */
  function NewGrant(st: State, e: Event): Option<nat>
    requires Enabled(st, e)
  {
    match e
    case Login(_, _, _, reply, _, _) => CredentialIn(reply.grant)
    case LockedRenewal(call, _, reply, _) =>
      var cookie := st.calls[call].cookie;
      if Look(st, cookie).Found? && Asks(st.sessions[st.index[cookie]]) then CredentialIn(reply.grant) else None
    case _ => None
  }

  /** A renewal asks for tokens unless an earlier answer is still waiting to be verified. */
  predicate Asks(s: Session) {
    s.box.secret.Credentials? && s.box.secret.pending.None?
  }

  /** Some live row holds the credential. */
  ghost predicate InRow(st: State, g: nat) {
    exists s :: Live(st, s) && HoldsGrant(st.sessions[s], g)
  }

  predicate HoldsGrant(s: Session, g: nat) {
    s.box.secret.Credentials? && s.box.secret.refresh == g
  }

  /** The credential is queued for revocation, or its revocation was confirmed. */
  ghost predicate Retiring(st: State, g: nat) {
    g in st.acknowledged
    || exists s :: s in st.queue && st.queue[s].secret.Credentials? && st.queue[s].secret.refresh == g
  }

  /** What it takes for a newly granted credential to be stored. */
  predicate Stores(st: State, e: Event) {
    match e
    case Login(_, identity, _, reply, _, commits) => Admits(st, identity, reply, commits)
    case LockedRenewal(_, _, reply, commits) => reply.grant.Granted? && !reply.check.CheckRejected? && commits
    case _ => false
  }

  /**
   A credential that the issuer newly grants, at login or renewal, is in a live row after the step
   exactly when the answer was usable, the service did not reject it, and the transaction committed;
   a deferred verification keeps it. Otherwise it is in no place at all.
   */
  lemma GrantIsKeptExactly(st: State, cfg: Settings, e: Event, g: nat)
    requires Inv(st) && Enabled(st, e) && NewGrant(st, e) == Some(g)
    requires !InRow(st, g) && !Retiring(st, g)
    ensures InRow(Step(st, cfg, e), g) <==> Stores(st, e)
    ensures !Retiring(Step(st, cfg, e), g)
  {
    if e.Login? {
      LoginGrant(st, cfg, e, g);
    } else {
      RenewalGrant(st, cfg, e, g);
    }
  }

  /** What the tables held is what they hold, once `g` was in no row and no revocation. */
  lemma RevokeHidesNothing(st: State, ids: set<nat>, g: nat)
    requires Rows(st) && !InRow(st, g) && !Retiring(st, g)
    ensures !InRow(RevokeAll(st, ids), g) && !Retiring(RevokeAll(st, ids), g)
  {
    hide Indexed, CookiesApart, Counted;
    var after := RevokeAll(st, ids);
    forall s | s in after.sessions && Live(after, s) ensures !HoldsGrant(after.sessions[s], g) {
      RevokeMoves(st, ids, s);
      assert Live(st, s) && after.sessions[s] == st.sessions[s];
    }
    forall s | s in after.queue
      ensures !(after.queue[s].secret.Credentials? && after.queue[s].secret.refresh == g)
    {
      RevokeQueue(st, ids, s);
      if s !in st.queue {
        assert Live(st, s) && !HoldsGrant(st.sessions[s], g);
      }
    }
  }

  lemma LoginGrant(st: State, cfg: Settings, e: Event, g: nat)
    requires Inv(st) && Enabled(st, e) && e.Login? && NewGrant(st, e) == Some(g)
    requires !InRow(st, g) && !Retiring(st, g)
    ensures InRow(Step(st, cfg, e), g) <==> Stores(st, e)
    ensures !Retiring(Step(st, cfg, e), g)
  {
    hide RevokeAll, Inv, Rows;
    InvRows(st);
    if Admits(st, e.identity, e.reply, e.commits) {
      var base := if e.recover then RevokeAll(st, OfIdentity(st, e.identity)) else st;
      if e.recover {
        RevokeHidesNothing(st, OfIdentity(st, e.identity), g);
      }
      var after := Step(st, cfg, e);
      assert Live(after, e.sid) && HoldsGrant(after.sessions[e.sid], g);
      assert after.queue == base.queue && after.acknowledged == base.acknowledged;
    }
  }

  lemma RenewalGrant(st: State, cfg: Settings, e: Event, g: nat)
    requires Inv(st) && Enabled(st, e) && e.LockedRenewal? && NewGrant(st, e) == Some(g)
    requires !InRow(st, g) && !Retiring(st, g)
    ensures InRow(Step(st, cfg, e), g) <==> Stores(st, e)
    ensures !Retiring(Step(st, cfg, e), g)
  {
    hide Inv, Rows, RenewLocked, InRow, Retiring, Look;
    var cookie := st.calls[e.call].cookie;
    InvRows(st);
    SettledGrant(st, cfg, cookie, e.newCookie, e.reply, g);
    RenewalQueue(st, cfg, e);
    AcknowledgedStays(st, cfg, e);
    RenewKeepsAcknowledged(st, cfg, cookie, e.newCookie, e.reply);
    SameHoldings(if e.commits then RenewLocked(st, cfg, cookie, e.newCookie, e.reply).0 else st, Step(st, cfg, e), g);
  }

  lemma SameHoldings(a: State, b: State, g: nat)
    requires a.sessions == b.sessions && a.queue == b.queue && a.acknowledged == b.acknowledged
    ensures InRow(a, g) <==> InRow(b, g)
    ensures Retiring(a, g) <==> Retiring(b, g)
  {
    assert forall s :: Live(a, s) <==> Live(b, s);
  }

  /** The same, of the locked half of a renewal that commits. */
  lemma SettledGrant(st: State, cfg: Settings, cookie: nat, newCookie: nat, reply: Reply, g: nat)
    requires Rows(st) && Look(st, cookie).Found? && Asks(st.sessions[st.index[cookie]])
    requires CredentialIn(reply.grant) == Some(g) && !InRow(st, g) && !Retiring(st, g)
    ensures var after := RenewLocked(st, cfg, cookie, newCookie, reply).0;
            && (InRow(after, g) <==> reply.grant.Granted? && !reply.check.CheckRejected?)
            && !Retiring(after, g)
  {
    hide RevokeAll, Rows;
    FoundHolds(st, cookie);
    var sid := st.index[cookie];
    var after := RenewLocked(st, cfg, cookie, newCookie, reply).0;
    if reply.grant.Unusable? {
      assert after == st;
    } else if reply.check.CheckRejected? {
      RevokeHidesNothing(st, {sid}, g);
    } else {
      assert Live(after, sid) && HoldsGrant(after.sessions[sid], g);
    }
  }

  // ---------------------------------------------------------------- losing the race

  predicate Finished(st: State, call: nat) {
    call in st.calls && st.calls[call].phase.Done?
  }

  /** The session that `cookie` was retired from is revoked. */
  predicate FamilyRevoked(st: State, cookie: nat) {
    cookie in st.retired && st.retired[cookie] in st.sessions && !Live(st, st.retired[cookie])
  }

  lemma CatchRevokes(st: State, call: nat, otherwise: Phase)
    requires Rows(st) && call in st.calls && st.calls[call].cookie in st.retired
    ensures var after := CatchReuse(st, call, otherwise); var cookie := st.calls[call].cookie;
            && FamilyRevoked(after, cookie)
            && call in after.calls && after.calls[call] == Call(cookie, Done(Reused))
  {
  }

  /** A step leaves every call alone that it does not name. */
  lemma OtherCalls(st: State, cfg: Settings, e: Event, call: nat)
    requires call in st.calls
    requires match e
             case CheckRetired(c) => c != call
             case FirstLookup(c) => c != call
             case LockedRenewal(c, _, _, _) => c != call
             case Recheck(c) => c != call
             case Abandon(c) => c != call
             case _ => true
    ensures var after := Step(st, cfg, e); call in after.calls && after.calls[call] == st.calls[call]
  {
    hide RenewLocked, RevokeAll, Look, LogoutIds, OfIdentity;
    if Enabled(st, e) {
      RevokeKeepsCalls(st);
      if e.LockedRenewal? {
        RenewalRetires(st, cfg, st.calls[e.call].cookie, e.newCookie, e.reply);
      }
    }
  }

  lemma RevokeKeepsCalls(st: State)
    ensures forall ids :: RevokeAll(st, ids).calls == st.calls && RevokeAll(st, ids).retired == st.retired
  {
  }

  lemma LateRenewalMisses(st: State, cfg: Settings, e: Event)
    requires Inv(st) && Enabled(st, e) && e.LockedRenewal? && st.calls[e.call].cookie in st.retired
    ensures var after := Step(st, cfg, e);
            e.call in after.calls && after.calls[e.call] == st.calls[e.call].(phase := Missed)
  {
    hide Step, Rows, OneWinner, Look;
    InvRows(st);
    RetiredIsNotCurrent(st, st.calls[e.call].cookie);
    RenewalCalls(st, cfg, e);
  }

  lemma LateLookupRevokes(st: State, cfg: Settings, e: Event)
    requires Inv(st) && Enabled(st, e) && (e.CheckRetired? || e.Recheck?) && st.calls[e.call].cookie in st.retired
    ensures var after := Step(st, cfg, e); var cookie := st.calls[e.call].cookie;
            && FamilyRevoked(after, cookie)
            && e.call in after.calls && after.calls[e.call] == Call(cookie, Done(Reused))
  {
    hide CatchReuse, Rows, OneWinner, FamilyRevoked;
    InvRows(st);
    CatchRevokes(st, e.call, if e.CheckRetired? then NotRetired else Done(Expired));
  }

  /** A step that finishes a call on a retired cookie revokes that session and reports the reuse. */
  lemma LateFinishRevokes(st: State, cfg: Settings, e: Event, call: nat)
    requires Inv(st) && call in st.calls && !Finished(st, call) && st.calls[call].cookie in st.retired
    ensures var after := Step(st, cfg, e);
            Finished(after, call) ==>
              FamilyRevoked(after, st.calls[call].cookie) && after.calls[call].phase.result.Reused?
    ensures var after := Step(st, cfg, e);
            call in after.calls ==> after.calls[call].cookie == st.calls[call].cookie
  {
    hide RenewLocked, CatchReuse, Inv, FamilyRevoked, Look, LogoutIds, RevokeAll;
    if Enabled(st, e) {
      if (e.CheckRetired? || e.Recheck?) && e.call == call {
        LateLookupRevokes(st, cfg, e);
      } else if e.LockedRenewal? && e.call == call {
        LateRenewalMisses(st, cfg, e);
      } else if (e.FirstLookup? || e.Abandon?) && e.call == call {
        assert Finished(Step(st, cfg, e), call) ==> Finished(st, call);
      } else {
        OtherCalls(st, cfg, e, call);
      }
    }
  }

  /**
   Every call still in progress once its cookie has been retired, whichever lookups it has already
   done, finds the session revoked when it finishes, and so does every later state.
   */
  lemma {:induction false} LateCallRevokes(st: State, cfg: Settings, events: seq<Event>, call: nat)
    requires Inv(st) && call in st.calls && !Finished(st, call) && st.calls[call].cookie in st.retired
    requires forall i :: 0 <= i < |events| ==> events[i] != Abandon(call)
    ensures var after := Run(st, cfg, events);
            && call in after.calls && after.calls[call].cookie == st.calls[call].cookie
            && (Finished(after, call) ==>
                  FamilyRevoked(after, st.calls[call].cookie) && after.calls[call].phase.result.Reused?)
  {
    if events != [] {
      hide Step, Inv;
      var n := |events| - 1;
      var before := Run(st, cfg, events[..n]);
      LateCallRevokes(st, cfg, events[..n], call);
      RunKeepsInv(st, cfg, events[..n]);
      RunIsLater(st, cfg, events[..n]);
      CallSurvives(before, cfg, events[n], call);
      if Finished(before, call) {
        RevokedFamilyStays(before, cfg, events[n], st.calls[call].cookie);
      } else {
        LateFinishRevokes(before, cfg, events[n], call);
      }
    }
  }

  lemma CallSurvives(st: State, cfg: Settings, e: Event, call: nat)
    requires call in st.calls && e != Abandon(call)
    ensures var after := Step(st, cfg, e);
            && call in after.calls && after.calls[call].cookie == st.calls[call].cookie
            && (st.calls[call].phase.Done? ==> after.calls[call] == st.calls[call])
  {
    hide RenewLocked, RevokeAll, Look, LogoutIds, OfIdentity;
    if e.LockedRenewal? && e.call == call {
      if Enabled(st, e) {
        RenewalCalls(st, cfg, e);
      }
    } else if (e.CheckRetired? || e.Recheck? || e.FirstLookup?) && e.call == call {
      if Enabled(st, e) {
        RevokeKeepsCalls(st);
      }
    } else {
      OtherCalls(st, cfg, e, call);
    }
  }

  lemma RevokedFamilyStays(st: State, cfg: Settings, e: Event, cookie: nat)
    requires Inv(st) && FamilyRevoked(st, cookie)
    ensures FamilyRevoked(Step(st, cfg, e), cookie)
  {
    hide Step, Inv, Rows;
    InvRows(st);
    StepIsLater(st, cfg, e);
  }

  // ---------------------------------------------------------------- what a bearer or a session can do

  datatype Bearer = Bearer(sid: nat, version: nat, user: nat)

  /** `authenticate_bearer`, after the signature has been checked. */
  predicate Accepts(st: State, b: Bearer) {
    && Current(st, b.sid) && OwnerActive(st, b.sid)
    && b.version == st.sessions[b.sid].generation
    && b.user == st.owners[st.sessions[b.sid].identity].user
  }

  lemma RenewRevivesNothing(st: State, cfg: Settings, cookie: nat, newCookie: nat, reply: Reply, sid: nat)
    requires Rows(st) && sid in st.sessions && !Current(st, sid)
    ensures !Current(RenewLocked(st, cfg, cookie, newCookie, reply).0, sid)
  {
    hide Rows, Consult;
  }

  lemma StepRevivesNothing(st: State, cfg: Settings, e: Event, sid: nat)
    requires Rows(st) && sid in st.sessions && !Current(st, sid)
    ensures !Current(Step(st, cfg, e), sid)
  {
    hide RenewLocked, Rows, Look, LogoutIds;
    if e.LockedRenewal? && Enabled(st, e) {
      RenewRevivesNothing(st, cfg, st.calls[e.call].cookie, e.newCookie, e.reply, sid);
    }
  }

  /** A session that is revoked, expired or idle too long is dead for ever: no run revives it. */
  lemma {:induction false} DeadStaysDead(st: State, cfg: Settings, events: seq<Event>, sid: nat)
    requires Inv(st) && sid in st.sessions && !Current(st, sid)
    ensures !Current(Run(st, cfg, events), sid)
  {
    if events != [] {
      hide Step, Rows, OneWinner, Current;
      var n := |events| - 1;
      DeadStaysDead(st, cfg, events[..n], sid);
      RunKeepsInv(st, cfg, events[..n]);
      RunIsLater(st, cfg, events[..n]);
      StepRevivesNothing(Run(st, cfg, events[..n]), cfg, events[n], sid);
    }
  }

  /** A bearer of an earlier generation, or of a session that is no longer current, is never accepted again. */
  lemma OldBearerNeverAccepted(st: State, cfg: Settings, events: seq<Event>, b: Bearer)
    requires Inv(st) && b.sid in st.sessions
    requires b.version < st.sessions[b.sid].generation || !Current(st, b.sid)
    ensures !Accepts(Run(st, cfg, events), b)
  {
    RunIsLater(st, cfg, events);
    if !Current(st, b.sid) {
      DeadStaysDead(st, cfg, events, b.sid);
    }
    hide Run, Inv, Current;
  }

  // ---------------------------------------------------------------- custody of refresh credentials

  lemma RevokeQueue(st: State, ids: set<nat>, sid: nat)
    ensures var base := RevokeAll(st, ids);
            if sid in st.queue then sid in base.queue && base.queue[sid] == st.queue[sid]
            else if sid in ids && Live(st, sid) then sid in base.queue && base.queue[sid] == st.sessions[sid].box
            else sid !in base.queue
    ensures sid in st.sessions && !(sid in ids && Live(st, sid)) ==> RevokeAll(st, ids).sessions[sid] == st.sessions[sid]
  {
  }

  lemma DrainQueue(st: State, cfg: Settings, e: Event, sid: nat)
    requires Inv(st) && Enabled(st, e) && e.Drain?
    ensures var after := Step(st, cfg, e);
            && after.sessions == st.sessions
            && (sid !in st.queue ==> sid !in after.queue)
            && (sid in st.queue ==>
                  && (sid in after.queue ==> after.queue[sid] == st.queue[sid])
                  && (sid !in after.queue <==> e == Drain(sid, true, true))
                  && (sid !in after.queue ==> st.queue[sid].secret.refresh in after.acknowledged))
  {
    hide Inv, Rows, DrainOne;
    QueueOpens(st, e.sid);
    DrainOneQueue(st, e.sid, e.acknowledges, e.commits, sid);
  }

  lemma QueueOpens(st: State, sid: nat)
    requires Inv(st) && sid in st.queue
    ensures Holds(st.queue[sid], sid)
  {
  }

  lemma DrainOneQueue(st: State, id: nat, acknowledges: bool, commits: bool, sid: nat)
    requires id in st.queue && Holds(st.queue[id], id)
    ensures var after := DrainOne(st, id, acknowledges, commits);
            && after.sessions == st.sessions
            && (sid in st.queue && (sid != id || !acknowledges || !commits) ==>
                  sid in after.queue && after.queue[sid] == st.queue[sid])
            && (sid !in st.queue || (sid == id && acknowledges && commits) ==> sid !in after.queue)
            && (acknowledges ==> st.queue[id].secret.refresh in after.acknowledged)
  {
  }

  /** A queued credential leaves the queue exactly when the issuer confirmed it and that was committed. */
  lemma QueueLeftOnlyByAcknowledgement(st: State, cfg: Settings, e: Event, sid: nat)
    requires Inv(st) && sid in st.queue
    ensures var after := Step(st, cfg, e);
            && (sid in after.queue ==> after.queue[sid] == st.queue[sid])
            && (sid !in after.queue <==> e == Drain(sid, true, true))
            && (sid !in after.queue ==> st.queue[sid].secret.refresh in after.acknowledged)
  {
    hide Inv, Rows, Step, Revoked, RevokeAll;
    if !Enabled(st, e) {
      DisabledStep(st, cfg, e);
    } else if e.LockedRenewal? {
      InvRows(st);
      RenewalQueue(st, cfg, e);
      RenewKeepsQueue(st, cfg, st.calls[e.call].cookie, e.newCookie, e.reply, sid);
    } else if e.Drain? {
      DrainQueue(st, cfg, e, sid);
    } else {
      StepTables(st, cfg, e);
      RevokeQueue(st, Revoked(st, e), sid);
    }
  }

  lemma DisabledStep(st: State, cfg: Settings, e: Event)
    requires !Enabled(st, e)
    ensures Step(st, cfg, e) == st
  {
  }

  lemma RenewalQueue(st: State, cfg: Settings, e: Event)
    requires Enabled(st, e) && e.LockedRenewal?
    ensures var after := Step(st, cfg, e);
            var mid := if e.commits then RenewLocked(st, cfg, st.calls[e.call].cookie, e.newCookie, e.reply).0 else st;
            after.queue == mid.queue && after.sessions == mid.sessions
  {
    hide Look;
    RenewalRetires(st, cfg, st.calls[e.call].cookie, e.newCookie, e.reply);
  }

  lemma RenewKeepsQueue(st: State, cfg: Settings, cookie: nat, newCookie: nat, reply: Reply, sid: nat)
    requires Rows(st) && sid in st.queue
    ensures var after := RenewLocked(st, cfg, cookie, newCookie, reply).0;
            sid in after.queue && after.queue[sid] == st.queue[sid]
  {
    hide Rows, Consult;
  }

  /** Revocation queues exactly the credential that the row held. */
  lemma RevocationQueuesTheCredential(st: State, cfg: Settings, e: Event, sid: nat)
    requires Inv(st) && Live(st, sid) && !Live(Step(st, cfg, e), sid)
    ensures var after := Step(st, cfg, e);
            sid in after.queue && after.queue[sid] == st.sessions[sid].box
  {
    hide Inv, Rows, Step, Revoked, RevokeAll, Look, RenewLocked;
    LiveIsNotQueued(st, sid);
    if !Enabled(st, e) {
      DisabledStep(st, cfg, e);
    } else if e.LockedRenewal? {
      RenewalQueue(st, cfg, e);
      RenewQueues(st, cfg, st.calls[e.call].cookie, e.newCookie, e.reply, sid);
    } else if e.Drain? {
      DrainQueue(st, cfg, e, sid);
    } else {
      StepTables(st, cfg, e);
      RevokeQueue(st, Revoked(st, e), sid);
      RevokeFrame(st, Revoked(st, e));
    }
  }

  lemma LiveIsNotQueued(st: State, sid: nat)
    requires Inv(st) && Live(st, sid)
    ensures Rows(st) && sid !in st.queue
  {
  }

  lemma RenewQueues(st: State, cfg: Settings, cookie: nat, newCookie: nat, reply: Reply, sid: nat)
    requires Rows(st) && Live(st, sid)
    ensures var after := RenewLocked(st, cfg, cookie, newCookie, reply).0;
            !Live(after, sid) ==> sid in after.queue && after.queue[sid] == st.sessions[sid].box
  {
    hide Consult, RevokeAll, Indexed, CookiesApart, Counted;
    if Look(st, cookie).Found? {
      RevokeQueue(st, {st.index[cookie]}, sid);
      RevokeFrame(st, {st.index[cookie]});
    }
  }

  lemma QueuedIsRevoked(st: State, sid: nat)
    requires Inv(st)
    ensures Rows(st) && (sid in st.queue ==> sid in st.sessions && !Live(st, sid))
  {
  }

  lemma OnlyLiveIsQueued(st: State, cfg: Settings, e: Event, sid: nat)
    requires Inv(st) && sid in st.sessions && !Live(st, sid) && sid !in st.queue
    ensures sid !in Step(st, cfg, e).queue
  {
    InvRows(st);
    hide Inv, Rows, Step, Revoked, RevokeAll;
    if !Enabled(st, e) {
      DisabledStep(st, cfg, e);
    } else if e.LockedRenewal? {
      RenewalQueue(st, cfg, e);
      RenewQueuesOnlyLive(st, cfg, st.calls[e.call].cookie, e.newCookie, e.reply, sid);
    } else if e.Drain? {
      DrainQueue(st, cfg, e, sid);
    } else {
      StepTables(st, cfg, e);
      RevokeQueue(st, Revoked(st, e), sid);
    }
  }

  lemma RenewQueuesOnlyLive(st: State, cfg: Settings, cookie: nat, newCookie: nat, reply: Reply, sid: nat)
    requires Rows(st) && sid in st.sessions && !Live(st, sid) && sid !in st.queue
    ensures sid !in RenewLocked(st, cfg, cookie, newCookie, reply).0.queue
  {
    hide Rows, Consult;
  }

  /** No run drops a queued credential before the issuer has acknowledged it. */
  lemma {:induction false} NeverDropped(st: State, cfg: Settings, events: seq<Event>, sid: nat)
    requires Inv(st) && sid in st.queue && Holds(st.queue[sid], sid)
    ensures var after := Run(st, cfg, events);
            if sid in after.queue then after.queue[sid] == st.queue[sid]
            else st.queue[sid].secret.refresh in after.acknowledged
  {
    if events != [] {
      hide Step, Inv, Rows;
      var n := |events| - 1;
      var before := Run(st, cfg, events[..n]);
      NeverDropped(st, cfg, events[..n], sid);
      RunKeepsInv(st, cfg, events[..n]);
      if sid in before.queue {
        QueueLeftOnlyByAcknowledgement(before, cfg, events[n], sid);
      } else {
        GoneStaysGone(st, before, cfg, events[..n], events[n], sid);
      }
    }
  }

  /** Once its entry is gone, a revoked session is not queued again, and acknowledgements stay. */
  lemma GoneStaysGone(st: State, before: State, cfg: Settings, events: seq<Event>, e: Event, sid: nat)
    requires Inv(st) && sid in st.queue && before == Run(st, cfg, events) && Inv(before) && sid !in before.queue
    ensures sid !in Step(before, cfg, e).queue && before.acknowledged <= Step(before, cfg, e).acknowledged
  {
    hide Step, Inv, Rows, Run;
    QueuedIsRevoked(st, sid);
    RunIsLater(st, cfg, events);
    OnlyLiveIsQueued(before, cfg, e, sid);
    InvRows(before);
    StepIsLater(before, cfg, e);
  }

  /** From the live row through the queue to the issuer: a revoked session's credential is never lost. */
  lemma CustodyChain(st: State, cfg: Settings, e: Event, events: seq<Event>, sid: nat)
    requires Inv(st) && Live(st, sid) && !Live(Step(st, cfg, e), sid)
    ensures var after := Run(Step(st, cfg, e), cfg, events); var credential := st.sessions[sid].box;
            && Holds(credential, sid)
            && (if sid in after.queue then after.queue[sid] == credential
                else credential.secret.refresh in after.acknowledged)
  {
    hide Step, Run;
    assert Holds(st.sessions[sid].box, sid);
    StepKeepsInv(st, cfg, e);
    RevocationQueuesTheCredential(st, cfg, e, sid);
    NeverDropped(Step(st, cfg, e), cfg, events, sid);
  }

  lemma RunOneMore(st: State, cfg: Settings, events: seq<Event>, e: Event)
    ensures Run(st, cfg, events + [e]) == Step(Run(st, cfg, events), cfg, e)
  {
    hide Step;
    assert (events + [e])[..|events|] == events;
  }

  lemma {:induction false} RunConcat(st: State, cfg: Settings, a: seq<Event>, b: seq<Event>)
    ensures Run(st, cfg, a + b) == Run(Run(st, cfg, a), cfg, b)
  {
    hide Step;
    if b == [] {
      assert a + b == a;
    } else {
      RunConcat(st, cfg, a, b[..|b| - 1]);
      assert (a + b)[..|a + b| - 1] == a + b[..|b| - 1];
    }
  }

  /** A session is live when it is created, so a revoked one was revoked by some step. */
  lemma {:induction false} RevokedBySomeStep(cfg: Settings, events: seq<Event>, sid: nat) returns (k: nat)
    requires sid in Run(EMPTY, cfg, events).sessions && !Live(Run(EMPTY, cfg, events), sid)
    ensures k < |events|
    ensures Live(Run(EMPTY, cfg, events[..k]), sid) && !Live(Run(EMPTY, cfg, events[..k + 1]), sid)
  {
    hide Step;
    k := |events| - 1;
    var before := Run(EMPTY, cfg, events[..k]);
    assert events[..k + 1] == events;
    if !Live(before, sid) {
      if sid !in before.sessions {
        LiveAtFirst(before, cfg, events[k], sid);
      }
      var j := RevokedBySomeStep(cfg, events[..k], sid);
      assert events[..k][..j] == events[..j] && events[..k][..j + 1] == events[..j + 1];
      k := j;
    }
  }

  lemma LiveAtFirst(st: State, cfg: Settings, e: Event, sid: nat)
    requires sid in Step(st, cfg, e).sessions && sid !in st.sessions
    ensures Live(Step(st, cfg, e), sid)
  {
    hide RevokeAll, RenewLocked, Look, LogoutIds, OfIdentity;
    if Enabled(st, e) {
      RevokeKeepsKeys(st);
      if e.LockedRenewal? {
        RenewKeepsKeys(st, cfg, st.calls[e.call].cookie, e.newCookie, e.reply);
      }
    }
  }

  lemma RevokeKeepsKeys(st: State)
    ensures forall ids :: RevokeAll(st, ids).sessions.Keys == st.sessions.Keys
  {
  }

  lemma RenewKeepsKeys(st: State, cfg: Settings, cookie: nat, newCookie: nat, reply: Reply)
    ensures RenewLocked(st, cfg, cookie, newCookie, reply).0.sessions.Keys
            == st.sessions.Keys
  {
    hide Consult;
  }

  /** Where the credential `box` of session `sid` is, once it has left the live row. */
  predicate Queued(st: State, sid: nat, box: Box) {
    sid in st.queue && st.queue[sid] == box
  }

  predicate Acknowledged(st: State, box: Box) {
    box.secret.Credentials? && box.secret.refresh in st.acknowledged
  }

  /**
   Custody over every run: each session that ends revoked was revoked by some step, whose row held a
   credential, and in every state from there on that credential is queued or acknowledged.
   */
  lemma RevokedCustody(cfg: Settings, events: seq<Event>, sid: nat) returns (k: nat)
    requires sid in Run(EMPTY, cfg, events).sessions && !Live(Run(EMPTY, cfg, events), sid)
    ensures k < |events| && Live(Run(EMPTY, cfg, events[..k]), sid)
    ensures var credential := Run(EMPTY, cfg, events[..k]).sessions[sid].box;
            && Holds(credential, sid)
            && forall m :: k < m <= |events| ==>
                 var st := Run(EMPTY, cfg, events[..m]);
                 !Live(st, sid) && (Queued(st, sid, credential) || Acknowledged(st, credential))
  {
    hide Step, Run, Inv;
    EmptyIsSound();
    k := RevokedBySomeStep(cfg, events, sid);
    var before := Run(EMPTY, cfg, events[..k]);
    RunKeepsInv(EMPTY, cfg, events[..k]);
    assert events[..k] + [events[k]] == events[..k + 1];
    RunOneMore(EMPTY, cfg, events[..k], events[k]);
    var credential := before.sessions[sid].box;
    StepKeepsInv(before, cfg, events[k]);
    CustodyChain(before, cfg, events[k], [], sid);
    forall m | k < m <= |events|
      ensures var st := Run(EMPTY, cfg, events[..m]);
              !Live(st, sid) && (Queued(st, sid, credential) || Acknowledged(st, credential))
    {
      assert events[..k + 1] + events[k + 1..m] == events[..m];
      RunConcat(EMPTY, cfg, events[..k + 1], events[k + 1..m]);
      CustodyChain(before, cfg, events[k], events[k + 1..m], sid);
      RunIsLater(Run(EMPTY, cfg, events[..k + 1]), cfg, events[k + 1..m]);
      StillRevoked(before, cfg, events[k], Run(EMPTY, cfg, events[..m]), sid);
    }
  }

  lemma StillRevoked(st: State, cfg: Settings, e: Event, later: State, sid: nat)
    requires Inv(st) && Live(st, sid) && !Live(Step(st, cfg, e), sid) && Later(Step(st, cfg, e), later)
    ensures !Live(later, sid)
  {
    hide Step, Inv, Rows;
    InvRows(st);
    StepIsLater(st, cfg, e);
  }

  /**
   When a credential is in two places: starting queued and not acknowledged, it is both after a step
   exactly when that step is an acknowledging drain of a row with the same credential, and not a
   committed one of this row.
   */
  lemma BothPlacesExactly(st: State, cfg: Settings, e: Event, sid: nat)
    requires Inv(st) && sid in st.queue && !Acknowledged(st, st.queue[sid])
    ensures var after := Step(st, cfg, e); var box := st.queue[sid];
            Queued(after, sid, box) && Acknowledged(after, box)
            <==> && e.Drain? && e.acknowledges && e.sid in st.queue
                 && st.queue[e.sid].secret.refresh == box.secret.refresh
                 && !(e.sid == sid && e.commits)
  {
    hide Inv, Rows, Step, Holds;
    QueueOpens(st, sid);
    QueueLeftOnlyByAcknowledgement(st, cfg, e, sid);
    AcknowledgedByDrain(st, cfg, e);
    if e.Drain? && e.sid in st.queue {
      QueueOpens(st, e.sid);
      HoldsCredentials(st.queue[e.sid], e.sid);
    }
    HoldsCredentials(st.queue[sid], sid);
  }

  lemma HoldsCredentials(box: Box, sid: nat)
    requires Holds(box, sid)
    ensures box.secret.Credentials?
  {
  }

  /** The issuer's confirmations grow by the credential of an acknowledging drain, and by nothing else. */
  lemma AcknowledgedByDrain(st: State, cfg: Settings, e: Event)
    requires Inv(st)
    ensures Step(st, cfg, e).acknowledged
            == st.acknowledged
               + if e.Drain? && e.acknowledges && e.sid in st.queue && st.queue[e.sid].secret.Credentials?
                 then {st.queue[e.sid].secret.refresh} else {}
  {
    hide Inv, Rows, RevokeAll, RenewLocked, LogoutIds, OfIdentity, Look;
    if Enabled(st, e) {
      RevokeKeepsAcknowledged(st);
      if e.LockedRenewal? {
        RenewKeepsAcknowledged(st, cfg, st.calls[e.call].cookie, e.newCookie, e.reply);
      } else if e.Drain? {
        QueueOpens(st, e.sid);
      }
    }
  }

  lemma RevokeKeepsAcknowledged(st: State)
    ensures forall ids :: RevokeAll(st, ids).acknowledged == st.acknowledged
  {
  }

  lemma RenewKeepsAcknowledged(st: State, cfg: Settings, cookie: nat, newCookie: nat, reply: Reply)
    ensures RenewLocked(st, cfg, cookie, newCookie, reply).0.acknowledged == st.acknowledged
  {
    hide Consult;
  }

  // ---------------------------------------------------------------- two runs

  const ACTIVE := Owner(1, true)

  /** A user logs in with credential 7 and cookie 1. */
  const LOGIN := Login(0, 0, 1, Reply(Granted(Grant(Some(7))), Verified), false, true)
  const LOGGED_IN := [SetOwner(0, ACTIVE), LOGIN]

  lemma LoggedIn(cfg: Settings)
    ensures Run(EMPTY, cfg, LOGGED_IN)
            == State(map[0 := Session(0, 1, Box(0, Credentials(0, 7, None)), 0, cfg.session, cfg.idle, cfg.access, None)],
                     map[1 := 0], map[], map[], map[0 := ACTIVE], 0, {1}, {}, map[])
  {
    assert LOGGED_IN[..1] == [SetOwner(0, ACTIVE)] && LOGGED_IN[..1][..0] == [];
    assert Run(EMPTY, cfg, [SetOwner(0, ACTIVE)]) == EMPTY.(owners := map[0 := ACTIVE]);
    assert LOGGED_IN == [SetOwner(0, ACTIVE)] + [LOGIN];
    RunOneMore(EMPTY, cfg, [SetOwner(0, ACTIVE)], LOGIN);
  }

  /** The issuer confirms and the commit is lost: the credential is acknowledged and still queued. */
  lemma AcknowledgedButQueued(cfg: Settings)
    requires cfg.session > 0 && cfg.idle > 0
    ensures var st := Run(EMPTY, cfg, LOGGED_IN + [Logout(1, false)] + [Drain(0, true, false)]);
            && 0 in st.queue && st.queue[0].secret == Credentials(0, 7, None) && 7 in st.acknowledged
  {
    LoggedIn(cfg);
    RunOneMore(EMPTY, cfg, LOGGED_IN, Logout(1, false));
    RunOneMore(EMPTY, cfg, LOGGED_IN + [Logout(1, false)], Drain(0, true, false));
    hide Run;
    var st := Run(EMPTY, cfg, LOGGED_IN);
    assert Look(st, 1) == Found(0);
    var out := Step(st, cfg, Logout(1, false));
    assert out.queue == map[0 := Box(0, Credentials(0, 7, None))];
  }

  const REFRESHING := [Begin(5, 1), CheckRetired(5), FirstLookup(5)]

  /** A refresh of a current cookie, up to its locked renewal, touches nothing but its own call. */
  lemma Refreshing(st: State, cfg: Settings)
    requires 5 !in st.calls && 1 !in st.retired && 1 in st.index
    ensures Run(st, cfg, REFRESHING) == st.(calls := st.calls[5 := Call(1, RowSeen)])
  {
    hide Step;
    var begun, checked := st.(calls := st.calls[5 := Call(1, Begun)]), st.(calls := st.calls[5 := Call(1, NotRetired)]);
    RefreshSteps(st, cfg, begun, checked);
    assert [] + [Begin(5, 1)] == [Begin(5, 1)];
    assert [Begin(5, 1)] + [CheckRetired(5)] == [Begin(5, 1), CheckRetired(5)];
    assert [Begin(5, 1), CheckRetired(5)] + [FirstLookup(5)] == REFRESHING;
    RunOneMore(st, cfg, [], Begin(5, 1));
    RunOneMore(st, cfg, [Begin(5, 1)], CheckRetired(5));
    RunOneMore(st, cfg, [Begin(5, 1), CheckRetired(5)], FirstLookup(5));
  }

  lemma RefreshSteps(st: State, cfg: Settings, begun: State, checked: State)
    requires 5 !in st.calls && 1 !in st.retired && 1 in st.index
    requires begun == st.(calls := st.calls[5 := Call(1, Begun)])
    requires checked == st.(calls := st.calls[5 := Call(1, NotRetired)])
    ensures Step(st, cfg, Begin(5, 1)) == begun && Step(begun, cfg, CheckRetired(5)) == checked
    ensures Step(checked, cfg, FirstLookup(5)) == st.(calls := st.calls[5 := Call(1, RowSeen)])
  {
    hide RevokeAll, RenewLocked, Look;
    assert begun.calls[5 := Call(1, NotRetired)] == checked.calls;
    assert checked.calls[5 := Call(1, RowSeen)] == st.calls[5 := Call(1, RowSeen)];
  }

  lemma RejectedRenewal(st: State, cfg: Settings)
    requires st.index == map[1 := 0] && st.sessions.Keys == {0} && st.queue == map[] && st.acknowledged == {}
    requires Look(st, 1) == Found(0) && st.sessions[0].box == Box(0, Credentials(0, 7, None))
    ensures var after := RenewLocked(st, cfg, 1, 2, Reply(Granted(Grant(Some(9))), CheckRejected)).0;
            && 0 in after.sessions && !Live(after, 0) && after.sessions[0].box.secret.Emptied?
            && after.queue == map[0 := Box(0, Credentials(0, 7, None))] && after.acknowledged == {}
  {
    hide RevokeAll;
    RevokedAlone(st);
  }

  lemma RevokedAlone(st: State)
    requires st.queue == map[] && st.sessions.Keys == {0} && Live(st, 0)
    ensures var after := RevokeAll(st, {0});
            && after.sessions == map[0 := Closed(st.sessions[0], 0, st.clock)]
            && after.queue == map[0 := st.sessions[0].box] && after.acknowledged == st.acknowledged
  {
  }

  /** A credential 9 that the issuer granted is nowhere once its verification was rejected. */
  lemma RejectedGrantIsLost(cfg: Settings)
    requires cfg.session > 0 && cfg.idle > 0
    ensures var reply := Reply(Granted(Grant(Some(9))), CheckRejected);
            var st := Run(EMPTY, cfg, LOGGED_IN + REFRESHING + [LockedRenewal(5, 2, reply, true)]);
            && 0 in st.sessions && !Live(st, 0) && st.sessions[0].box.secret.Emptied?
            && st.queue == map[0 := Box(0, Credentials(0, 7, None))] && 9 !in st.acknowledged
  {
    var e := LockedRenewal(5, 2, Reply(Granted(Grant(Some(9))), CheckRejected), true);
    hide Step, RenewLocked, Run, Inv, Look;
    var waiting := WaitingToRenew(cfg);
    RunOneMore(EMPTY, cfg, LOGGED_IN + REFRESHING, e);
    RejectedRenewal(waiting, cfg);
    RenewalQueue(waiting, cfg, e);
    AcknowledgedStays(waiting, cfg, e);
  }

  /** The run up to the locked renewal, and that the renewal consults the issuer. */
  lemma WaitingToRenew(cfg: Settings) returns (waiting: State)
    requires cfg.session > 0 && cfg.idle > 0
    ensures waiting == Run(EMPTY, cfg, LOGGED_IN + REFRESHING)
    ensures waiting == Run(EMPTY, cfg, LOGGED_IN).(calls := map[5 := Call(1, RowSeen)])
    ensures Inv(waiting) && Live(waiting, 0) && Look(waiting, 1) == Found(0) && Asks(waiting.sessions[0])
    ensures waiting.sessions.Keys == {0} && HoldsGrant(waiting.sessions[0], 7) && waiting.queue == map[] && waiting.acknowledged == {}
    ensures waiting.issued == {1} && waiting.index == map[1 := 0] && waiting.sessions[0].box == Box(0, Credentials(0, 7, None))
  {
    hide Step;
    LoggedIn(cfg);
    var st := Run(EMPTY, cfg, LOGGED_IN);
    RunConcat(EMPTY, cfg, LOGGED_IN, REFRESHING);
    Refreshing(st, cfg);
    waiting := Run(EMPTY, cfg, LOGGED_IN + REFRESHING);
    EmptyIsSound();
    RunKeepsInv(EMPTY, cfg, LOGGED_IN + REFRESHING);
    hide Run, Inv;
  }

  /**
   Two more ways to lose the granted credential 9, neither with a rejection: the transaction is lost
   after the issuer answered and verified, and the answer does not reach the service. The session
   stays live on the credential that the issuer may have replaced.
   */
  lemma LostGrants(cfg: Settings)
    requires cfg.session > 0 && cfg.idle > 0
    ensures var lostCommit := LockedRenewal(5, 2, Reply(Granted(Grant(Some(9))), Verified), false);
            var st := Run(EMPTY, cfg, LOGGED_IN + REFRESHING + [lostCommit]);
            Live(st, 0) && HoldsGrant(st.sessions[0], 7) && !InRow(st, 9) && !Retiring(st, 9)
    ensures var lostAnswer := LockedRenewal(5, 2, Reply(Unusable(Grant(Some(9))), Verified), true);
            var st := Run(EMPTY, cfg, LOGGED_IN + REFRESHING + [lostAnswer]);
            Live(st, 0) && HoldsGrant(st.sessions[0], 7) && !InRow(st, 9) && !Retiring(st, 9)
  {
    LostGrant(cfg, LockedRenewal(5, 2, Reply(Granted(Grant(Some(9))), Verified), false));
    LostGrant(cfg, LockedRenewal(5, 2, Reply(Unusable(Grant(Some(9))), Verified), true));
  }

  lemma LostGrant(cfg: Settings, e: Event)
    requires cfg.session > 0 && cfg.idle > 0
    requires e == LockedRenewal(5, 2, Reply(Granted(Grant(Some(9))), Verified), false)
             || e == LockedRenewal(5, 2, Reply(Unusable(Grant(Some(9))), Verified), true)
    ensures var st := Run(EMPTY, cfg, LOGGED_IN + REFRESHING + [e]);
            Live(st, 0) && HoldsGrant(st.sessions[0], 7) && !InRow(st, 9) && !Retiring(st, 9)
  {
    hide Inv, Run, Look;
    var waiting := WaitingToRenew(cfg);
    RunOneMore(EMPTY, cfg, LOGGED_IN + REFRESHING, e);
    assert forall s :: Live(waiting, s) ==> s == 0;
    assert Enabled(waiting, e) && NewGrant(waiting, e) == Some(9) && !Stores(waiting, e);
    assert !InRow(waiting, 9) && !Retiring(waiting, 9);
    GrantIsKeptExactly(waiting, cfg, e, 9);
    StaysOnOld(waiting, cfg, e);
    assert Live(Step(waiting, cfg, e), 0);
  }

  lemma StaysOnOld(st: State, cfg: Settings, e: Event)
    requires Enabled(st, e) && e.LockedRenewal? && (!e.commits || e.reply.grant.Unusable?)
    requires Look(st, st.calls[e.call].cookie).Found? && Asks(st.sessions[st.index[st.calls[e.call].cookie]])
    ensures Step(st, cfg, e).sessions == st.sessions
  {
  }

  /** A login whose identity is rejected loses its grant too, and so does one whose commit is lost. */
  lemma LoginLosesGrant(cfg: Settings, check: Check, commits: bool)
    requires !check.Verified? || !commits
    ensures var e := Login(0, 0, 1, Reply(Granted(Grant(Some(7))), check), false, commits);
            Run(EMPTY, cfg, [SetOwner(0, ACTIVE), e]) == Run(EMPTY, cfg, [SetOwner(0, ACTIVE)])
  {
    var e := Login(0, 0, 1, Reply(Granted(Grant(Some(7))), check), false, commits);
    assert [SetOwner(0, ACTIVE), e] == [SetOwner(0, ACTIVE)] + [e];
    RunOneMore(EMPTY, cfg, [SetOwner(0, ACTIVE)], e);
  }

  lemma AcknowledgedStays(st: State, cfg: Settings, e: Event)
    requires Enabled(st, e) && e.LockedRenewal?
    ensures Step(st, cfg, e).acknowledged == st.acknowledged
  {
    hide RenewLocked;
    RenewKeepsAcknowledged(st, cfg, st.calls[e.call].cookie, e.newCookie, e.reply);
  }
}
