/**
 What a cookie and a bearer are good for, and what login, renewal and logout leave behind, told by
 the columns of the session rows.
 */
module SessionLimits {
  import opened Wrappers
  import opened Sessions
  import opened RefreshRaces

  // ---------------------------------------------------------------- what is accepted

  /** The row is good now: not revoked, inside both limits, of an active owner. */
  ghost predicate Good(st: State, sid: nat) {
    && sid in st.sessions && st.sessions[sid].revokedAt == None
    && st.clock < st.sessions[sid].expiresAt && st.clock < st.sessions[sid].idleUntil
    && st.sessions[sid].identity in st.owners && st.owners[st.sessions[sid].identity].active
  }

  /** A cookie finds a session exactly when it is the current cookie of a row that is good. */
  lemma CookieExactly(st: State, cookie: nat, sid: nat)
    requires Inv(st)
    ensures Look(st, cookie) == Found(sid) <==> Good(st, sid) && st.sessions[sid].cookie == cookie
  {
    InvRows(st);
    hide Inv;
  }

  /** A bearer is accepted exactly when its row is good, of its generation and of its user. */
  lemma BearerExactly(st: State, b: Bearer)
    ensures Accepts(st, b) <==>
            && Good(st, b.sid) && st.sessions[b.sid].generation == b.version
            && st.owners[st.sessions[b.sid].identity].user == b.user
  {
  }

  // ---------------------------------------------------------------- what each transaction leaves

  /** The row as it is once revoked. */
  ghost predicate ClosedNow(before: State, after: State, sid: nat) {
    && sid in before.sessions && sid in after.sessions
    && after.sessions[sid] == before.sessions[sid].(revokedAt := Some(before.clock), box := Box(sid, Emptied))
  }

  /** Every session but `sid` keeps its row. */
  ghost predicate OthersStay(before: State, after: State, sid: nat) {
    forall o :: o in before.sessions && o != sid ==> o in after.sessions && after.sessions[o] == before.sessions[o]
  }

  /** The row after a rotation: a new cookie, a generation more, fresh limits that never pass `expiresAt`. */
  function Fresh(s: Session, sid: nat, cfg: Settings, newCookie: nat, refresh: nat, now: int): Session {
    s.(cookie := newCookie, generation := s.generation + 1,
       box := Box(sid, Credentials(s.generation + 1, refresh, None)),
       idleUntil := if s.expiresAt <= now + cfg.idle then s.expiresAt else now + cfg.idle,
       accessUntil := now + cfg.access)
  }

  /** The answer that a renewal works with: one still waiting, or the one it is given. */
  function Answer(secret: Secret, reply: Reply): Option<Grant>
    requires secret.Credentials?
  {
    match (secret.pending, reply.grant)
    case (Some(waiting), _) => Some(waiting)
    case (None, Granted(grant)) => Some(grant)
    case _ => None
  }

  function Credential(answer: Grant, secret: Secret): nat
    requires secret.Credentials?
  {
    match answer.refresh
    case Some(refresh) => refresh
    case None => secret.refresh
  }

  lemma FoundOpens(st: State, cookie: nat, sid: nat)
    requires Inv(st) && Look(st, cookie) == Found(sid)
    ensures sid in st.sessions && st.sessions[sid].box.lid == sid && st.sessions[sid].box.secret.Credentials?
    ensures st.sessions[sid].box.secret.generation == st.sessions[sid].generation
    ensures st.sessions[sid].cookie == cookie && cookie in st.index && st.index[cookie] == sid && sid !in st.queue
  {
    InvRows(st);
    FoundHolds(st, cookie);
    CookieExactly(st, cookie, sid);
    hide Inv;
  }

  /** How a committed renewal on a good cookie ends, and the row it leaves. */
  lemma RenewalExactly(st: State, cfg: Settings, e: Event, sid: nat)
    requires Inv(st) && Enabled(st, e) && e.LockedRenewal? && e.commits
    requires Good(st, sid) && st.sessions[sid].cookie == st.calls[e.call].cookie
    ensures var after, s := Step(st, cfg, e), st.sessions[sid];
            && s.box.secret.Credentials? && sid in after.sessions && OthersStay(st, after, sid)
            && e.call in after.calls && after.calls[e.call].phase.Done?
            && var answer, result := Answer(s.box.secret, e.reply), after.calls[e.call].phase.result;
            if answer == None then
              if e.reply.grant == GrantRejected then result == Rejected && ClosedNow(st, after, sid)
              else result == Unavailable && after.sessions[sid] == s
            else if e.reply.check == Verified then
              && result == Rotated(e.newCookie)
              && after.sessions[sid] == Fresh(s, sid, cfg, e.newCookie, Credential(answer.value, s.box.secret), st.clock)
              && after.retired == st.retired[s.cookie := sid]
            else if e.reply.check == CheckUnavailable then
              && result == Unavailable
              && after.sessions[sid]
                 == s.(box := Box(sid, Credentials(s.generation, Credential(answer.value, s.box.secret), answer)))
            else
              result == Rejected && ClosedNow(st, after, sid)
  {
    hide Inv, Look, Step, Rotate, Keep, RevokeAll, Settle, ClosedNow, OthersStay, Fresh, Answer, Credential;
    var cookie := st.calls[e.call].cookie;
    CookieExactly(st, cookie, sid);
    FoundOpens(st, cookie, sid);
    LookedUp(st, cfg, e, sid);
    Settled(st, cfg, sid, cookie, e.newCookie, e.reply);
    SameRows(st, Settle(st, cfg, sid, cookie, e.newCookie, st.sessions[sid].box.secret, e.reply).0, Step(st, cfg, e), sid);
  }

  lemma SameRows(st: State, a: State, b: State, sid: nat)
    requires a.sessions == b.sessions
    ensures OthersStay(st, a, sid) <==> OthersStay(st, b, sid)
    ensures ClosedNow(st, a, sid) <==> ClosedNow(st, b, sid)
  {
  }

  /** The step on a found cookie is the settlement of its row. */
  lemma LookedUp(st: State, cfg: Settings, e: Event, sid: nat)
    requires Enabled(st, e) && e.LockedRenewal? && e.commits && Look(st, st.calls[e.call].cookie) == Found(sid)
    requires sid in st.sessions && st.sessions[sid].box.lid == sid && st.sessions[sid].box.secret.Credentials?
    ensures var cookie := st.calls[e.call].cookie;
            var (mid, result) := Settle(st, cfg, sid, cookie, e.newCookie, st.sessions[sid].box.secret, e.reply);
            var after := Step(st, cfg, e);
            && after.sessions == mid.sessions && after.retired == mid.retired && e.call in after.calls
            && after.calls[e.call].phase == Done(result)
  {
    hide Settle, Look;
    RenewalRetires(st, cfg, st.calls[e.call].cookie, e.newCookie, e.reply);
  }

  lemma Settled(st: State, cfg: Settings, sid: nat, cookie: nat, newCookie: nat, reply: Reply)
    requires sid in st.sessions && st.sessions[sid].revokedAt == None && st.sessions[sid].box.lid == sid
    requires st.sessions[sid].box.secret.Credentials? && st.sessions[sid].cookie == cookie
    requires st.sessions[sid].box.secret.generation == st.sessions[sid].generation
    ensures var s := st.sessions[sid];
            var (after, result) := Settle(st, cfg, sid, cookie, newCookie, s.box.secret, reply);
            var answer := Answer(s.box.secret, reply);
            && sid in after.sessions && OthersStay(st, after, sid)
            && if answer == None then
                 if reply.grant == GrantRejected then result == Rejected && ClosedNow(st, after, sid)
                 else result == Unavailable && after.sessions[sid] == s
               else if reply.check == Verified then
                 && result == Rotated(newCookie) && after.retired == st.retired[cookie := sid]
                 && after.sessions[sid] == Fresh(s, sid, cfg, newCookie, Credential(answer.value, s.box.secret), st.clock)
               else if reply.check == CheckUnavailable then
                 && result == Unavailable
                 && after.sessions[sid]
                    == s.(box := Box(sid, Credentials(s.generation, Credential(answer.value, s.box.secret), answer)))
               else
                 result == Rejected && ClosedNow(st, after, sid)
  {
  }

  /** The cookie is current and inside its limits, but its owner is not active. */
  ghost predicate OwnerGone(st: State, cookie: nat) {
    exists sid ::
      && sid in st.sessions && st.sessions[sid].cookie == cookie && st.sessions[sid].revokedAt == None
      && st.clock < st.sessions[sid].expiresAt && st.clock < st.sessions[sid].idleUntil
      && !(st.sessions[sid].identity in st.owners && st.owners[st.sessions[sid].identity].active)
  }

  /** Any other renewal leaves every row alone, and says why only where a row stands for the cookie. */
  lemma OtherRenewals(st: State, cfg: Settings, e: Event)
    requires Inv(st) && Enabled(st, e) && e.LockedRenewal?
    requires !e.commits || forall sid :: Good(st, sid) ==> st.sessions[sid].cookie != st.calls[e.call].cookie
    ensures var after := Step(st, cfg, e);
            && after.sessions == st.sessions && after.queue == st.queue && after.retired == st.retired
            && e.call in after.calls
            && (e.commits ==>
                  after.calls[e.call].phase == if OwnerGone(st, st.calls[e.call].cookie) then Done(Inactive) else Missed)
  {
    hide Inv, Look, Good, OwnerGone, Step;
    var cookie := st.calls[e.call].cookie;
    if e.commits {
      forall sid ensures Look(st, cookie) != Found(sid) {
        CookieExactly(st, cookie, sid);
      }
      GoneExactly(st, cookie);
    }
    IdleRenewal(st, cfg, e);
  }

  lemma GoneExactly(st: State, cookie: nat)
    requires Inv(st)
    ensures Look(st, cookie).NotActive? <==> OwnerGone(st, cookie)
  {
    InvRows(st);
    hide Inv;
  }

  lemma IdleRenewal(st: State, cfg: Settings, e: Event)
    requires Enabled(st, e) && e.LockedRenewal? && (!e.commits || !Look(st, st.calls[e.call].cookie).Found?)
    ensures var after := Step(st, cfg, e);
            && after.sessions == st.sessions && after.queue == st.queue && after.retired == st.retired
            && e.call in after.calls
            && (e.commits ==>
                  after.calls[e.call].phase == if Look(st, st.calls[e.call].cookie).NotActive? then Done(Inactive) else Missed)
  {
    hide Look, Settle;
    var cookie := st.calls[e.call].cookie;
    assert e.commits ==> RenewLocked(st, cfg, cookie, e.newCookie, e.reply) == (st, if Look(st, cookie).NotActive? then Some(Inactive) else None);
    hide RenewLocked;
  }

  /** The lookups of a call, one by one. */
  lemma LookupsExactly(st: State, cfg: Settings, e: Event)
    requires Inv(st) && Enabled(st, e) && (e.CheckRetired? || e.FirstLookup? || e.Recheck?)
    ensures var after := Step(st, cfg, e); var cookie := st.calls[e.call].cookie;
            && e.call in after.calls && after.calls[e.call].cookie == cookie
            && after.calls[e.call].phase
               == match e
                  case CheckRetired(_) => if cookie in st.retired then Done(Reused) else NotRetired
                  case FirstLookup(_) => if exists s :: s in st.sessions && st.sessions[s].cookie == cookie then RowSeen else Missed
                  case Recheck(_) => if cookie in st.retired then Done(Reused) else Done(Expired)
  {
    hide RevokeAll;
    RevokeKeepsCalls(st);
  }

  /** A renewed cookie is good at once, for as long as the settings say, and so is its bearer. */
  lemma RenewalIsUsable(st: State, cfg: Settings, e: Event, sid: nat)
    requires Inv(st) && Enabled(st, e) && e.LockedRenewal? && e.commits && cfg.idle > 0
    requires Good(st, sid) && st.sessions[sid].cookie == st.calls[e.call].cookie
    requires Answer(st.sessions[sid].box.secret, e.reply) != None && e.reply.check == Verified
    ensures var after := Step(st, cfg, e);
            && Look(after, e.newCookie) == Found(sid)
            && Accepts(after, Bearer(sid, st.sessions[sid].generation + 1, st.owners[st.sessions[sid].identity].user))
  {
    RenewalExactly(st, cfg, e, sid);
    StepKeepsInv(st, cfg, e);
    RenewalKeepsOwners(st, cfg, e);
    hide Inv, Step, Enabled;
    var after := Step(st, cfg, e);
    CookieExactly(after, e.newCookie, sid);
    BearerExactly(after, Bearer(sid, st.sessions[sid].generation + 1, st.owners[st.sessions[sid].identity].user));
  }

  lemma RenewalKeepsOwners(st: State, cfg: Settings, e: Event)
    requires Enabled(st, e) && e.LockedRenewal?
    ensures Step(st, cfg, e).owners == st.owners && Step(st, cfg, e).clock == st.clock
  {
    hide RenewLocked;
    SettlementKeepsOwners(st, cfg, st.calls[e.call].cookie, e.newCookie, e.reply);
  }

  lemma SettlementKeepsOwners(st: State, cfg: Settings, cookie: nat, newCookie: nat, reply: Reply)
    ensures var after := RenewLocked(st, cfg, cookie, newCookie, reply).0; after.owners == st.owners && after.clock == st.clock
  {
    hide Consult, Look;
  }

  /** Every session of `chosen` that was not revoked is revoked now, and every other row stays. */
  ghost predicate Ends(before: State, after: State, chosen: nat -> bool) {
    forall o :: o in before.sessions ==>
      && o in after.sessions
      && if chosen(o) && before.sessions[o].revokedAt == None then ClosedNow(before, after, o)
         else after.sessions[o] == before.sessions[o]
  }

  /** A login leaves one new row with the limits of the settings, or nothing at all; recovery ends the identity's other sessions. */
  lemma LoginExactly(st: State, cfg: Settings, e: Event)
    requires Enabled(st, e) && e.Login?
    ensures var after := Step(st, cfg, e);
            if e.commits && e.reply.check == Verified && e.reply.grant.Granted? && e.reply.grant.grant.refresh != None
               && e.identity in st.owners && st.owners[e.identity].active
            then
              && after.sessions.Keys == st.sessions.Keys + {e.sid} && after.owners == st.owners && after.clock == st.clock
              && after.sessions[e.sid] == Session(e.identity, e.newCookie, Box(e.sid, Credentials(0, e.reply.grant.grant.refresh.value, None)), 0,
                                                  st.clock + cfg.session, st.clock + cfg.idle, st.clock + cfg.access, None)
              && Ends(st, after, o => e.recover && o in st.sessions && st.sessions[o].identity == e.identity)
            else
              after == st
  {
  }

  /** An admitted login is good at once. */
  lemma LoginIsUsable(st: State, cfg: Settings, e: Event)
    requires Inv(st) && Enabled(st, e) && e.Login? && cfg.idle > 0 && cfg.session > 0
    requires e.commits && e.reply.check == Verified && e.reply.grant.Granted? && e.reply.grant.grant.refresh != None
    requires e.identity in st.owners && st.owners[e.identity].active
    ensures var after := Step(st, cfg, e);
            Look(after, e.newCookie) == Found(e.sid) && Accepts(after, Bearer(e.sid, 0, st.owners[e.identity].user))
  {
    LoginExactly(st, cfg, e);
    StepKeepsInv(st, cfg, e);
    hide Inv, Step, Enabled;
    CookieExactly(Step(st, cfg, e), e.newCookie, e.sid);
    BearerExactly(Step(st, cfg, e), Bearer(e.sid, 0, st.owners[e.identity].user));
  }

  ghost predicate LogsOut(before: State, after: State, sid: nat, everywhere: bool)
    requires sid in before.sessions
  {
    Ends(before, after, o => if everywhere then o in before.sessions && before.sessions[o].identity == before.sessions[sid].identity
                             else o == sid)
  }

  /** A logout ends the cookie's own session, or every session of its identity, and no other. */
  lemma LogoutExactly(st: State, cfg: Settings, e: Event, sid: nat)
    requires Inv(st) && e.Logout? && Good(st, sid) && st.sessions[sid].cookie == e.cookie
    ensures LogsOut(st, Step(st, cfg, e), sid, e.everywhere)
  {
    hide Inv, Look, Good, RevokeAll, LogoutIds, LogsOut;
    RevokedOut(st, e.cookie, sid, e.everywhere);
  }

  lemma RevokedOut(st: State, cookie: nat, sid: nat, everywhere: bool)
    requires Inv(st) && Good(st, sid) && st.sessions[sid].cookie == cookie
    ensures Look(st, cookie) == Found(sid) && LogsOut(st, RevokeAll(st, LogoutIds(st, cookie, everywhere)), sid, everywhere)
  {
    hide Inv, Look, Good, RevokeAll;
    CookieExactly(st, cookie, sid);
    FoundOpens(st, cookie, sid);
    var ids := LogoutIds(st, cookie, everywhere);
    EndsExactly(st, ids);
    assert forall o :: o in st.sessions ==>
             (o in ids <==> if everywhere then st.sessions[o].identity == st.sessions[sid].identity else o == sid);
    hide LogoutIds, ClosedNow;
  }

  lemma EndsExactly(st: State, ids: set<nat>)
    ensures Ends(st, RevokeAll(st, ids), o => o in ids)
  {
  }

  /** A retired cookie ends the session it once belonged to, and no other; expiry ends those it is given. */
  lemma ReuseExactly(st: State, cfg: Settings, e: Event)
    requires Enabled(st, e) && (e.CheckRetired? || e.Recheck? || e.Expire?)
    ensures Ends(st, Step(st, cfg, e),
                 o => if e.Expire? then o in e.ids
                      else e.call in st.calls && st.calls[e.call].cookie in st.retired && o == st.retired[st.calls[e.call].cookie])
    ensures e.Expire? ==> forall s :: s in e.ids ==>
              && s in st.sessions && st.sessions[s].revokedAt == None
              && (st.sessions[s].expiresAt <= st.clock || st.sessions[s].idleUntil <= st.clock)
  {
  }

  // ---------------------------------------------------------------- how long it stays accepted

  lemma RetiresOld(st: State, cfg: Settings, e: Event, s: nat)
    requires Inv(st) && s in st.sessions
    ensures var after := Step(st, cfg, e);
            && s in after.sessions
            && (after.sessions[s].generation == st.sessions[s].generation || st.sessions[s].cookie in after.retired)
  {
    hide Step, RevokeAll, RenewLocked, Revoked, DrainOne, Limited, Rows, OneWinner;
    if !Enabled(st, e) {
      DisabledStep(st, cfg, e);
    } else if e.LockedRenewal? {
      RenewalRetiresOld(st, cfg, e, s);
    } else if e.Drain? {
      DrainKeepsSessions(st, cfg, e);
    } else {
      StepTables(st, cfg, e);
      RevokeLimits(st, Revoked(st, e), cfg, s);
      FreshLogin(st, e, s);
    }
  }

  lemma RenewalRetiresOld(st: State, cfg: Settings, e: Event, s: nat)
    requires Inv(st) && s in st.sessions && Enabled(st, e) && e.LockedRenewal?
    ensures var after := Step(st, cfg, e);
            && s in after.sessions
            && (after.sessions[s].generation == st.sessions[s].generation || st.sessions[s].cookie in after.retired)
  {
    var cookie := st.calls[e.call].cookie;
    hide Inv, Limited, Fresh, Answer, Credential, RenewLocked;
    if e.commits && Look(st, cookie).Found? {
      var sid := Look(st, cookie).sid;
      CookieExactly(st, cookie, sid);
      RenewalExactly(st, cfg, e, sid);
      hide Step, Enabled, Look;
      FreshGeneration(st.sessions[s], cfg);
    } else {
      NothingRotates(st, cfg, e);
    }
  }

  lemma FreshGeneration(s: Session, cfg: Settings)
    ensures forall sid, cookie, refresh, now :: Fresh(s, sid, cfg, cookie, refresh, now).generation == s.generation + 1
  {
  }

  lemma NothingRotates(st: State, cfg: Settings, e: Event)
    requires Enabled(st, e) && e.LockedRenewal? && (!e.commits || !Look(st, st.calls[e.call].cookie).Found?)
    ensures Step(st, cfg, e).sessions == st.sessions
  {
    hide Settle;
  }

  /** While the generation stands the row keeps its cookie; once it moves, that cookie is retired for good. */
  lemma {:induction false} OldCookieRetires(st: State, cfg: Settings, events: seq<Event>, s: nat)
    requires Inv(st) && s in st.sessions
    ensures var after := Run(st, cfg, events);
            && s in after.sessions
            && (after.sessions[s].generation == st.sessions[s].generation || st.sessions[s].cookie in after.retired)
  {
    if events != [] {
      hide Step, Inv, Limited, Current, Later, Aged;
      var n := |events| - 1;
      var before := Run(st, cfg, events[..n]);
      OldCookieRetires(st, cfg, events[..n], s);
      RunKeepsInv(st, cfg, events[..n]);
      OnlyRotationExtends(st, cfg, events[..n], s);
      if before.sessions[s].generation == st.sessions[s].generation {
        SameCookie(st, before, cfg, s);
      }
      RetiresOld(before, cfg, events[n], s);
      InvRows(before);
      StepIsLater(before, cfg, events[n]);
      RetiredStays(before, Step(before, cfg, events[n]));
    }
  }

  lemma SameCookie(st: State, after: State, cfg: Settings, s: nat)
    requires s in st.sessions && s in after.sessions && Limited(st.sessions[s], after.sessions[s], cfg, after.clock)
    requires after.sessions[s].generation == st.sessions[s].generation
    ensures after.sessions[s].cookie == st.sessions[s].cookie && after.sessions[s].idleUntil == st.sessions[s].idleUntil
  {
  }

  lemma RetiredStays(a: State, b: State)
    requires Later(a, b)
    ensures a.retired.Keys <= b.retired.Keys
    ensures forall s :: s in a.sessions ==> s in b.sessions && b.sessions[s].expiresAt == a.sessions[s].expiresAt
                                            && b.sessions[s].identity == a.sessions[s].identity
  {
  }

  /**
   Over every run a cookie that finds its session goes on doing so exactly until the session is
   renewed or revoked, the clock reaches a limit of the row as it was, or the owner is not active.
   */
  lemma AcceptedUntil(st: State, cfg: Settings, events: seq<Event>, sid: nat)
    requires Inv(st) && Good(st, sid)
    ensures var after, s := Run(st, cfg, events), st.sessions[sid];
            && sid in after.sessions
            && (Look(after, s.cookie) == Found(sid) <==>
                  && after.sessions[sid].generation == s.generation && after.sessions[sid].revokedAt == None
                  && after.clock < s.expiresAt && after.clock < s.idleUntil
                  && s.identity in after.owners && after.owners[s.identity].active)
            && forall user :: Accepts(after, Bearer(sid, s.generation, user)) <==>
                 Look(after, s.cookie) == Found(sid) && after.owners[s.identity].user == user
  {
    var after, s := Run(st, cfg, events), st.sessions[sid];
    RunKeepsInv(st, cfg, events);
    RunIsLater(st, cfg, events);
    OnlyRotationExtends(st, cfg, events, sid);
    OldCookieRetires(st, cfg, events, sid);
    RetiredStays(st, after);
    InvRows(after);
    RetiredIsNotCurrent(after, s.cookie);
    CookieExactly(after, s.cookie, sid);
    if after.sessions[sid].generation == s.generation {
      SameCookie(st, after, cfg, sid);
    }
    forall user
      ensures Accepts(after, Bearer(sid, s.generation, user))
              <==> Good(after, sid) && after.sessions[sid].generation == s.generation && after.owners[s.identity].user == user
    {
      BearerExactly(after, Bearer(sid, s.generation, user));
    }
    hide Run, Inv, Rows, Look, Accepts, Limited, Later;
  }
}
