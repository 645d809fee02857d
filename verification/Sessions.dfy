/**
 Browser sessions: every transaction of the identity service as one step over the session, retired
 cookie and revocation tables, with concurrent refresh calls split where other transactions can
 fall between their statements. Cookies are fresh random values, so hashes are the cookies
 themselves; sealing is a box that opens under its own label only; the issuer answers as it likes.
 */
module Sessions {
  import opened Wrappers

  // ---------------------------------------------------------------- rows

  /** A token response: the issuer may or may not rotate the refresh credential. */
  datatype Grant = Grant(refresh: Option<nat>)

  datatype Secret =
    | Emptied
    | Credentials(generation: nat, refresh: nat, pending: Option<Grant>)

  datatype Box = Box(lid: nat, secret: Secret)

  function Open(box: Box, lid: nat): Option<Secret> {
    if box.lid == lid then Some(box.secret) else None
  }

  datatype Session = Session(
    identity: nat, cookie: nat, box: Box, generation: nat,
    expiresAt: int, idleUntil: int, accessUntil: int, revokedAt: Option<int>)

  datatype Owner = Owner(user: nat, active: bool)

  /** Where one `refresh` call stands, and how it ended. */
  datatype Phase =
    | Begun
    | NotRetired
    | RowSeen
    | Missed
    | Done(result: Result)

  /** `Crashed` is any failure of the transaction itself: an unforeseen exception or a lost commit. */
  datatype Result = Rotated(cookie: nat) | Reused | Expired | Inactive | Unavailable | Rejected | Crashed

  datatype Call = Call(cookie: nat, phase: Phase)

  datatype Settings = Settings(session: nat, idle: nat, access: nat)

  /**
   `index` is the unique index on the current cookie. `issued` are the cookies handed out so far and
   `acknowledged` the refresh credentials whose revocation the issuer confirmed.
   */
  datatype State = State(
    sessions: map<nat, Session>, index: map<nat, nat>, retired: map<nat, nat>, queue: map<nat, Box>,
    owners: map<nat, Owner>, clock: int, issued: set<nat>, acknowledged: set<nat>, calls: map<nat, Call>)

  // ---------------------------------------------------------------- what the statements do

  function Min(a: int, b: int): int {
    if a < b then a else b
  }

  predicate Live(st: State, sid: nat) {
    sid in st.sessions && st.sessions[sid].revokedAt.None?
  }

  /** Not revoked and inside both limits. */
  predicate Current(st: State, sid: nat) {
    Live(st, sid) && st.clock < Min(st.sessions[sid].expiresAt, st.sessions[sid].idleUntil)
  }

  predicate OwnerActive(st: State, sid: nat) {
    sid in st.sessions && st.sessions[sid].identity in st.owners && st.owners[st.sessions[sid].identity].active
  }

  function Closed(s: Session, sid: nat, now: int): Session {
    s.(revokedAt := Some(now), box := Box(sid, Emptied))
  }

  /** `_revoke` on each of `ids`: a session already revoked, or already queued, is left as it is. */
  function RevokeAll(st: State, ids: set<nat>): State {
    st.(sessions := map s | s in st.sessions ::
          if s in ids && Live(st, s) then Closed(st.sessions[s], s, st.clock) else st.sessions[s],
        queue := st.queue + map s | s in st.sessions && s in ids && Live(st, s) && s !in st.queue :: st.sessions[s].box)
  }

  datatype Lookup = Found(sid: nat) | NoSession | NotActive

  /** The final checks of `_lookup`. */
  function Look(st: State, cookie: nat): Lookup {
    if cookie !in st.index || !Current(st, st.index[cookie]) then NoSession
    else if !OwnerActive(st, st.index[cookie]) then NotActive
    else Found(st.index[cookie])
  }

  /**
   The answer to a token request. `Unusable` is a grant that the service never gets to use: the
   response was lost on the way, or is not a bearer response with an identity token.
   */
  datatype GrantReply = Granted(grant: Grant) | Unusable(grant: Grant) | GrantUnavailable | GrantRejected

  datatype Check = Verified | CheckUnavailable | CheckRejected

  /** What the issuer would answer to the token request and to the verification of the identity. */
  datatype Reply = Reply(grant: GrantReply, check: Check)

  datatype Renewal = Renewed(tokens: Grant) | Deferred(kept: Option<Grant>) | Refused

  /** The issuer calls of `_renew`: a pending grant is verified again, never requested again. */
  function Consult(secret: Secret, reply: Reply): Renewal
    requires secret.Credentials?
  {
    var tokens :=
      if secret.pending.Some? then secret.pending
      else if reply.grant.Granted? then Some(reply.grant.grant)
      else None;
    if tokens.None? then
      if reply.grant.GrantRejected? then Refused else Deferred(None)
    else
      match reply.check
      case Verified => Renewed(tokens.value)
      case CheckUnavailable => Deferred(tokens)
      case CheckRejected => Refused
  }

  function Refresh(tokens: Grant, secret: Secret): nat
    requires secret.Credentials?
  {
    if tokens.refresh.Some? then tokens.refresh.value else secret.refresh
  }

  /** A successful rotation of session `sid` from `cookie` to `newCookie`. */
  function Rotate(st: State, cfg: Settings, sid: nat, cookie: nat, newCookie: nat, secret: Secret, tokens: Grant): State
    requires sid in st.sessions && secret.Credentials?
  {
    var s := st.sessions[sid];
    st.(sessions := st.sessions[sid := s.(
          cookie := newCookie,
          box := Box(sid, Credentials(s.generation + 1, Refresh(tokens, secret), None)),
          generation := s.generation + 1,
          idleUntil := Min(s.expiresAt, st.clock + cfg.idle),
          accessUntil := st.clock + cfg.access)],
        index := (st.index - {cookie})[newCookie := sid],
        retired := st.retired[cookie := sid],
        issued := st.issued + {newCookie})
  }

  /** A 503 after a grant keeps the response sealed, without authorizing it. */
  function Keep(st: State, sid: nat, secret: Secret, tokens: Option<Grant>): State
    requires sid in st.sessions && secret.Credentials?
  {
    if tokens.None? then
      st
    else
      var kept := secret.(pending := tokens, refresh := Refresh(tokens.value, secret));
      st.(sessions := st.sessions[sid := st.sessions[sid].(box := Box(sid, kept))])
  }

  /** What `_renew` commits once the locked row is known to be valid. */
  function Settle(st: State, cfg: Settings, sid: nat, cookie: nat, newCookie: nat, secret: Secret, reply: Reply): (State, Result)
    requires sid in st.sessions && secret.Credentials?
  {
    match Consult(secret, reply)
    case Renewed(tokens) => (Rotate(st, cfg, sid, cookie, newCookie, secret, tokens), Rotated(newCookie))
    case Deferred(kept) => (Keep(st, sid, secret, kept), Unavailable)
    case Refused => (RevokeAll(st, {sid}), Rejected)
  }

  /** The locked half of `_renew`: re-lookup, issuer, commit. No result means `session_expired`. */
  function RenewLocked(st: State, cfg: Settings, cookie: nat, newCookie: nat, reply: Reply): (r: (State, Option<Result>)) {
    match Look(st, cookie)
    case NoSession => (st, None)
    case NotActive => (st, Some(Inactive))
    case Found(sid) =>
      var content := Open(st.sessions[sid].box, sid);
      if content.None? || content.value.Emptied? then
        (st, Some(Unavailable))
      else
        var (after, result) := Settle(st, cfg, sid, cookie, newCookie, content.value, reply);
        (after, Some(result))
  }

  // ---------------------------------------------------------------- steps

  datatype Event =
    | Tick(to: int)
    | SetOwner(identity: nat, owner: Owner)
    | Login(sid: nat, identity: nat, newCookie: nat, reply: Reply, recover: bool, commits: bool)
    | Begin(call: nat, cookie: nat)
    | CheckRetired(call: nat)
    | FirstLookup(call: nat)
    | LockedRenewal(call: nat, newCookie: nat, reply: Reply, commits: bool)
    | Recheck(call: nat)
    | Abandon(call: nat)
    | Logout(cookie: nat, everywhere: bool)
    | Expire(ids: set<nat>)
    | Drain(sid: nat, acknowledges: bool, commits: bool)

  function OfIdentity(st: State, identity: nat): set<nat> {
    set s | s in st.sessions && st.sessions[s].identity == identity
  }

  function LogoutIds(st: State, cookie: nat, everywhere: bool): set<nat>
    requires Look(st, cookie).Found?
  {
    var sid := st.index[cookie];
    if everywhere then OfIdentity(st, st.sessions[sid].identity) else {sid}
  }

  function At(st: State, call: nat, phase: Phase): State
    requires call in st.calls
  {
    st.(calls := st.calls[call := st.calls[call].(phase := phase)])
  }

  predicate Waiting(st: State, call: nat, phase: Phase) {
    call in st.calls && st.calls[call].phase == phase
  }

  /** When a step can be taken: program order inside a call, fresh identifiers, a clock that advances. */
  predicate Enabled(st: State, e: Event) {
    match e
    case Tick(to) => st.clock <= to
    case SetOwner(_, _) => true
    case Login(sid, _, newCookie, _, _, _) => sid !in st.sessions && newCookie !in st.issued
    case Begin(call, _) => call !in st.calls
    case CheckRetired(call) => Waiting(st, call, Begun)
    case FirstLookup(call) => Waiting(st, call, NotRetired)
    case LockedRenewal(call, newCookie, _, _) => Waiting(st, call, RowSeen) && newCookie !in st.issued
    case Recheck(call) => Waiting(st, call, Missed)
    case Abandon(call) => call in st.calls && !st.calls[call].phase.Done?
    case Logout(cookie, _) => Look(st, cookie).Found?
    case Expire(ids) => forall s :: s in ids ==> Live(st, s) && !Current(st, s)
    case Drain(sid, _, _) => sid in st.queue
  }

  /** The retired-cookie branch: replay of an old cookie revokes its whole session. */
  function CatchReuse(st: State, call: nat, otherwise: Phase): State
    requires call in st.calls
  {
    var cookie := st.calls[call].cookie;
    if cookie in st.retired
    then At(RevokeAll(st, {st.retired[cookie]}), call, Done(Reused))
    else At(st, call, otherwise)
  }

  /** The issuer revokes first; the row goes only if it confirmed and the transaction committed. */
  function DrainOne(st: State, sid: nat, acknowledges: bool, commits: bool): State
    requires sid in st.queue
  {
    var content := Open(st.queue[sid], sid);
    if content.None? || content.value.Emptied? || !acknowledges then
      st
    else
      var told := st.(acknowledged := st.acknowledged + {content.value.refresh});
      if commits then told.(queue := told.queue - {sid}) else told
  }

  /**
   `callback` stores a session only if the issuer's answer is usable and carries a refresh credential,
   the identity is verified and provisioned for an active owner, and the transaction commits.
   */
  predicate Admits(st: State, identity: nat, reply: Reply, commits: bool) {
    && reply.grant.Granted? && reply.grant.grant.refresh.Some? && reply.check.Verified?
    && identity in st.owners && st.owners[identity].active && commits
  }

  function Admit(st: State, cfg: Settings, sid: nat, identity: nat, newCookie: nat, refresh: nat, recover: bool): State {
    var base := if recover then RevokeAll(st, OfIdentity(st, identity)) else st;
    base.(sessions := base.sessions[sid := Session(
            identity, newCookie, Box(sid, Credentials(0, refresh, None)), 0,
            st.clock + cfg.session, st.clock + cfg.idle, st.clock + cfg.access, None)],
          index := base.index[newCookie := sid], issued := base.issued + {newCookie})
  }

  function Step(st: State, cfg: Settings, e: Event): State {
    if !Enabled(st, e) then
      st
    else
      match e
      case Tick(to) => st.(clock := to)
      case SetOwner(identity, owner) => st.(owners := st.owners[identity := owner])
      case Login(sid, identity, newCookie, reply, recover, commits) =>
        if Admits(st, identity, reply, commits)
        then Admit(st, cfg, sid, identity, newCookie, reply.grant.grant.refresh.value, recover) else st
      case Begin(call, cookie) => st.(calls := st.calls[call := Call(cookie, Begun)])
      case CheckRetired(call) => CatchReuse(st, call, NotRetired)
      case FirstLookup(call) => At(st, call, if st.calls[call].cookie in st.index then RowSeen else Missed)
      case LockedRenewal(call, newCookie, reply, commits) =>
        var (after, result) := RenewLocked(st, cfg, st.calls[call].cookie, newCookie, reply);
        if result.None? then At(st, call, Missed)
        else if commits then At(after, call, Done(result.value))
        else At(st, call, Done(Crashed))
      case Recheck(call) => CatchReuse(st, call, Done(Expired))
      case Abandon(call) => st.(calls := st.calls - {call})
      case Logout(cookie, everywhere) => RevokeAll(st, LogoutIds(st, cookie, everywhere))
      case Expire(ids) => RevokeAll(st, ids)
      case Drain(sid, acknowledges, commits) => DrainOne(st, sid, acknowledges, commits)
  }

  function Run(st: State, cfg: Settings, events: seq<Event>): State {
    if events == [] then st
    else Step(Run(st, cfg, events[..|events| - 1]), cfg, events[|events| - 1])
  }

  const EMPTY := State(map[], map[], map[], map[], map[], 0, {}, {}, map[])

  // ---------------------------------------------------------------- invariants

  /** The unique index names each session's current cookie, and nothing else. */
  ghost predicate Indexed(st: State) {
    && (forall c :: c in st.index ==> st.index[c] in st.sessions && st.sessions[st.index[c]].cookie == c)
    && (forall s :: s in st.sessions ==> st.sessions[s].cookie in st.index && st.index[st.sessions[s].cookie] == s)
  }

  /** Current and retired cookies are disjoint, and both were issued by the service. */
  ghost predicate CookiesApart(st: State) {
    && st.index.Keys !! st.retired.Keys
    && st.index.Keys <= st.issued && st.retired.Keys <= st.issued
    && (forall c :: c in st.retired ==> st.retired[c] in st.sessions)
  }

  function RetiredOf(st: State, sid: nat): set<nat> {
    set c | c in st.retired && st.retired[c] == sid
  }

  ghost predicate Counted(st: State) {
    forall s :: s in st.sessions ==> st.sessions[s].generation == |RetiredOf(st, s)|
  }

  ghost predicate Holds(box: Box, sid: nat) {
    var content := Open(box, sid);
    content.Some? && content.value.Credentials?
  }

  ghost predicate HoldsFor(box: Box, sid: nat, generation: nat) {
    Holds(box, sid) && box.secret.generation == generation
  }

  /** Exactly one place: the live row, or the queue of a revoked session, which drain can open. */
  ghost predicate Custody(st: State) {
    && (forall s :: s in st.sessions ==>
          if Live(st, s)
          then s !in st.queue && HoldsFor(st.sessions[s].box, s, st.sessions[s].generation)
          else st.sessions[s].box == Box(s, Emptied))
    && (forall s :: s in st.queue ==> s in st.sessions && Holds(st.queue[s], s))
  }

  predicate Won(st: State, call: nat) {
    call in st.calls && st.calls[call].phase.Done? && st.calls[call].phase.result.Rotated?
  }

  ghost predicate OneWinner(st: State) {
    && (forall i :: Won(st, i) ==> st.calls[i].cookie in st.retired)
    && (forall i, j :: Won(st, i) && Won(st, j) && st.calls[i].cookie == st.calls[j].cookie ==> i == j)
  }

  /** What the tables always satisfy. */
  ghost predicate Rows(st: State) {
    Indexed(st) && CookiesApart(st) && Counted(st) && Custody(st)
  }

  ghost predicate Inv(st: State) {
    Rows(st) && OneWinner(st)
  }

  lemma RevokeKeepsIndex(st: State, ids: set<nat>)
    requires Indexed(st) && CookiesApart(st)
    ensures Indexed(RevokeAll(st, ids)) && CookiesApart(RevokeAll(st, ids))
  {
  }

  lemma RevokeKeepsCount(st: State, ids: set<nat>)
    requires Counted(st)
    ensures Counted(RevokeAll(st, ids))
  {
  }

  /** Revocation moves each live credential from its row into the queue. */
  lemma RevokeMoves(st: State, ids: set<nat>, s: nat)
    requires Custody(st) && s in st.sessions
    ensures var after := RevokeAll(st, ids);
            if s in ids && Live(st, s)
            then !Live(after, s) && after.sessions[s].box == Box(s, Emptied)
                 && s in after.queue && after.queue[s] == st.sessions[s].box
            else after.sessions[s] == st.sessions[s] && (s in after.queue <==> s in st.queue)
                 && (s in st.queue ==> after.queue[s] == st.queue[s])
  {
  }

  lemma RevokeKeepsCustody(st: State, ids: set<nat>)
    requires Custody(st)
    ensures Custody(RevokeAll(st, ids))
  {
  }

  lemma RevokeKeepsRows(st: State, ids: set<nat>)
    requires Rows(st)
    ensures Rows(RevokeAll(st, ids))
  {
    RevokeKeepsIndex(st, ids);
    RevokeKeepsCount(st, ids);
    RevokeKeepsCustody(st, ids);
    hide Indexed, CookiesApart, Counted, Custody;
  }

  lemma RotateKeepsIndex(st: State, cfg: Settings, sid: nat, cookie: nat, newCookie: nat, secret: Secret, tokens: Grant)
    requires Indexed(st) && CookiesApart(st) && sid in st.sessions && secret.Credentials?
    requires cookie in st.index && st.index[cookie] == sid && newCookie !in st.issued
    ensures Indexed(Rotate(st, cfg, sid, cookie, newCookie, secret, tokens))
    ensures CookiesApart(Rotate(st, cfg, sid, cookie, newCookie, secret, tokens))
  {
  }

  lemma RotateKeepsCount(st: State, cfg: Settings, sid: nat, cookie: nat, newCookie: nat, secret: Secret, tokens: Grant)
    requires Counted(st) && sid in st.sessions && secret.Credentials? && cookie !in st.retired
    ensures Counted(Rotate(st, cfg, sid, cookie, newCookie, secret, tokens))
  {
    var after := Rotate(st, cfg, sid, cookie, newCookie, secret, tokens);
    forall s | s in after.sessions ensures after.sessions[s].generation == |RetiredOf(after, s)| {
      if s == sid {
        assert RetiredOf(after, sid) == RetiredOf(st, sid) + {cookie};
      } else {
        assert RetiredOf(after, s) == RetiredOf(st, s);
      }
    }
  }

  lemma BoxKeepsCustody(st: State, sid: nat, s: Session)
    requires Custody(st) && Live(st, sid) && s.revokedAt.None? && HoldsFor(s.box, sid, s.generation)
    ensures Custody(st.(sessions := st.sessions[sid := s]))
  {
  }

  /** Whatever the tables say about calls, clocks, owners or the issuer does not enter `Rows`. */
  lemma RowsOnly(a: State, b: State)
    requires Rows(a) && a.sessions == b.sessions && a.index == b.index && a.retired == b.retired
    requires a.queue == b.queue && a.issued == b.issued
    ensures Rows(b)
  {
  }

  lemma RotateKeepsRows(st: State, cfg: Settings, sid: nat, cookie: nat, newCookie: nat, secret: Secret, tokens: Grant)
    requires Rows(st) && Live(st, sid) && secret.Credentials? && newCookie !in st.issued
    requires cookie in st.index && st.index[cookie] == sid
    ensures Rows(Rotate(st, cfg, sid, cookie, newCookie, secret, tokens))
  {
    RotateKeepsIndex(st, cfg, sid, cookie, newCookie, secret, tokens);
    RotateKeepsCount(st, cfg, sid, cookie, newCookie, secret, tokens);
    var after := Rotate(st, cfg, sid, cookie, newCookie, secret, tokens);
    BoxKeepsCustody(st, sid, after.sessions[sid]);
  }

  lemma KeptBox(st: State, sid: nat, secret: Secret, kept: Option<Grant>)
    requires sid in st.sessions && secret.Credentials? && kept.Some?
    ensures var after := Keep(st, sid, secret, kept);
            && HoldsFor(after.sessions[sid].box, sid, secret.generation)
            && after == st.(sessions := st.sessions[sid := after.sessions[sid]])
            && after.sessions[sid].(box := st.sessions[sid].box) == st.sessions[sid]
  {
  }

  lemma KeepKeepsRows(st: State, sid: nat, secret: Secret, kept: Option<Grant>)
    requires Rows(st) && Live(st, sid) && secret.Credentials? && secret.generation == st.sessions[sid].generation
    ensures Rows(Keep(st, sid, secret, kept))
  {
    hide Holds;
    if kept.Some? {
      var after := Keep(st, sid, secret, kept);
      KeptBox(st, sid, secret, kept);
      BoxKeepsCustody(st, sid, after.sessions[sid]);
      assert forall s :: RetiredOf(after, s) == RetiredOf(st, s);
    }
  }

  lemma SettleKeepsRows(st: State, cfg: Settings, sid: nat, cookie: nat, newCookie: nat, secret: Secret, reply: Reply)
    requires Rows(st) && Live(st, sid) && secret.Credentials? && newCookie !in st.issued
    requires cookie in st.index && st.index[cookie] == sid && secret.generation == st.sessions[sid].generation
    ensures Rows(Settle(st, cfg, sid, cookie, newCookie, secret, reply).0)
  {
    hide Rows, Rotate, Keep, RevokeAll;
    match Consult(secret, reply)
    case Renewed(tokens) => RotateKeepsRows(st, cfg, sid, cookie, newCookie, secret, tokens);
    case Deferred(kept) => KeepKeepsRows(st, sid, secret, kept);
    case Refused => RevokeKeepsRows(st, {sid});
  }

  lemma RenewalKeepsRows(st: State, cfg: Settings, cookie: nat, newCookie: nat, reply: Reply)
    requires Rows(st) && newCookie !in st.issued
    ensures Rows(RenewLocked(st, cfg, cookie, newCookie, reply).0)
  {
    hide Rows, Settle;
    if Look(st, cookie).Found? {
      var sid := st.index[cookie];
      FoundHolds(st, cookie);
      SettleKeepsRows(st, cfg, sid, cookie, newCookie, st.sessions[sid].box.secret, reply);
    }
  }

  /** A cookie is retired by its own rotation and by nothing else. */
  lemma RenewalRetires(st: State, cfg: Settings, cookie: nat, newCookie: nat, reply: Reply)
    ensures var (after, result) := RenewLocked(st, cfg, cookie, newCookie, reply);
            && after.calls == st.calls
            && (Look(st, cookie).NoSession? ==> result.None? && after == st)
            && (if result.Some? && result.value.Rotated?
                then after.retired.Keys == st.retired.Keys + {cookie} else after.retired == st.retired)
  {
  }

  lemma RetiredIsNotCurrent(st: State, cookie: nat)
    requires Rows(st)
    ensures cookie in st.retired ==> Look(st, cookie).NoSession?
  {
  }

  lemma FoundHolds(st: State, cookie: nat)
    requires Rows(st) && Look(st, cookie).Found?
    ensures var sid := st.index[cookie];
            && Look(st, cookie) == Found(sid) && Live(st, sid)
            && HoldsFor(st.sessions[sid].box, sid, st.sessions[sid].generation)
  {
  }

  lemma LoginKeepsRows(st: State, cfg: Settings, sid: nat, identity: nat, newCookie: nat, refresh: nat, recover: bool)
    requires Rows(st) && sid !in st.sessions && newCookie !in st.issued
    ensures Rows(Admit(st, cfg, sid, identity, newCookie, refresh, recover))
  {
    hide RevokeAll, Admit, Indexed, CookiesApart, Counted, Custody;
    var base := if recover then RevokeAll(st, OfIdentity(st, identity)) else st;
    if recover {
      RevokeKeepsRows(st, OfIdentity(st, identity));
    }
    var after := Admit(st, cfg, sid, identity, newCookie, refresh, recover);
    LoginShape(st, cfg, sid, identity, newCookie, refresh, recover);
    LoginIndexed(base, after, sid, newCookie);
    LoginCounted(base, after, sid);
    LoginCustody(base, after, sid);
  }

  lemma LoginShape(st: State, cfg: Settings, sid: nat, identity: nat, newCookie: nat, refresh: nat, recover: bool)
    requires sid !in st.sessions && newCookie !in st.issued
    ensures var base := if recover then RevokeAll(st, OfIdentity(st, identity)) else st;
            var after := Admit(st, cfg, sid, identity, newCookie, refresh, recover);
            && sid !in base.sessions && newCookie !in base.issued
            && sid in after.sessions && Live(after, sid) && HoldsFor(after.sessions[sid].box, sid, 0)
            && after.sessions[sid].generation == 0 && after.sessions[sid].cookie == newCookie
            && after.sessions == base.sessions[sid := after.sessions[sid]]
            && after.index == base.index[newCookie := sid] && after.queue == base.queue
            && after.retired == base.retired && after.issued == base.issued + {newCookie}
  {
  }

  lemma LoginCounted(base: State, after: State, sid: nat)
    requires Counted(base) && CookiesApart(base) && sid !in base.sessions && after.retired == base.retired
    requires sid in after.sessions && after.sessions[sid].generation == 0
    requires after.sessions == base.sessions[sid := after.sessions[sid]]
    ensures Counted(after)
  {
  }

  lemma LoginIndexed(base: State, after: State, sid: nat, newCookie: nat)
    requires Indexed(base) && CookiesApart(base) && sid !in base.sessions && newCookie !in base.issued
    requires sid in after.sessions && after.sessions[sid].cookie == newCookie
    requires after.sessions == base.sessions[sid := after.sessions[sid]]
    requires after.index == base.index[newCookie := sid]
    requires after.retired == base.retired && after.issued == base.issued + {newCookie}
    ensures Indexed(after) && CookiesApart(after)
  {
  }

  lemma LoginCustody(base: State, after: State, sid: nat)
    requires Custody(base) && sid !in base.sessions && after.queue == base.queue
    requires sid in after.sessions && after.sessions == base.sessions[sid := after.sessions[sid]]
    requires Live(after, sid) && HoldsFor(after.sessions[sid].box, sid, after.sessions[sid].generation)
    ensures Custody(after)
  {
  }

  lemma DrainKeepsRows(st: State, sid: nat, acknowledges: bool, commits: bool)
    requires Rows(st) && sid in st.queue
    ensures Rows(DrainOne(st, sid, acknowledges, commits))
  {
  }

  lemma StepKeepsRows(st: State, cfg: Settings, e: Event)
    requires Rows(st)
    ensures Rows(Step(st, cfg, e))
  {
    hide Rows, RevokeAll, RenewLocked, DrainOne, Look, Admit;
    if Enabled(st, e) {
      var after := Step(st, cfg, e);
      match e
      case Login(sid, identity, newCookie, reply, recover, commits) =>
        if Admits(st, identity, reply, commits) {
          LoginKeepsRows(st, cfg, sid, identity, newCookie, reply.grant.grant.refresh.value, recover);
        }
      case CheckRetired(call) => CatchKeepsRows(st, call, NotRetired);
      case Recheck(call) => CatchKeepsRows(st, call, Done(Expired));
      case LockedRenewal(call, newCookie, reply, commits) =>
        var (mid, result) := RenewLocked(st, cfg, st.calls[call].cookie, newCookie, reply);
        RenewalKeepsRows(st, cfg, st.calls[call].cookie, newCookie, reply);
        RowsOnly(if commits && result.Some? then mid else st, after);
      case Logout(cookie, everywhere) =>
        RevokeKeepsRows(st, LogoutIds(st, cookie, everywhere));
      case Expire(ids) => RevokeKeepsRows(st, ids);
      case Drain(sid, acknowledges, commits) => DrainKeepsRows(st, sid, acknowledges, commits);
      case _ => RowsOnly(st, after);
    }
  }

  lemma CatchKeepsRows(st: State, call: nat, otherwise: Phase)
    requires Rows(st) && call in st.calls
    ensures Rows(CatchReuse(st, call, otherwise))
  {
    hide Rows, RevokeAll;
    var cookie := st.calls[call].cookie;
    if cookie in st.retired {
      RevokeKeepsRows(st, {st.retired[cookie]});
      RowsOnly(RevokeAll(st, {st.retired[cookie]}), CatchReuse(st, call, otherwise));
    } else {
      RowsOnly(st, CatchReuse(st, call, otherwise));
    }
  }
}
