/** The identity service's transactions as they update the tables, row by row. */
module IdentityStore {
  import opened Wrappers
  import opened Sessions
  import opened RefreshRaces
  import opened SessionLimits

  class Store {
    var sessions: map<nat, Session>
    var index: map<nat, nat>
    var retired: map<nat, nat>
    var queue: map<nat, Box>
    var owners: map<nat, Owner>
    var clock: int
    var issued: set<nat>
    var acknowledged: set<nat>
    var calls: map<nat, Call>
    /** When a queued row whose revocation failed may be tried again. */
    var retryAt: map<nat, int>

    function Tables(): State
      reads this
    {
      State(sessions, index, retired, queue, owners, clock, issued, acknowledged, calls)
    }

    /** `_revoke`: mark, queue unless queued, then empty the row. */
    method Revoke(sid: nat)
      requires sid in sessions
      modifies this`sessions, this`queue
      ensures Tables() == RevokeAll(old(Tables()), {sid})
    {
      if sessions[sid].revokedAt.None? {
        var encrypted := sessions[sid].box;
        sessions := sessions[sid := sessions[sid].(revokedAt := Some(clock))];
        if sid !in queue {
          queue := queue[sid := encrypted];
        }
        sessions := sessions[sid := sessions[sid].(box := Box(sid, Emptied))];
      }
      assert sessions == RevokeAll(old(Tables()), {sid}).sessions;
      assert queue == RevokeAll(old(Tables()), {sid}).queue;
    }

    method RevokeEach(ids: set<nat>)
      requires ids <= sessions.Keys
      modifies this`sessions, this`queue
      ensures Tables() == RevokeAll(old(Tables()), ids)
    {
      ghost var before := Tables();
      var todo := ids;
      RevokeNothing(before);
      while todo != {}
        invariant todo <= ids
        invariant Tables() == RevokeAll(before, ids - todo)
        decreases |todo|
      {
        var sid :| sid in todo;
        RevokeOneMore(before, ids - todo, sid);
        Revoke(sid);
        assert ids - (todo - {sid}) == ids - todo + {sid};
        todo := todo - {sid};
      }
      assert ids - {} == ids;
    }

    /** `logout`, before it drains the queue. */
    method Logout(cookie: nat, everywhere: bool) returns (done: bool)
      modifies this`sessions, this`queue
      ensures done <==> Look(old(Tables()), cookie).Found?
      ensures Tables() == if done then RevokeAll(old(Tables()), LogoutIds(old(Tables()), cookie, everywhere))
                          else old(Tables())
      ensures forall sid :: Inv(old(Tables())) && Good(old(Tables()), sid) && old(sessions)[sid].cookie == cookie ==>
                done && LogsOut(old(Tables()), Tables(), sid, everywhere)
    {
      forall sid | Inv(Tables()) && Good(Tables(), sid) && sessions[sid].cookie == cookie
        ensures Look(Tables(), cookie) == Found(sid)
        ensures LogsOut(Tables(), RevokeAll(Tables(), LogoutIds(Tables(), cookie, everywhere)), sid, everywhere)
      {
        RevokedOut(Tables(), cookie, sid, everywhere);
      }
      hide Inv, Good, Look, LogsOut, RevokeAll;
      var found := Look(Tables(), cookie);
      done := found.Found?;
      if done {
        var ids := if everywhere then OfIdentity(Tables(), sessions[found.sid].identity) else {found.sid};
        RevokeEach(ids);
      }
    }

    /** The committing half of `_renew`, after the locked row was found valid and opened. */
    method Renew(cfg: Settings, sid: nat, cookie: nat, newCookie: nat, reply: Reply) returns (result: Result)
      requires Indexed(Tables()) && Look(Tables(), cookie) == Found(sid)
      requires sessions[sid].box.secret.Credentials? && newCookie !in issued
      modifies this`sessions, this`queue, this`index, this`retired, this`issued
      ensures (Tables(), result)
              == Settle(old(Tables()), cfg, sid, cookie, newCookie, old(sessions)[sid].box.secret, reply)
      ensures result.Rotated? <==> reply.check == Verified && Answer(old(sessions)[sid].box.secret, reply) != None
      ensures result.Rotated? ==>
                var secret := old(sessions)[sid].box.secret; var answer := Answer(secret, reply);
                sessions == old(sessions)[sid := Fresh(old(sessions)[sid], sid, cfg, newCookie, Credential(answer.value, secret), clock)]
    {
      var row := sessions[sid];
      var credentials := row.box.secret;
      match Consult(credentials, reply) {
        case Refused =>
          Revoke(sid);
          result := Rejected;
        case Deferred(kept) =>
          if kept.Some? {
            var refresh := Refresh(kept.value, credentials);
            credentials := credentials.(pending := kept, refresh := refresh);
            sessions := sessions[sid := row.(box := Box(sid, credentials))];
          }
          result := Unavailable;
        case Renewed(tokens) =>
          var encrypted := Box(sid, Credentials(row.generation + 1, Refresh(tokens, credentials), None));
          retired := retired[cookie := sid];
          index := (index - {cookie})[newCookie := sid];
          issued := issued + {newCookie};
          sessions := sessions[sid := row.(
            cookie := newCookie, box := encrypted, generation := row.generation + 1,
            idleUntil := Min(row.expiresAt, clock + cfg.idle), accessUntil := clock + cfg.access)];
          result := Rotated(newCookie);
      }
    }

    /** The rows that may be tried now. */
    function Ready(): set<nat>
      reads this
    {
      ReadyIn(queue, retryAt, clock)
    }

    /**
     `drain_revocations` over the first rows due now. A row that fails waits a minute, so rows that
     keep failing never hold up the others. The issuer's answers survive a rollback, the deletions
     do not: a row leaves only if its credential was acknowledged and the transaction committed.
     */
    method DrainRevocations(issuer: nat -> bool, commits: bool) returns (due: seq<nat>)
      requires forall s :: s in queue ==> Holds(queue[s], s)
      modifies this`queue, this`acknowledged, this`retryAt
      ensures due == FirstOf(old(Ready()), DRAIN_LIMIT)
      ensures forall s :: s in due ==> s in old(queue) && Holds(old(queue)[s], s)
      ensures |due| <= 50
      ensures forall s :: s in due ==> s !in old(retryAt) || old(retryAt)[s] <= clock
      ensures forall s :: s in old(queue) && (s !in old(retryAt) || old(retryAt)[s] <= clock) && s !in due ==>
                |due| == 50 && forall d :: d in due ==> d < s
      ensures commits ==> forall s :: s in due && !issuer(s) ==> s in retryAt && retryAt[s] == clock + 60
      ensures queue == if commits then old(queue) - Told(due, Answers(due, issuer)) else old(queue)
      ensures acknowledged == old(acknowledged) + Refreshes(old(queue), Told(due, Answers(due, issuer)))
      ensures forall s :: s in Told(due, Answers(due, issuer)) ==> s in due && Confirmed(acknowledged, old(queue)[s], s)
      ensures forall cfg :: Tables() == Run(old(Tables()), cfg, Drains(due, Answers(due, issuer), commits))
      ensures if commits then Ready() == old(Ready()) - set s | s in due else Ready() == old(Ready())
    {
      hide Told, Refreshes, ReadyIn, Run, Drains, Confirmed, Holds, Answers, FirstOf, Open;
      due := FirstOf(Ready(), DRAIN_LIMIT);
      AllReadyQueued(queue, retryAt, clock);
      ReadyExactly(queue, retryAt, clock);
      ghost var answers := Answers(due, issuer);
      var remaining, later := AskIssuer(due, issuer);
      ToldAmong(due, answers);
      ToldConfirmed(queue, Told(due, answers), acknowledged);
      if commits {
        FailedWait(queue, retryAt, remaining, later, clock, due, Told(due, answers));
        queue, retryAt := remaining, later;
      }
      forall cfg ensures Tables() == Run(old(Tables()), cfg, Drains(due, answers, commits)) {
        DrainIsRun(old(Tables()), cfg, due, answers, commits);
      }
    }

    /** The loop over the due rows: which rows stay, and when the failed ones may be tried again. */
    method AskIssuer(due: seq<nat>, issuer: nat -> bool) returns (remaining: map<nat, Box>, later: map<nat, int>)
      requires forall s :: s in due ==> s in queue && Holds(queue[s], s)
      modifies this`acknowledged
      ensures remaining == queue - Told(due, Answers(due, issuer))
      ensures acknowledged == old(acknowledged) + Refreshes(queue, Told(due, Answers(due, issuer)))
      ensures forall s :: s in due && s in remaining ==> s in later && later[s] > clock
      ensures forall s :: s in due && !issuer(s) ==> s in later && later[s] == clock + 60
      ensures forall s :: s in queue && s !in due ==> s in remaining
      ensures forall s :: s !in due ==> (s in later <==> s in retryAt) && (s in later ==> later[s] == retryAt[s])
    {
      hide Told, Refreshes, Answers;
      ghost var answers := Answers(due, issuer);
      remaining, later := queue, retryAt;
      NoneTold(queue);
      assert due[..0] == [] && answers[..0] == [];
      for i := 0 to |due|
        invariant remaining == queue - Told(due[..i], answers[..i])
        invariant acknowledged == old(acknowledged) + Refreshes(queue, Told(due[..i], answers[..i]))
        invariant forall s :: s in due[..i] && s in remaining ==> s in later && later[s] > clock
        invariant forall s :: s in due[..i] && !issuer(s) ==> s in later && later[s] == clock + 60
        invariant forall s :: s !in due[..i] ==> (s in later <==> s in retryAt) && (s in later ==> later[s] == retryAt[s])
      {
        var sid := due[i];
        assert due[i] in due && due[..i + 1] == due[..i] + [sid];
        ToldOneMore(due, answers, i);
        RefreshesOneMore(queue, Told(due[..i], answers[..i]), sid);
        assert Told(due[..i], answers[..i]) + {} == Told(due[..i], answers[..i]);
        var credentials := Open(queue[sid], sid).value;
        if issuer(sid) {
          acknowledged := acknowledged + {credentials.refresh};
          remaining := remaining - {sid};
        } else {
          later := later[sid := clock + RETRY_SECONDS];
        }
      }
      assert due[..|due|] == due && answers[..|due|] == answers;
      ToldAmong(due, answers);
    }
  }

  /** The queued rows that may be tried at this time. */
  function ReadyIn(queue: map<nat, Box>, retryAt: map<nat, int>, clock: int): set<nat> {
    set s | s in queue && (s !in retryAt || retryAt[s] <= clock)
  }

  lemma ReadyExactly(queue: map<nat, Box>, retryAt: map<nat, int>, clock: int)
    ensures forall s :: s in ReadyIn(queue, retryAt, clock) <==> s in queue && (s !in retryAt || retryAt[s] <= clock)
  {
  }

  lemma AllReadyQueued(queue: map<nat, Box>, retryAt: map<nat, int>, clock: int)
    ensures ReadyIn(queue, retryAt, clock) <= queue.Keys
  {
  }

  /** Rows that were tried are not ready again at the same time, and all others stay as they were. */
  lemma FailedWait(queue: map<nat, Box>, retryAt: map<nat, int>, remaining: map<nat, Box>, later: map<nat, int>,
                   clock: int, due: seq<nat>, told: set<nat>)
    requires remaining == queue - told && forall s :: s in told ==> s in due
    requires forall s :: s in due && s in remaining ==> s in later && later[s] > clock
    requires forall s :: s !in due ==> (s in later <==> s in retryAt) && (s in later ==> later[s] == retryAt[s])
    ensures ReadyIn(remaining, later, clock) == ReadyIn(queue, retryAt, clock) - set s | s in due
  {
  }

  lemma ToldConfirmed(queue: map<nat, Box>, ids: set<nat>, acknowledged: set<nat>)
    requires Refreshes(queue, ids) <= acknowledged
    ensures forall s :: s in ids && s in queue && Holds(queue[s], s) ==> Confirmed(acknowledged, queue[s], s)
  {
    forall s | s in ids && s in queue && Holds(queue[s], s) ensures Confirmed(acknowledged, queue[s], s) {
      assert queue[s].secret.refresh in Refreshes(queue, ids);
    }
  }

  lemma NoneTold(queue: map<nat, Box>)
    ensures Told([], []) == {} && Refreshes(queue, {}) == {} && queue - {} == queue
  {
  }

  const DRAIN_LIMIT := 50
  const RETRY_SECONDS := 60

  function Answers(due: seq<nat>, issuer: nat -> bool): (r: seq<bool>)
    ensures |r| == |due| && forall i :: 0 <= i < |due| ==> r[i] == issuer(due[i])
  {
    if due == [] then [] else [issuer(due[0])] + Answers(due[1..], issuer)
  }

  lemma {:induction false} LeastExists(ids: set<nat>)
    requires ids != {}
    ensures exists m :: m in ids && forall x :: x in ids ==> m <= x
  {
    var k :| k in ids;
    LeastBelow(ids, k);
  }

  lemma {:induction false} LeastBelow(ids: set<nat>, k: nat)
    requires k in ids
    ensures exists m :: m in ids && forall x :: x in ids ==> m <= x
    decreases k
  {
    if x :| x in ids && x < k {
      LeastBelow(ids, x);
    }
  }

  function Least(ids: set<nat>): (m: nat)
    requires ids != {}
    ensures m in ids && forall x :: x in ids ==> m <= x
  {
    LeastExists(ids);
    var m :| m in ids && forall x :: x in ids ==> m <= x;
    m
  }

  /** The first `limit` ids in order. */
  function FirstOf(ids: set<nat>, limit: nat): (r: seq<nat>)
    ensures |r| <= limit && (forall x :: x in r ==> x in ids)
    ensures forall i, j :: 0 <= i < j < |r| ==> r[i] < r[j]
    ensures forall y :: y in ids && y !in r ==> |r| == limit && forall x :: x in r ==> x < y
    decreases limit
  {
    if ids == {} || limit == 0 then
      []
    else
      var m := Least(ids);
      var rest := FirstOf(ids - {m}, limit - 1);
      assert forall i :: 0 <= i < |rest| ==> rest[i] in rest && rest[i] in ids - {m} && m < rest[i];
      assert forall x :: x in [m] + rest <==> x == m || x in rest;
      [m] + rest
  }

  lemma ToldAmong(due: seq<nat>, answers: seq<bool>)
    requires |answers| == |due|
    ensures forall s :: s in Told(due, answers) ==> s in due
  {
  }

  /** The due sessions whose credential the issuer answers for. */
  function Told(due: seq<nat>, answers: seq<bool>): set<nat>
    requires |answers| == |due|
  {
    set i | 0 <= i < |due| && answers[i] :: due[i]
  }

  /** The credentials that the rows of `ids` hold. */
  ghost function Refreshes(queue: map<nat, Box>, ids: set<nat>): set<nat> {
    set s | s in queue && s in ids && Holds(queue[s], s) :: queue[s].secret.refresh
  }

  /** The steps of the race model that one drain of several rows stands for. */
  function Drains(due: seq<nat>, answers: seq<bool>, commits: bool): seq<Event>
    requires |answers| == |due|
  {
    if due == [] then
      []
    else
      var n := |due| - 1;
      Drains(due[..n], answers[..n], commits) + [Drain(due[n], answers[n], commits)]
  }

  /** One transaction over the due rows is a run of single drains, so the custody theorems hold of it. */
  lemma {:induction false} DrainIsRun(st: State, cfg: Settings, due: seq<nat>, answers: seq<bool>, commits: bool)
    requires |answers| == |due| && forall s :: s in due ==> s in st.queue && Holds(st.queue[s], s)
    ensures Run(st, cfg, Drains(due, answers, commits))
            == st.(queue := if commits then st.queue - Told(due, answers) else st.queue,
                   acknowledged := st.acknowledged + Refreshes(st.queue, Told(due, answers)))
  {
    if due == [] {
      NothingTold(st, due, answers);
    } else {
      hide Told, Refreshes, Step;
      var n := |due| - 1;
      DrainIsRun(st, cfg, due[..n], answers[..n], commits);
      var before := Run(st, cfg, Drains(due[..n], answers[..n], commits));
      var events := Drains(due, answers, commits);
      assert events[..|events| - 1] == Drains(due[..n], answers[..n], commits);
      assert due[n] in due;
      DrainStep(st, before, cfg, due, answers, commits);
    }
  }

  lemma NothingTold(st: State, due: seq<nat>, answers: seq<bool>)
    requires |answers| == |due| == 0
    ensures st == st.(queue := st.queue - Told(due, answers), acknowledged := st.acknowledged + Refreshes(st.queue, Told(due, answers)))
    ensures st == st.(acknowledged := st.acknowledged + Refreshes(st.queue, Told(due, answers)))
  {
    assert Told(due, answers) == {};
    assert st.queue - Told(due, answers) == st.queue;
  }

  lemma DrainStep(st: State, before: State, cfg: Settings, due: seq<nat>, answers: seq<bool>, commits: bool)
    requires |answers| == |due| > 0
    requires due[|due| - 1] in st.queue && Holds(st.queue[due[|due| - 1]], due[|due| - 1])
    requires var n := |due| - 1; var told := Told(due[..n], answers[..n]);
             before == st.(queue := if commits then st.queue - told else st.queue,
                           acknowledged := st.acknowledged + Refreshes(st.queue, told))
    ensures Step(before, cfg, Drain(due[|due| - 1], answers[|due| - 1], commits))
            == st.(queue := if commits then st.queue - Told(due, answers) else st.queue,
                   acknowledged := st.acknowledged + Refreshes(st.queue, Told(due, answers)))
  {
    hide Told, Refreshes;
    var n := |due| - 1;
    var sid, told := due[n], Told(due[..n], answers[..n]);
    assert due[..n + 1] == due && answers[..n + 1] == answers;
    ToldOneMore(due, answers, n);
    RefreshesOneMore(st.queue, told, sid);
    assert told + {} == told;
    assert st.queue - told - {sid} == st.queue - (told + {sid});
    if sid in told {
      assert told + {sid} == told;
      assert st.acknowledged + Refreshes(st.queue, told) + {st.queue[sid].secret.refresh}
             == st.acknowledged + Refreshes(st.queue, told);
    }
  }

  lemma RefreshesOneMore(queue: map<nat, Box>, ids: set<nat>, sid: nat)
    requires sid in queue && Holds(queue[sid], sid)
    ensures Refreshes(queue, ids + {sid}) == Refreshes(queue, ids) + {queue[sid].secret.refresh}
  {
  }

  lemma ToldOneMore(due: seq<nat>, answers: seq<bool>, i: nat)
    requires |answers| == |due| && i < |due|
    ensures Told(due[..i + 1], answers[..i + 1])
            == Told(due[..i], answers[..i]) + if answers[i] then {due[i]} else {}
  {
  }

  /** The issuer has confirmed the revocation of the credential sealed in `box`. */
  predicate Confirmed(acknowledged: set<nat>, box: Box, sid: nat) {
    var content := Open(box, sid);
    content.Some? && content.value.Credentials? && content.value.refresh in acknowledged
  }

  lemma RevokeNothing(st: State)
    ensures RevokeAll(st, {}) == st
  {
  }

  /** `RevokeAll`, one key at a time. */
  lemma RevokeAt(st: State, ids: set<nat>, s: nat)
    ensures var after := RevokeAll(st, ids); var hit := s in ids && Live(st, s);
            && after == st.(sessions := after.sessions, queue := after.queue)
            && (s in after.sessions <==> s in st.sessions)
            && (s in st.sessions ==> after.sessions[s] == if hit then Closed(st.sessions[s], s, st.clock) else st.sessions[s])
            && (s in after.queue <==> s in st.queue || hit)
            && (s in after.queue ==> after.queue[s] == if s in st.queue then st.queue[s] else st.sessions[s].box)
  {
  }

  /** Revoking one more session after a set of them is revoking the larger set. */
  lemma RevokeOneMore(st: State, ids: set<nat>, sid: nat)
    ensures RevokeAll(RevokeAll(st, ids), {sid}) == RevokeAll(st, ids + {sid})
  {
    hide RevokeAll;
    var mid := RevokeAll(st, ids);
    var once, twice := RevokeAll(st, ids + {sid}), RevokeAll(mid, {sid});
    forall s: nat
      ensures s in once.sessions <==> s in twice.sessions
      ensures s in once.sessions ==> once.sessions[s] == twice.sessions[s]
      ensures s in once.queue <==> s in twice.queue
      ensures s in once.queue ==> once.queue[s] == twice.queue[s]
    {
      RevokeAt(st, ids, s);
      RevokeAt(mid, {sid}, s);
      RevokeAt(st, ids + {sid}, s);
    }
    RevokeAt(st, ids, sid);
    RevokeAt(mid, {sid}, sid);
    RevokeAt(st, ids + {sid}, sid);
    assert twice.sessions == once.sessions;
    assert twice.queue == once.queue;
  }
}
