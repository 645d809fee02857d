/**
 The ECS release script against a platform in which every call may fail, before or after it took
 effect, and in which the platform may turn services under deployment to another revision while the
 script waits for them.
 */
module Deploy {
  import opened Wrappers

  datatype Mode = Staging | Canary | Release | Rollback

  datatype Role = Api | Extraction | Materialization | Beat

  const ROLES: seq<Role> := [Api, Extraction, Materialization, Beat]
  const RELEASE_ORDER: seq<Role> := [Extraction, Materialization, Beat, Api]

  datatype Fate = Works | FailsBefore | FailsAfter

  /** Calls that change neither services nor weights: they only register, read, wait or watch. */
  datatype Task =
    | StableTraffic | Register(role: Role) | CanaryStable | HealthyCanary | Watch(minutes: nat)
    | Stabilize | Found | Probe | Integrity

  /** What the script did, in order: listener weights, service updates under which weight, canary tasks wanted, and the rest. */
  datatype Action =
    | Weights(stable: int, canary: int)
    | Update(role: Role, revision: nat, canaryWeight: int)
    | Desired(count: nat)
    | Did(task: Task)

  datatype Exit = Succeeded | Unchanged | RolledBack | RollbackFailed

  type Revisions = map<Role, nat>

  ghost predicate AllRoles(r: Revisions) {
    forall role: Role :: role in r
  }

  predicate HasCanary(mode: Mode) {
    mode.Canary? || mode.Release?
  }

  // ---------------------------------------------------------------- the scripts, call by call

  /** The four services turned to `revisions` in the order given, at one canary weight, and found there. */
  ghost function Turned(a: Role, b: Role, c: Role, d: Role, revisions: Revisions, weight: int): seq<Action>
    requires AllRoles(revisions)
  {
    [Update(a, revisions[a], weight), Update(b, revisions[b], weight), Update(c, revisions[c], weight),
     Update(d, revisions[d], weight), Did(Stabilize), Did(Found)]
  }

  function Registered(a: Role, b: Role, c: Role, d: Role): seq<Action> {
    [Did(Register(a)), Did(Register(b)), Did(Register(c)), Did(Register(d))]
  }

  const CANARY_UP := [Did(StableTraffic), Did(Register(Api)), Desired(2), Did(CanaryStable), Did(HealthyCanary)]
  const TRAFFIC_BACK := [Weights(100, 0)]

  /** Everything that a run of `main` does when nothing fails. `weight` is the canary's when it starts. */
  ghost function Script(mode: Mode, revisions: Revisions, listener: bool, weight: int): seq<Action>
    requires AllRoles(revisions)
  {
    match mode
    case Canary =>
      CANARY_UP + [Weights(90, 10), Did(Watch(10))] + TRAFFIC_BACK + [Desired(0)]
    case Release =>
      CANARY_UP
      + [Weights(90, 10), Did(Watch(1)), Weights(50, 50), Did(Watch(5)), Weights(0, 100), Did(Watch(5))]
      + (Registered(Extraction, Materialization, Beat, Api) + Turned(Extraction, Materialization, Beat, Api, revisions, 100)
         + [Did(Integrity)])
      + TRAFFIC_BACK + [Desired(0)]
    case Staging =>
      Registered(Api, Extraction, Materialization, Beat) + Turned(Api, Extraction, Materialization, Beat, revisions, weight)
      + [Did(Probe), Did(Integrity)]
    case Rollback =>
      (if listener then TRAFFIC_BACK else [])
      + (Registered(Api, Extraction, Materialization, Beat)
         + Turned(Api, Extraction, Materialization, Beat, revisions, if listener then 0 else weight)
         + [Did(Probe), Did(Integrity)])
      + [Desired(0)]
  }

  /** Everything that a rollback does when nothing fails: traffic first, then the services, then the canary. */
  ghost function RollbackScript(mode: Mode, before: Revisions, listener: bool, weight: int): seq<Action>
    requires AllRoles(before)
  {
    (if listener then TRAFFIC_BACK else [])
    + Turned(Api, Extraction, Materialization, Beat, before, if listener then 0 else weight)
    + (if mode == Staging then [] else [Desired(0)])
  }

  /** The log grew by all of `part`, or, if something failed, by some beginning of it. */
  predicate Through(before: seq<Action>, after: seq<Action>, part: seq<Action>, ok: bool) {
    if ok then after == before + part else before <= after <= before + part
  }

  lemma ThroughTwice(a: seq<Action>, b: seq<Action>, c: seq<Action>, first: seq<Action>, second: seq<Action>, ok: bool)
    requires Through(a, b, first, true) && Through(b, c, second, ok)
    ensures Through(a, c, first + second, ok)
  {
    assert a + first + second == a + (first + second);
  }

  lemma ThroughPart(a: seq<Action>, b: seq<Action>, first: seq<Action>, second: seq<Action>)
    requires Through(a, b, first, false)
    ensures Through(a, b, first + second, false)
  {
    assert a + first + second == a + (first + second);
  }

  function Updates(order: seq<Role>, revisions: Revisions, weight: int): seq<Action>
    requires forall r :: r in order ==> r in revisions
  {
    if order == [] then []
    else
      var n := |order| - 1;
      assert order[n] in order;
      Updates(order[..n], revisions, weight) + [Update(order[n], revisions[order[n]], weight)]
  }

  lemma UpdatesPrefix(order: seq<Role>, i: nat, revisions: Revisions, weight: int)
    requires i < |order| && forall r :: r in order ==> r in revisions
    ensures order[i] in revisions && forall r :: r in order[..i + 1] ==> r in revisions
    ensures Updates(order[..i + 1], revisions, weight) == Updates(order[..i], revisions, weight) + [Update(order[i], revisions[order[i]], weight)]
  {
    assert order[..i + 1][..i] == order[..i];
    assert order[i] in order;
  }

  lemma {:induction false} UpdatesGrow(order: seq<Role>, i: nat, revisions: Revisions, weight: int)
    requires i <= |order| && forall r :: r in order ==> r in revisions
    ensures Updates(order[..i], revisions, weight) <= Updates(order, revisions, weight)
    decreases |order| - i
  {
    if i < |order| {
      UpdatesPrefix(order, i, revisions, weight);
      UpdatesGrow(order, i + 1, revisions, weight);
    } else {
      assert order[..i] == order;
    }
  }

  function Registers(order: seq<Role>): seq<Action> {
    if order == [] then [] else Registers(order[..|order| - 1]) + [Did(Register(order[|order| - 1]))]
  }

  lemma {:induction false} RegistersGrow(order: seq<Role>, i: nat)
    requires i <= |order|
    ensures Registers(order[..i]) <= Registers(order)
    ensures i < |order| ==> Registers(order[..i + 1]) == Registers(order[..i]) + [Did(Register(order[i]))]
    decreases |order| - i
  {
    if i < |order| {
      assert order[..i + 1][..i] == order[..i];
      RegistersGrow(order, i + 1);
    } else {
      assert order[..i] == order;
    }
  }

  lemma FourUpdates(a: Role, b: Role, c: Role, d: Role, revisions: Revisions, weight: int)
    requires AllRoles(revisions)
    ensures Updates([a, b, c, d], revisions, weight) + [Did(Stabilize), Did(Found)] == Turned(a, b, c, d, revisions, weight)
    ensures Registers([a, b, c, d]) == Registered(a, b, c, d)
  {
    var order := [a, b, c, d];
    assert order[..4] == order && order[..0] == [];
    UpdatesPrefix(order, 0, revisions, weight);
    UpdatesPrefix(order, 1, revisions, weight);
    UpdatesPrefix(order, 2, revisions, weight);
    UpdatesPrefix(order, 3, revisions, weight);
    RegistersGrow(order, 0);
    RegistersGrow(order, 1);
    RegistersGrow(order, 2);
    RegistersGrow(order, 3);
  }

  /** The stages of a canary: a weight and for how long it is watched. */
  function Stages(stages: seq<(int, nat)>): seq<Action> {
    if stages == [] then []
    else
      var n := |stages| - 1;
      Stages(stages[..n]) + [Weights(100 - stages[n].0, stages[n].0), Did(Watch(stages[n].1))]
  }

  lemma {:induction false} StagesGrow(stages: seq<(int, nat)>, i: nat)
    requires i <= |stages|
    ensures Stages(stages[..i]) <= Stages(stages)
    ensures i < |stages| ==> Stages(stages[..i + 1]) == Stages(stages[..i]) + [Weights(100 - stages[i].0, stages[i].0), Did(Watch(stages[i].1))]
    decreases |stages| - i
  {
    if i < |stages| {
      assert stages[..i + 1][..i] == stages[..i];
      StagesGrow(stages, i + 1);
    } else {
      assert stages[..i] == stages;
    }
  }

  const CANARY_STAGES: seq<(int, nat)> := [(10, 10)]
  const RELEASE_STAGES: seq<(int, nat)> := [(10, 1), (50, 5), (100, 5)]

  lemma StagesAre()
    ensures Stages(CANARY_STAGES) == [Weights(90, 10), Did(Watch(10))]
    ensures Stages(RELEASE_STAGES)
            == [Weights(90, 10), Did(Watch(1)), Weights(50, 50), Did(Watch(5)), Weights(0, 100), Did(Watch(5))]
  {
    assert CANARY_STAGES[..0] == [];
    assert RELEASE_STAGES[..2] == [(10, 1), (50, 5)] && RELEASE_STAGES[..2][..1] == [(10, 1)] && RELEASE_STAGES[..1][..0] == [];
  }

  lemma ThroughNothing(a: seq<Action>)
    ensures Through(a, a, [], true)
  {
    assert a + [] == a;
  }

  lemma PromotionIs(mode: Mode, revisions: Revisions, listener: bool, weight: int)
    requires HasCanary(mode) && AllRoles(revisions)
    ensures var stages := if mode.Canary? then CANARY_STAGES else RELEASE_STAGES;
            var turn := if mode.Canary? then []
                        else Registers(RELEASE_ORDER) + (Updates(RELEASE_ORDER, revisions, 100) + [Did(Stabilize), Did(Found)]) + [Did(Integrity)];
            Script(mode, revisions, listener, weight) == CANARY_UP + Stages(stages) + turn + (TRAFFIC_BACK + [Desired(0)])
  {
    StagesAre();
    FourUpdates(Extraction, Materialization, Beat, Api, revisions, 100);
    hide Updates, Registers, Turned, Stages;
  }

  lemma ReplacementIs(mode: Mode, revisions: Revisions, listener: bool, weight: int)
    requires !HasCanary(mode) && AllRoles(revisions)
    ensures var first := if mode.Rollback? && listener then TRAFFIC_BACK else [];
            var canary := if mode.Rollback? && listener then 0 else weight;
            var turn := Registers(ROLES) + (Updates(ROLES, revisions, canary) + [Did(Stabilize), Did(Found)]) + [Did(Probe), Did(Integrity)];
            Script(mode, revisions, listener, weight) == first + turn + (if mode.Rollback? then [Desired(0)] else [])
  {
    FourUpdates(Api, Extraction, Materialization, Beat, revisions, if mode.Rollback? && listener then 0 else weight);
    hide Updates, Registers, Turned;
  }

  /** A weight is a split of 100; a service turns to its requested revision, never in canary mode, and with the canary holding all traffic or none. */
  ghost predicate Safe(a: Action, mode: Mode, revisions: Revisions, listener: bool)
    requires AllRoles(revisions)
  {
    && (a.Weights? ==> a.stable + a.canary == 100 && 0 <= a.canary <= 100)
    && (a.Update? ==> a.revision == revisions[a.role] && mode != Canary
                      && (mode == Release ==> a.canaryWeight == 100) && (mode == Rollback && listener ==> a.canaryWeight == 0))
  }

  lemma TurnedIsSafe(a: Role, b: Role, c: Role, d: Role, mode: Mode, revisions: Revisions, listener: bool, weight: int)
    requires AllRoles(revisions) && mode != Canary
    requires (mode == Release ==> weight == 100) && (mode == Rollback && listener ==> weight == 0)
    ensures forall x :: x in Turned(a, b, c, d, revisions, weight) || x in Registered(a, b, c, d) ==> Safe(x, mode, revisions, listener)
  {
  }

  /** Every action of every script is safe. */
  lemma ScriptsAreSafe(mode: Mode, revisions: Revisions, listener: bool, weight: int)
    requires AllRoles(revisions)
    ensures forall a :: a in Script(mode, revisions, listener, weight) ==> Safe(a, mode, revisions, listener)
  {
    hide Turned, Registered;
    match mode
    case Canary =>
    case Release => TurnedIsSafe(Extraction, Materialization, Beat, Api, mode, revisions, listener, 100);
    case Staging => TurnedIsSafe(Api, Extraction, Materialization, Beat, mode, revisions, listener, weight);
    case Rollback => TurnedIsSafe(Api, Extraction, Materialization, Beat, mode, revisions, listener, if listener then 0 else weight);
  }

  lemma RoleCases()
    ensures forall r: Role :: r in ROLES && r in RELEASE_ORDER
  {
    assert ROLES[0] == Api && ROLES[1] == Extraction && ROLES[2] == Materialization && ROLES[3] == Beat;
    assert RELEASE_ORDER[0] == Extraction && RELEASE_ORDER[1] == Materialization && RELEASE_ORDER[2] == Beat && RELEASE_ORDER[3] == Api;
    forall r: Role ensures r in ROLES && r in RELEASE_ORDER {
      match r
      case Api =>
      case Extraction =>
      case Materialization =>
      case Beat =>
    }
  }

  lemma FourAreAll(m: Revisions)
    requires Api in m && Extraction in m && Materialization in m && Beat in m
    ensures AllRoles(m)
  {
    forall r: Role ensures r in m {
      match r
      case Api =>
      case Extraction =>
      case Materialization =>
      case Beat =>
    }
  }

  class Platform {
    var services: Revisions
    var canaryDesired: nat
    var stable: int
    var canary: int
    var calls: nat
    var log: seq<Action>
    const hasListener: bool
    /** How each call goes, and what the platform turns services to during it. */
    const fate: nat -> Fate
    const drift: nat -> Revisions
    /** The task revision that registering the new image yields for each role. */
    const registered: Role -> nat

    constructor (services: Revisions, canaryDesired: nat, stable: int, canary: int, hasListener: bool,
                 fate: nat -> Fate, drift: nat -> Revisions, registered: Role -> nat)
      ensures this.services == services && this.canaryDesired == canaryDesired
      ensures this.stable == stable && this.canary == canary && log == []
      ensures this.hasListener == hasListener && this.registered == registered
    {
      this.services, this.canaryDesired, this.stable, this.canary := services, canaryDesired, stable, canary;
      this.hasListener, this.fate, this.drift, this.registered := hasListener, fate, drift, registered;
      calls, log := 0, [];
    }

    /** No call numbered from..upto failed; one of them did, or the platform moved services during it. */
    ghost predicate Worked(from: nat, upto: nat) {
      forall c :: from <= c < upto ==> fate(c).Works?
    }

    ghost predicate Troubled(from: nat, upto: nat) {
      exists c :: from <= c < upto && (!fate(c).Works? || drift(c) != map[])
    }

    /** One call: what it asks for is done, unless the call fails first. */
    method Call(a: Action) returns (f: Fate)
      modifies this`calls, this`log
      ensures calls == old(calls) + 1 && f == fate(old(calls))
      ensures log == if f.FailsBefore? then old(log) else old(log) + [a]
    {
      f := fate(calls);
      calls := calls + 1;
      if !f.FailsBefore? {
        log := log + [a];
      }
    }

    /** Any call that only reads or checks. */
    method Check(task: Task) returns (ok: bool)
      modifies this`calls, this`log
      ensures calls > old(calls) && if ok then Worked(old(calls), calls) else Troubled(old(calls), calls)
      ensures Through(old(log), log, [Did(task)], ok)
    {
      var f := Call(Did(task));
      ok := f.Works?;
    }

    method SetWeights(weight: int) returns (ok: bool)
      modifies this`calls, this`stable, this`canary, this`log
      ensures calls >= old(calls) && (ok ==> Worked(old(calls), calls))
      ensures !ok && 0 <= weight <= 100 ==> Troubled(old(calls), calls)
      ensures ok ==> stable == 100 - weight && canary == weight && 0 <= weight <= 100
      ensures Through(old(log), log, [Weights(100 - weight, weight)], ok)
      ensures (stable == old(stable) && canary == old(canary) && log == old(log))
              || (0 <= weight <= 100 && stable == 100 - weight && canary == weight
                  && log == old(log) + [Weights(100 - weight, weight)])
    {
      if !(0 <= weight <= 100) {
        return false;
      }
      var f := Call(Weights(100 - weight, weight));
      if !f.FailsBefore? {
        stable, canary := 100 - weight, weight;
      }
      ok := f.Works?;
    }

    method UpdateService(role: Role, revision: nat) returns (ok: bool)
      modifies this`calls, this`services, this`log
      ensures calls > old(calls) && if ok then Worked(old(calls), calls) else Troubled(old(calls), calls)
      ensures ok ==> services == old(services)[role := revision]
      ensures Through(old(log), log, [Update(role, revision, canary)], ok)
      ensures (services == old(services) && log == old(log))
              || (services == old(services)[role := revision] && log == old(log) + [Update(role, revision, canary)])
    {
      var f := Call(Update(role, revision, canary));
      if !f.FailsBefore? {
        services := services[role := revision];
      }
      ok := f.Works?;
    }

    method SetCanaryDesired(count: nat) returns (ok: bool)
      modifies this`calls, this`canaryDesired, this`log
      ensures calls > old(calls) && if ok then Worked(old(calls), calls) else Troubled(old(calls), calls)
      ensures ok ==> canaryDesired == count
      ensures canaryDesired == old(canaryDesired) || canaryDesired == count
      ensures Through(old(log), log, [Desired(count)], ok)
    {
      var f := Call(Desired(count));
      if !f.FailsBefore? {
        canaryDesired := count;
      }
      ok := f.Works?;
    }

    /** The services stay the ones there are, whatever the platform does to them. */
    method Wait() returns (ok: bool)
      modifies this`calls, this`services, this`log
      ensures calls > old(calls) && if ok then Worked(old(calls), calls) else Troubled(old(calls), calls)
      ensures services.Keys == old(services).Keys
      ensures services != old(services) ==> Troubled(old(calls), calls)
      ensures Through(old(log), log, [Did(Stabilize)], ok)
    {
      var turned := drift(calls);
      var f := Call(Did(Stabilize));
      services := map r | r in services :: if r in turned then turned[r] else services[r];
      ok := f.Works?;
      assert turned == map[] ==> services == old(services);
    }

    method UpdateEach(order: seq<Role>, revisions: Revisions) returns (ok: bool)
      requires AllRoles(services) && AllRoles(revisions)
      modifies this`calls, this`services, this`log
      ensures AllRoles(services) && calls >= old(calls)
      ensures ok ==> Worked(old(calls), calls) && forall r :: r in order ==> services[r] == revisions[r]
      ensures !ok ==> Troubled(old(calls), calls)
      ensures Through(old(log), log, Updates(order, revisions, canary), ok)
    {
      for i := 0 to |order|
        invariant AllRoles(services)
        invariant log == old(log) + Updates(order[..i], revisions, canary)
        invariant calls >= old(calls) && Worked(old(calls), calls)
        invariant forall k :: 0 <= k < i ==> services[order[k]] == revisions[order[k]]
      {
        UpdatesPrefix(order, i, revisions, canary);
        UpdatesGrow(order, i + 1, revisions, canary);
        ok := UpdateService(order[i], revisions[order[i]]);
        if !ok {
          return false;
        }
      }
      assert order[..|order|] == order;
      ok := true;
    }

    /** The wait, and the look at what the services then run. */
    method AwaitFound(revisions: Revisions) returns (ok: bool)
      requires AllRoles(services)
      modifies this`calls, this`services, this`log
      ensures AllRoles(services) && calls >= old(calls)
      ensures ok ==> services == revisions && Worked(old(calls), calls)
      ensures !ok ==> Troubled(old(calls), calls) || old(services) != revisions
      ensures Through(old(log), log, [Did(Stabilize), Did(Found)], ok)
    {
      ok := Wait();
      if !ok {
        return false;
      }
      ok := Check(Found);
      if ok && services != revisions {
        ok := false;
      }
    }

    /** `rollout`: update each role, wait, and believe only what the services are then found to run. */
    method Rollout(order: seq<Role>, revisions: Revisions) returns (ok: bool)
      requires AllRoles(services) && AllRoles(revisions) && forall r: Role :: r in order
      modifies this`calls, this`services, this`log
      ensures AllRoles(services) && calls >= old(calls)
      ensures ok ==> services == revisions && Worked(old(calls), calls)
      ensures !ok ==> Troubled(old(calls), calls)
      ensures Through(old(log), log, Updates(order, revisions, canary) + [Did(Stabilize), Did(Found)], ok)
    {
      ok := UpdateEach(order, revisions);
      if !ok {
        ThroughPart(old(log), log, Updates(order, revisions, canary), [Did(Stabilize), Did(Found)]);
        return false;
      }
      assert services == revisions;
      ghost var updated := log;
      ok := AwaitFound(revisions);
      ThroughTwice(old(log), updated, log, Updates(order, revisions, canary), [Did(Stabilize), Did(Found)], ok);
    }

    /** `rollback_to`: traffic first, then the four prior revisions, then the canary. */
    method RollbackTo(mode: Mode, before: Revisions) returns (ok: bool)
      requires AllRoles(services) && AllRoles(before) && (HasCanary(mode) ==> hasListener)
      modifies this
      ensures AllRoles(services) && calls >= old(calls)
      ensures ok ==> services == before && Worked(old(calls), calls)
      ensures !ok ==> Troubled(old(calls), calls)
      ensures ok && mode != Staging ==> canaryDesired == 0
      ensures ok && hasListener ==> stable == 100 && canary == 0
      ensures Through(old(log), log, RollbackScript(mode, before, hasListener, old(canary)), ok)
    {
      hide Through, Turned, Updates;
      ghost var start := log;
      ghost var first := if hasListener then TRAFFIC_BACK else [];
      ghost var weight := if hasListener then 0 else canary;
      ghost var turned := Turned(Api, Extraction, Materialization, Beat, before, weight);
      ghost var last := if mode == Staging then [] else [Desired(0)];
      FourUpdates(Api, Extraction, Materialization, Beat, before, weight);
      if hasListener {
        ok := SetWeights(0);
        if !ok {
          ThroughPart(start, log, first, turned);
          ThroughPart(start, log, first + turned, last);
          return false;
        }
      } else {
        ThroughNothing(start);
      }
      ghost var mid := log;
      RoleCases();
      ok := Rollout(ROLES, before);
      ThroughTwice(start, mid, log, first, turned, ok);
      if !ok {
        ThroughPart(start, log, first + turned, last);
        return false;
      }
      mid := log;
      if mode != Staging {
        ok := SetCanaryDesired(0);
      } else {
        ThroughNothing(mid);
      }
      ThroughTwice(start, mid, log, first + turned, last, ok);
    }

    /** The new revisions, if every registration works. */
    method RegisterAll(order: seq<Role>) returns (revisions: Option<Revisions>)
      modifies this`calls, this`log
      ensures calls >= old(calls) && if revisions.Some? then Worked(old(calls), calls) else Troubled(old(calls), calls)
      ensures revisions.Some? ==> revisions.value == NewRevisions()
      ensures Through(old(log), log, Registers(order), revisions.Some?)
    {
      for i := 0 to |order|
        invariant calls >= old(calls) && Worked(old(calls), calls)
        invariant log == old(log) + Registers(order[..i])
      {
        RegistersGrow(order, i);
        RegistersGrow(order, i + 1);
        var ok := Check(Register(order[i]));
        if !ok {
          return None;
        }
      }
      assert order[..|order|] == order;
      return Some(NewRevisions());
    }

    function NewRevisions(): (r: Revisions)
      ensures AllRoles(r)
    {
      var all := map[Api := registered(Api), Extraction := registered(Extraction),
                     Materialization := registered(Materialization), Beat := registered(Beat)];
      FourAreAll(all);
      all
    }

    /** Register the new image for every role and roll it out in that order. */
    method RegisterAndRoll(order: seq<Role>) returns (ok: bool)
      requires AllRoles(services) && forall r: Role :: r in order
      modifies this`calls, this`services, this`log
      ensures AllRoles(services) && calls >= old(calls)
      ensures ok ==> services == NewRevisions() && Worked(old(calls), calls)
      ensures !ok ==> Troubled(old(calls), calls)
      ensures Through(old(log), log, Registers(order) + (Updates(order, NewRevisions(), canary) + [Did(Stabilize), Did(Found)]), ok)
    {
      hide Through, Updates, Registers;
      ghost var part := Updates(order, NewRevisions(), canary) + [Did(Stabilize), Did(Found)];
      var revisions := RegisterAll(order);
      if revisions.None? {
        ThroughPart(old(log), log, Registers(order), part);
        return false;
      }
      ghost var mid := log;
      ok := Rollout(order, revisions.value);
      ThroughTwice(old(log), mid, log, Registers(order), part, ok);
    }

    /** The turn to the new image, checked: the readiness window where it is asked for, then the integrity task. */
    method Turn(order: seq<Role>, readiness: bool) returns (ok: bool)
      requires AllRoles(services) && forall r: Role :: r in order
      modifies this`calls, this`services, this`log
      ensures AllRoles(services) && calls >= old(calls)
      ensures ok ==> services == NewRevisions() && Worked(old(calls), calls)
      ensures !ok ==> Troubled(old(calls), calls)
      ensures Through(old(log), log,
                      Registers(order) + (Updates(order, NewRevisions(), canary) + [Did(Stabilize), Did(Found)])
                      + (if readiness then [Did(Probe), Did(Integrity)] else [Did(Integrity)]), ok)
    {
      hide Through, Updates, Registers;
      ghost var turned := Registers(order) + (Updates(order, NewRevisions(), canary) + [Did(Stabilize), Did(Found)]);
      ghost var checked := if readiness then [Did(Probe), Did(Integrity)] else [Did(Integrity)];
      ok := RegisterAndRoll(order);
      if !ok {
        ThroughPart(old(log), log, turned, checked);
        return false;
      }
      ghost var mid := log;
      ok := CheckOutcome(readiness);
      ThroughTwice(old(log), mid, log, turned, checked, ok);
    }

    method CheckOutcome(readiness: bool) returns (ok: bool)
      modifies this`calls, this`log
      ensures calls > old(calls) && if ok then Worked(old(calls), calls) else Troubled(old(calls), calls)
      ensures Through(old(log), log, if readiness then [Did(Probe), Did(Integrity)] else [Did(Integrity)], ok)
    {
      if readiness {
        ok := Check(Probe);
        if !ok {
          return false;
        }
      }
      ok := Check(Integrity);
    }

    predicate AtBaseline()
      reads this
    {
      stable == 100 && canary == 0
    }

    /** A second pair of tasks is brought up beside the stable ones, which must hold all the traffic. */
    method BringUp() returns (ok: bool, changed: bool)
      modifies this`calls, this`canaryDesired, this`log
      ensures calls >= old(calls) && (ok ==> changed && AtBaseline() && Worked(old(calls), calls))
      ensures !ok && AtBaseline() ==> Troubled(old(calls), calls)
      ensures !changed ==> canaryDesired == old(canaryDesired) && !ok
      ensures Through(old(log), log, CANARY_UP, ok)
    {
      changed := false;
      ok := Check(StableTraffic);
      if !ok || !AtBaseline() {
        return false, false;
      }
      ok := Check(Register(Api));
      if !ok {
        return false, false;
      }
      changed := true;
      ok := SetCanaryDesired(2);
      if !ok {
        return false, true;
      }
      ok := Check(CanaryStable);
      if !ok {
        return false, true;
      }
      ok := Check(HealthyCanary);
    }

    /** One step of the traffic, watched. */
    method ShiftOnce(weight: int, minutes: nat) returns (ok: bool)
      requires 0 <= weight <= 100
      modifies this`calls, this`stable, this`canary, this`log
      ensures calls >= old(calls) && if ok then Worked(old(calls), calls) else Troubled(old(calls), calls)
      ensures ok ==> canary == weight && stable == 100 - weight
      ensures Through(old(log), log, [Weights(100 - weight, weight), Did(Watch(minutes))], ok)
    {
      ok := SetWeights(weight);
      if ok {
        ok := Check(Watch(minutes));
      }
    }

    /** The traffic goes over step by step, and is watched at each weight. */
    method Shift(stages: seq<(int, nat)>) returns (ok: bool)
      requires forall w :: w in stages ==> 0 <= w.0 <= 100
      modifies this`calls, this`stable, this`canary, this`log
      ensures calls >= old(calls) && if ok then Worked(old(calls), calls) else Troubled(old(calls), calls)
      ensures ok && stages != [] ==> canary == stages[|stages| - 1].0 && stable == 100 - canary
      ensures Through(old(log), log, Stages(stages), ok)
    {
      for i := 0 to |stages|
        invariant calls >= old(calls) && Worked(old(calls), calls)
        invariant i > 0 ==> canary == stages[i - 1].0 && stable == 100 - canary
        invariant log == old(log) + Stages(stages[..i])
      {
        assert stages[i] in stages;
        StagesGrow(stages, i);
        StagesGrow(stages, i + 1);
        ok := ShiftOnce(stages[i].0, stages[i].1);
        if !ok {
          return false;
        }
      }
      assert stages[..|stages|] == stages;
      ok := true;
    }

    /** The canary half. */
    method TryCanary(stages: seq<(int, nat)>) returns (ok: bool, changed: bool)
      requires forall w :: w in stages ==> 0 <= w.0 <= 100
      modifies this`calls, this`canaryDesired, this`stable, this`canary, this`log
      ensures calls >= old(calls) && (ok ==> changed && old(AtBaseline()) && Worked(old(calls), calls))
      ensures !ok && old(AtBaseline()) ==> Troubled(old(calls), calls)
      ensures !changed ==> canaryDesired == old(canaryDesired) && stable == old(stable) && canary == old(canary) && !ok
      ensures ok && stages != [] ==> canary == stages[|stages| - 1].0 && stable == 100 - canary
      ensures Through(old(log), log, CANARY_UP + Stages(stages), ok)
    {
      hide Through, Stages;
      ok, changed := BringUp();
      if !ok {
        ThroughPart(old(log), log, CANARY_UP, Stages(stages));
        return false, changed;
      }
      ghost var mid := log;
      ok := Shift(stages);
      ThroughTwice(old(log), mid, log, CANARY_UP, Stages(stages), ok);
    }

    /** The traffic goes back, and no canary is wanted any more. */
    method Retire() returns (ok: bool)
      modifies this`calls, this`canaryDesired, this`stable, this`canary, this`log
      ensures calls >= old(calls) && if ok then Worked(old(calls), calls) else Troubled(old(calls), calls)
      ensures ok ==> canaryDesired == 0 && AtBaseline()
      ensures Through(old(log), log, TRAFFIC_BACK + [Desired(0)], ok)
    {
      ok := SetWeights(0);
      if !ok {
        return false;
      }
      ok := SetCanaryDesired(0);
    }

    /** The `try` block in canary and release mode. */
    method Promote(mode: Mode) returns (ok: bool, changed: bool)
      requires AllRoles(services) && HasCanary(mode)
      modifies this
      ensures AllRoles(services)
      ensures calls >= old(calls) && (ok ==> changed && Worked(old(calls), calls))
      ensures !ok && old(AtBaseline()) ==> Troubled(old(calls), calls)
      ensures !changed ==> services == old(services) && canaryDesired == old(canaryDesired)
                           && stable == old(stable) && canary == old(canary)
      ensures ok ==> services == (if mode.Canary? then old(services) else NewRevisions())
      ensures ok ==> canaryDesired == 0 && AtBaseline()
      ensures Through(old(log), log, Script(mode, NewRevisions(), hasListener, old(canary)), ok)
    {
      hide Through, Stages, Updates, Registers, Turned;
      ghost var start := log;
      ghost var stages := if mode.Canary? then CANARY_STAGES else RELEASE_STAGES;
      ghost var turn := if mode.Canary? then []
                        else Registers(RELEASE_ORDER) + (Updates(RELEASE_ORDER, NewRevisions(), 100) + [Did(Stabilize), Did(Found)]) + [Did(Integrity)];
      ghost var last := TRAFFIC_BACK + [Desired(0)];
      PromotionIs(mode, NewRevisions(), hasListener, canary);
      ok, changed := TryCanary(if mode.Canary? then CANARY_STAGES else RELEASE_STAGES);
      if !ok {
        ThroughPart(start, log, CANARY_UP + Stages(stages), turn);
        ThroughPart(start, log, CANARY_UP + Stages(stages) + turn, last);
        return false, changed;
      }
      ghost var mid := log;
      if mode.Release? {
        RoleCases();
        ok := Turn(RELEASE_ORDER, false);
      } else {
        ThroughNothing(mid);
      }
      ThroughTwice(start, mid, log, CANARY_UP + Stages(stages), turn, ok);
      if !ok {
        ThroughPart(start, log, CANARY_UP + Stages(stages) + turn, last);
        return false, true;
      }
      mid := log;
      ok := Retire();
      ThroughTwice(start, mid, log, CANARY_UP + Stages(stages) + turn, last, ok);
    }

    /** The `try` block in staging and rollback mode. */
    method Replace(mode: Mode) returns (ok: bool, changed: bool)
      requires AllRoles(services) && !HasCanary(mode)
      modifies this
      ensures AllRoles(services)
      ensures calls >= old(calls) && (ok ==> changed && Worked(old(calls), calls))
      ensures !ok ==> Troubled(old(calls), calls)
      ensures !changed ==> services == old(services) && canaryDesired == old(canaryDesired)
                           && (AtBaseline() || (stable == old(stable) && canary == old(canary)))
      ensures ok ==> services == NewRevisions()
      ensures ok && mode.Rollback? ==> canaryDesired == 0 && (hasListener ==> AtBaseline())
      ensures Through(old(log), log, Script(mode, NewRevisions(), hasListener, old(canary)), ok)
    {
      hide Through, Updates, Registers, Turned;
      ghost var start := log;
      ghost var first := if mode.Rollback? && hasListener then TRAFFIC_BACK else [];
      ghost var weight := if mode.Rollback? && hasListener then 0 else canary;
      ghost var turn := Registers(ROLES) + (Updates(ROLES, NewRevisions(), weight) + [Did(Stabilize), Did(Found)]) + [Did(Probe), Did(Integrity)];
      ghost var last := if mode.Rollback? then [Desired(0)] else [];
      ReplacementIs(mode, NewRevisions(), hasListener, canary);
      changed := false;
      if mode.Rollback? && hasListener {
        ok := SetWeights(0);
        if !ok {
          ThroughPart(start, log, first, turn);
          ThroughPart(start, log, first + turn, last);
          return false, false;
        }
      } else {
        ThroughNothing(start);
      }
      ghost var mid := log;
      changed := true;
      RoleCases();
      ok := Turn(ROLES, true);
      ThroughTwice(start, mid, log, first, turn, ok);
      if !ok {
        ThroughPart(start, log, first + turn, last);
        return false, true;
      }
      mid := log;
      if mode.Rollback? {
        ok := SetCanaryDesired(0);
      } else {
        ThroughNothing(mid);
      }
      ThroughTwice(start, mid, log, first + turn, last, ok);
    }

    /** The `try` block of `main`: whether it ended normally, and whether it had set `changed`. */
    method Attempt(mode: Mode) returns (ok: bool, changed: bool)
      requires AllRoles(services) && (HasCanary(mode) ==> hasListener)
      modifies this
      ensures AllRoles(services)
      ensures calls >= old(calls) && (ok ==> changed && Worked(old(calls), calls))
      ensures !ok ==> Troubled(old(calls), calls) || (HasCanary(mode) && !old(AtBaseline()))
      ensures !changed ==> services == old(services) && canaryDesired == old(canaryDesired)
                           && (AtBaseline() || (stable == old(stable) && canary == old(canary)))
      ensures ok ==> services == (if mode.Canary? then old(services) else NewRevisions())
      ensures ok && mode != Staging ==> canaryDesired == 0 && (hasListener ==> AtBaseline())
      ensures Through(old(log), log, Script(mode, NewRevisions(), hasListener, old(canary)), ok)
    {
      hide Through, Script;
      if HasCanary(mode) {
        ok, changed := Promote(mode);
      } else {
        ok, changed := Replace(mode);
      }
    }

    /**
     `main`. Whatever fails, a run that succeeds or that completes its rollback leaves the four
     services together on one side, with the traffic back on the stable group and no canary wanted.
     It does its script call by call; if something fails it has done some beginning of it, `tried`
     calls, and then does the rollback's script, or a beginning of that if something fails again.
     */
    method Run(mode: Mode) returns (exit: Exit, ghost tried: nat, ghost attempted: nat)
      requires AllRoles(services) && log == [] && (HasCanary(mode) ==> hasListener)
      modifies this
      ensures exit.Succeeded? ==> services == (if mode.Canary? then old(services) else NewRevisions())
      ensures exit.RolledBack? || exit.Unchanged? ==> services == old(services)
      ensures exit.Unchanged? ==> canaryDesired == old(canaryDesired)
      ensures exit.Unchanged? ==> (AtBaseline() || (stable == old(stable) && canary == old(canary)))
      ensures (exit.Succeeded? || exit.RolledBack?) && mode != Staging ==> canaryDesired == 0
      ensures ((exit.Succeeded? && mode != Staging) || exit.RolledBack?) && hasListener ==> AtBaseline()
      ensures old(calls) <= attempted <= calls && tried <= |log|
      ensures exit.Succeeded? ==> Worked(old(calls), calls)
      ensures !exit.Succeeded? ==> Troubled(old(calls), attempted) || (HasCanary(mode) && !old(AtBaseline()))
      ensures exit.RollbackFailed? ==> Troubled(attempted, calls)
      ensures Through([], log[..tried], Script(mode, NewRevisions(), hasListener, old(canary)), exit.Succeeded?)
      ensures exit.Succeeded? || exit.Unchanged? ==> tried == |log|
      ensures exit.RolledBack? || exit.RollbackFailed? ==>
                exists weight :: Through(log[..tried], log, RollbackScript(mode, old(services), hasListener, weight), exit.RolledBack?)
    {
      hide Script, RollbackScript;
      var before := services;
      var ok, changed := Attempt(mode);
      tried, attempted := |log|, calls;
      ghost var done := log;
      assert done[..tried] == done;
      if ok {
        return Succeeded, tried, attempted;
      }
      if !changed {
        return Unchanged, tried, attempted;
      }
      ghost var weight := canary;
      var restored := RollbackTo(mode, before);
      assert log[..tried] == done;
      assert Through(log[..tried], log, RollbackScript(mode, before, hasListener, weight), restored);
      exit := if restored then RolledBack else RollbackFailed;
    }
  }
}
