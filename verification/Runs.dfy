/** Runs of the alert engine: evaluation, aborted evaluation, cycles that are rolled back, user
    actions, housekeeping and restarts in any order. */
module Runs {
  import opened Basics
  import opened Lifecycle
  import opened Invariants
  import opened Sweeping

  datatype Event =
    | Evaluate(p: Pass)
    | AbortEvaluation(p: Pass, at: Abort)
    | RollBack(attempts: seq<Attempt>, dispatched: bool)
    | UserAcknowledge(id: Id, now: Time)
    | UserResolve(id: Id, user: User, now: Time)
    | UserBulk(ids: set<Id>, tenant: Tenant, action: BulkAction, user: User, now: Time)
    | SweepTables(h: Sweep)
    | Restart(now: Time)

  /** The engine as deployed: an empty table and no clocks. */
  const INITIAL := World(map[], 0, NO_CLOCKS, [], [], 0)

  ghost predicate ValidStep(w: World, e: Event) {
    match e
    case Evaluate(p) => ValidPass(w, p)
    case AbortEvaluation(p, at) => ValidPass(w, p) && ValidAbort(p, at)
    case RollBack(attempts, _) => ValidCycle(w, attempts)
    case UserAcknowledge(_, now) => now >= w.now
    case UserResolve(_, _, now) => now >= w.now
    case UserBulk(_, _, _, _, now) => now >= w.now
    case SweepTables(h) => ValidSweep(w, h)
    case Restart(now) => now >= w.now
  }

  ghost function Step(w: World, e: Event): World
    requires ValidStep(w, e)
  {
    match e
    case Evaluate(p) => RunPass(w, p)
    case AbortEvaluation(p, at) => AbortedPass(w, p, at)
    case RollBack(attempts, dispatched) => RolledBack(w, attempts, dispatched)
    case UserAcknowledge(id, now) => w.(rows := Acknowledge(w.rows, id, now).0, now := now)
    case UserResolve(id, user, now) => w.(rows := Resolve(w.rows, id, user, now).0, now := now)
    case UserBulk(ids, tenant, action, user, now) =>
      w.(rows := Bulk(w.rows, ids, tenant, action, user, now), now := now)
    case SweepTables(h) => Housekeep(w, h)
    case Restart(now) => w.(clocks := NO_CLOCKS, now := now)
  }

  ghost predicate ValidRun(w: World, es: seq<Event>)
    decreases |es|
  {
    es == [] || (ValidStep(w, es[0]) && ValidRun(Step(w, es[0]), es[1..]))
  }

  ghost function Run(w: World, es: seq<Event>): World
    requires ValidRun(w, es)
    decreases |es|
  {
    if es == [] then w else Run(Step(w, es[0]), es[1..])
  }

  lemma OneStep(w: World, e: Event)
    requires ValidStep(w, e)
    ensures ValidRun(w, [e]) && Run(w, [e]) == Step(w, e)
  {
    assert [e][1..] == [];
    assert ValidRun(Step(w, e), []) && Run(Step(w, e), []) == Step(w, e);
  }

  lemma {:induction false} RunOn(w: World, es: seq<Event>, es': seq<Event>)
    requires ValidRun(w, es) && ValidRun(Run(w, es), es')
    ensures ValidRun(w, es + es') && Run(w, es + es') == Run(Run(w, es), es')
    decreases |es|
  {
    if es == [] {
      assert es + es' == es';
    } else {
      assert (es + es')[0] == es[0] && (es + es')[1..] == es[1..] + es';
      RunOn(Step(w, es[0]), es[1..], es');
    }
  }

  // ------------------------------------------------------------------ the invariant over runs

  /** What a user action may do to a row. */
  predicate UserRewrites(id: Id, a: Alert, a': Alert, now: Time) {
    && RowOk(id, a', now) && a'.fp == a.fp && a'.lastNotified == a.lastNotified
    && a'.suppressedBy == a.suppressedBy && (a'.Active() ==> a.Active())
    && (a'.status == Suppressed ==> a.status == Suppressed)
  }

  /** What a user action may do to the table. */
  ghost predicate Rewrites(rows: map<Id, Alert>, rows': map<Id, Alert>, now: Time) {
    && rows'.Keys == rows.Keys
    && forall i :: i in rows' ==> UserRewrites(i, rows[i], rows'[i], now)
  }

  lemma RewrittenKeeps(w: World, rows': map<Id, Alert>, now: Time)
    requires Inv(w) && now >= w.now && Rewrites(w.rows, rows', now)
    ensures Inv(w.(rows := rows', now := now))
  {
  }

  lemma UserRowsOk(id: Id, a: Alert, now0: Time, action: BulkAction, user: User, now: Time)
    requires RowOk(id, a, now0) && now >= now0
    ensures UserRewrites(id, a, a, now)
    ensures UserRewrites(id, a, BulkOne(a, action, user, now), now)
    ensures UserRewrites(id, a, a.(status := Resolved, resolvedAt := Some(now), resolvedBy := Some(user)), now)
  {
  }

  predicate IsUserStep(e: Event) {
    e.UserAcknowledge? || e.UserResolve? || e.UserBulk?
  }

  lemma UserStepRewrites(w: World, e: Event)
    requires Inv(w) && ValidStep(w, e) && IsUserStep(e)
    ensures Rewrites(w.rows, Step(w, e).rows, Step(w, e).now) && Step(w, e).now >= w.now
    ensures Step(w, e) == w.(rows := Step(w, e).rows, now := Step(w, e).now)
  {
    var w' := Step(w, e);
    forall i | i in w.rows
      ensures UserRewrites(i, w.rows[i], w'.rows[i], w'.now)
    {
      UserRowsOk(i, w.rows[i], w.now, BulkAcknowledge, 0, w'.now);
      if e.UserResolve? { UserRowsOk(i, w.rows[i], w.now, BulkResolve, e.user, w'.now); }
      if e.UserBulk? { UserRowsOk(i, w.rows[i], w.now, e.action, e.user, w'.now); }
    }
  }

  lemma AttemptKeeps(w: World, a: Attempt)
    requires Inv(w) && ValidAttempt(w, a)
    ensures Inv(Attempted(w, a)) && Evolves(w, Attempted(w, a))
    ensures Attempted(w, a).now >= w.now
  {
    if a.stop.Some? {
      UpToKeeps(w, a.p, a.stop.value);
      UpToEvolves(w, a.p, a.stop.value);
    } else if a.p.anyDevice {
      RunPassKeeps(w, a.p);
      UpToEvolves(w, a.p, WhileResolving(|a.p.resolveOrder|));
    } else {
      LaterKeeps(w, a.p.now);
    }
  }

  /** Every prefix of a cycle keeps the invariant. */
  lemma {:induction false} CycleKeeps(w: World, attempts: seq<Attempt>)
    requires Inv(w) && ValidCycle(w, attempts)
    ensures Inv(Cycle(w, attempts)) && Evolves(w, Cycle(w, attempts))
    ensures Cycle(w, attempts).now >= w.now
    decreases |attempts|
  {
    if attempts != [] {
      AttemptKeeps(w, attempts[0]);
      CycleKeeps(Attempted(w, attempts[0]), attempts[1..]);
      EvolvesTransitive(w, Attempted(w, attempts[0]), Cycle(w, attempts));
    }
  }

  lemma RollBackKeeps(w: World, attempts: seq<Attempt>, dispatched: bool)
    requires Inv(w) && ValidCycle(w, attempts)
    ensures Inv(RolledBack(w, attempts, dispatched)) && Evolves(w, RolledBack(w, attempts, dispatched))
  {
    CycleKeeps(w, attempts);
  }

  lemma StepKeeps(w: World, e: Event)
    requires Inv(w) && ValidStep(w, e)
    ensures Inv(Step(w, e))
  {
    match e
    case Evaluate(p) => RunPassKeeps(w, p);
    case AbortEvaluation(p, at) => AttemptKeeps(w, Attempt(p, Some(at)));
    case RollBack(attempts, dispatched) => RollBackKeeps(w, attempts, dispatched);
    case SweepTables(h) => HousekeepKeeps(w, h);
    case Restart(now) => LaterKeeps(w, now);
    case _ =>
      UserStepRewrites(w, e);
      RewrittenKeeps(w, Step(w, e).rows, Step(w, e).now);
  }

  lemma {:induction false} RunKeeps(w: World, es: seq<Event>)
    requires Inv(w) && ValidRun(w, es)
    ensures Inv(Run(w, es))
    decreases |es|
  {
    if es != [] {
      StepKeeps(w, es[0]);
      RunKeeps(Step(w, es[0]), es[1..]);
    }
  }

  /** In every reachable state, whatever failed on the way: one active alert per fingerprint, an open
      or acknowledged alert has no parent, no alert is its own parent, and engine memory is
      accounted for. */
  lemma Reachable(es: seq<Event>)
    requires ValidRun(INITIAL, es)
    ensures var w := Run(INITIAL, es);
      && OneActive(w.rows)
      && (forall i :: i in w.rows ==>
            && (w.rows[i].status == Suppressed ==> w.rows[i].suppressedBy != Some(i))
            && (w.rows[i].status == Open || w.rows[i].status == Acknowledged ==> w.rows[i].suppressedBy.None?))
      && Remembered(w.clocks)
  {
    RunKeeps(INITIAL, es);
  }

  /** The fingerprint lookup finds at most one alert at every point of every pass of every cycle,
      also one that is rolled back later. */
  lemma LookupFindsAtMostOne(es: seq<Event>, attempts: seq<Attempt>, p: Pass, at: Abort, fp: Fp, i: Id, j: Id)
    requires ValidRun(INITIAL, es) && ValidCycle(Run(INITIAL, es), attempts)
    requires var w := Cycle(Run(INITIAL, es), attempts);
      && ValidPass(w, p) && ValidAbort(p, at)
      && Matches(UpTo(w, p, at).rows, fp, i) && Matches(UpTo(w, p, at).rows, fp, j)
    ensures i == j
  {
    RunKeeps(INITIAL, es);
    CycleKeeps(Run(INITIAL, es), attempts);
    UpToKeeps(Cycle(Run(INITIAL, es), attempts), p, at);
  }

  // ------------------------------------------------------------------ how rows evolve

  /** Acknowledged, or suppressed since an acknowledgement. */
  predicate AckHeld(a: Alert) {
    a.acknowledgedAt.Some? && a.status != Open
  }

  /** What evaluation and user steps may do to the table; notifications are only ever added. */
  ghost predicate Evolves(w: World, w': World) {
    && w.nextId <= w'.nextId && w.sent <= w'.sent
    && (forall i :: i in w.rows ==> i in w'.rows && RowEvolves(w.rows[i], w'.rows[i]))
    && (forall i :: i in w'.rows && i !in w.rows ==> i.n >= w.nextId)
  }

  predicate RowEvolves(a: Alert, a': Alert) {
    && a'.fp == a.fp && a'.tenant == a.tenant && a'.triggeredAt == a.triggeredAt
    && (a.status == Resolved ==> a' == a)
    && (AckHeld(a) ==> AckHeld(a'))
    && (a'.Active() ==> a.Active())
  }

  lemma CreateEvolves(w: World, p: Pass, fp: Fp, parent: Option<Id>)
    requires forall i :: i in w.rows ==> i.n < w.nextId
    ensures Evolves(w, Create(w, p, fp, parent))
  {
  }

  lemma ReconsiderEvolves(w: World, p: Pass, id: Id, parent: Option<Id>)
    requires id in w.rows && RowOk(id, w.rows[id], w.now)
    ensures Evolves(w, Reconsider(w, p, id, parent))
  {
  }

  lemma FireEvolves(w: World, p: Pass, firing: set<Fp>, b: Breach)
    requires Inv(w)
    ensures Evolves(w, FireOne(w, p, firing, b))
  {
    var fp := Fingerprint(p.rule, b);
    CreateEvolves(w, p, fp, ParentOf(p, b));
    if exists id :: Matches(w.rows, fp, id) {
      forall id | Matches(w.rows, fp, id)
        ensures Evolves(w, Reconsider(w, p, id, ParentOf(p, b)))
      {
        ReconsiderEvolves(w, p, id, ParentOf(p, b));
      }
    }
  }

  lemma AutoResolveEvolves(w: World, p: Pass, id: Id)
    requires id in w.rows && w.rows[id].Active()
    ensures Evolves(w, AutoResolve(w, p, id))
  {
  }

  lemma RenotifyEvolves(w: World, p: Pass, id: Id)
    requires id in w.rows && w.rows[id].Active()
    ensures Evolves(w, Renotify(w, p, id))
  {
  }

  lemma ResolveEvolves(w: World, p: Pass, breaching: set<Fp>, id: Id)
    ensures Evolves(w, ResolveOne(w, p, breaching, id))
  {
    if id in w.rows && w.rows[id].Active() {
      var w1 := w.(clocks := w.clocks.(lastSeen := w.clocks.lastSeen[w.rows[id].fp := p.now]));
      AutoResolveEvolves(w1, p, id);
      RenotifyEvolves(w1, p, id);
    }
  }

  lemma EvolvesTransitive(w: World, w1: World, w2: World)
    requires Evolves(w, w1) && Evolves(w1, w2)
    ensures Evolves(w, w2)
  {
  }

  lemma {:induction false} FireAllEvolves(w: World, p: Pass, firing: set<Fp>, breaching: set<Fp>, k: nat)
    requires During(w, p, breaching) && firing <= breaching && k <= |p.breaches|
    ensures Evolves(w, FireAll(w, p, firing, k))
  {
    if k > 0 {
      FireAllEvolves(w, p, firing, breaching, k - 1);
      FireAllKeeps(w, p, firing, breaching, k - 1);
      FireEvolves(FireAll(w, p, firing, k - 1), p, firing, p.breaches[k - 1]);
      EvolvesTransitive(w, FireAll(w, p, firing, k - 1), FireAll(w, p, firing, k));
    }
  }

  lemma {:induction false} EscalateAllEvolves(w: World, p: Pass, breaching: set<Fp>, k: nat)
    requires k <= |p.escalationOrder|
    ensures Evolves(w, EscalateAll(w, p, breaching, k))
  {
    if k > 0 {
      EscalateAllEvolves(w, p, breaching, k - 1);
      EvolvesTransitive(w, EscalateAll(w, p, breaching, k - 1), EscalateAll(w, p, breaching, k));
    }
  }

  lemma {:induction false} ResolveAllEvolves(w: World, p: Pass, breaching: set<Fp>, k: nat)
    requires k <= |p.resolveOrder|
    ensures Evolves(w, ResolveAll(w, p, breaching, k))
  {
    if k > 0 {
      ResolveAllEvolves(w, p, breaching, k - 1);
      ResolveEvolves(ResolveAll(w, p, breaching, k - 1), p, breaching, p.resolveOrder[k - 1]);
      EvolvesTransitive(w, ResolveAll(w, p, breaching, k - 1), ResolveAll(w, p, breaching, k));
    }
  }

  lemma UpToEvolves(w: World, p: Pass, at: Abort)
    requires Inv(w) && p.now >= w.now && LinksKnown(p.links, w.nextId) && ValidAbort(p, at)
    ensures Evolves(w, UpTo(w, p, at))
  {
    if at != BeforeGate {
      var breaching := Fps(p.rule, p.breaches);
      GatedKeeps(w, p);
      GateKeeps(w.clocks, p.rule, p.breaches, p.now);
      FireAllEvolves(Gated(w, p), p, Firing(w, p), breaching, if at.WhileFiring? then at.done else |p.breaches|);
      if at.WhileResolving? {
        EscalateAllEvolves(Fired(w, p), p, breaching, |p.escalationOrder|);
        EvolvesTransitive(w, Fired(w, p), Escalated(w, p));
        ResolveAllEvolves(Escalated(w, p), p, breaching, at.done);
        EvolvesTransitive(w, Escalated(w, p), UpTo(w, p, at));
      }
    }
  }

  lemma UserStepEvolves(w: World, e: Event)
    requires ValidStep(w, e) && (IsUserStep(e) || e.Restart?)
    ensures Evolves(w, Step(w, e))
  {
  }

  lemma StepEvolves(w: World, e: Event)
    requires Inv(w) && ValidStep(w, e) && !e.SweepTables?
    ensures Evolves(w, Step(w, e))
  {
    match e
    case Evaluate(p) =>
      if p.anyDevice { UpToEvolves(w, p, WhileResolving(|p.resolveOrder|)); }
    case AbortEvaluation(p, at) => UpToEvolves(w, p, at);
    case RollBack(attempts, dispatched) => RollBackKeeps(w, attempts, dispatched);
    case _ => UserStepEvolves(w, e);
  }

  /** Between two housekeeping passes an acknowledged alert never returns to open and a resolved
      alert never changes. */
  lemma {:induction false} AcknowledgedNeverReopens(w: World, es: seq<Event>)
    requires Inv(w) && ValidRun(w, es) && forall e :: e in es ==> !e.SweepTables?
    ensures Evolves(w, Run(w, es))
    ensures forall i :: i in w.rows && w.rows[i].status == Acknowledged ==>
              i in Run(w, es).rows && Run(w, es).rows[i].status != Open
    ensures forall i :: i in w.rows && w.rows[i].status == Resolved ==>
              i in Run(w, es).rows && Run(w, es).rows[i] == w.rows[i]
    decreases |es|
  {
    if es != [] {
      StepEvolves(w, es[0]);
      StepKeeps(w, es[0]);
      AcknowledgedNeverReopens(Step(w, es[0]), es[1..]);
      EvolvesTransitive(w, Step(w, es[0]), Run(w, es));
    }
  }

  /** Over any run, housekeeping included, a resolved alert stays resolved until it is deleted, its
      id is never given to another alert, and no step makes an inactive alert active. */
  lemma {:induction false} ResolvedIsAbsorbing(w: World, es: seq<Event>, i: Id)
    requires Inv(w) && ValidRun(w, es) && i.n < w.nextId
    requires i in w.rows ==> w.rows[i].status == Resolved
    ensures i in Run(w, es).rows ==>
      && i in w.rows && Run(w, es).rows[i] == w.rows[i].(suppressedBy := Run(w, es).rows[i].suppressedBy)
    ensures Run(w, es).nextId >= w.nextId
    decreases |es|
  {
    if es != [] {
      StepKeeps(w, es[0]);
      if es[0].SweepTables? {
        if i in Step(w, es[0]).rows { SweptRow(w.rows, es[0].h, i); }
      } else {
        StepEvolves(w, es[0]);
      }
      ResolvedIsAbsorbing(Step(w, es[0]), es[1..], i);
    }
  }

  // ------------------------------------------------------------------ the stability gate

  /** Everything resolved since `w0` was last seen breaching at least the rule's stability time ago,
      and never less than a minute; the numbers are microseconds. */
  ghost predicate StablyResolved(w0: World, w: World, p: Pass) {
    forall i, o :: i in w.rows && w.rows[i].status == Resolved && (i in w0.rows ==> w0.rows[i].status != Resolved)
                   && o in w.seen && w.rows[i].fp in o.breaching ==>
      p.now - o.at >= p.rule.stableForSeconds * 1_000_000 && p.now - o.at >= 60_000_000
  }

  lemma ResolveOneIsStable(w0: World, w: World, p: Pass, breaching: set<Fp>, id: Id)
    requires During(w, p, breaching) && StablyResolved(w0, w, p)
    ensures StablyResolved(w0, ResolveOne(w, p, breaching, id), p)
  {
    var w' := ResolveOne(w, p, breaching, id);
    assert w'.seen == w.seen;
    forall i, o | i in w'.rows && w'.rows[i].status == Resolved && (i in w0.rows ==> w0.rows[i].status != Resolved)
                  && o in w'.seen && w'.rows[i].fp in o.breaching
      ensures p.now - o.at >= p.rule.stableForSeconds * 1_000_000 && p.now - o.at >= 60_000_000
    {
      if i in w.rows && w.rows[i].status == Resolved {
        assert w'.rows[i].fp == w.rows[i].fp;
      } else {
        assert i == id && w.rows[i].fp == w'.rows[i].fp;
      }
    }
  }

  lemma {:induction false} ResolveAllIsStable(w0: World, w: World, p: Pass, breaching: set<Fp>, k: nat)
    requires During(w, p, breaching) && StablyResolved(w0, w, p) && k <= |p.resolveOrder|
    ensures StablyResolved(w0, ResolveAll(w, p, breaching, k), p)
  {
    if k > 0 {
      ResolveAllIsStable(w0, w, p, breaching, k - 1);
      ResolveAllKeeps(w, p, breaching, k - 1);
      ResolveOneIsStable(w0, ResolveAll(w, p, breaching, k - 1), p, breaching, p.resolveOrder[k - 1]);
    }
  }

  /** Firing and escalation resolve nothing. */
  ghost predicate NothingResolved(w0: World, w: World) {
    forall i :: i in w.rows && w.rows[i].status == Resolved ==> i in w0.rows && w0.rows[i].status == Resolved
  }

  lemma {:induction false} FireAllResolvesNothing(w: World, p: Pass, firing: set<Fp>, k: nat)
    requires k <= |p.breaches|
    ensures NothingResolved(w, FireAll(w, p, firing, k))
  {
    if k > 0 {
      FireAllResolvesNothing(w, p, firing, k - 1);
      FireOneResolvesNothing(FireAll(w, p, firing, k - 1), p, firing, p.breaches[k - 1]);
    }
  }

  lemma FireOneResolvesNothing(w: World, p: Pass, firing: set<Fp>, b: Breach)
    ensures NothingResolved(w, FireOne(w, p, firing, b))
  {
  }

  lemma {:induction false} EscalateAllResolvesNothing(w: World, p: Pass, breaching: set<Fp>, k: nat)
    requires k <= |p.escalationOrder|
    ensures NothingResolved(w, EscalateAll(w, p, breaching, k))
  {
    if k > 0 {
      EscalateAllResolvesNothing(w, p, breaching, k - 1);
    }
  }

  lemma PassIsStable(w: World, p: Pass)
    requires Inv(w) && p.now >= w.now && LinksKnown(p.links, w.nextId)
    ensures StablyResolved(w, RunPass(w, p), p)
  {
    if p.anyDevice {
      EscalatedKeeps(w, p);
      FireAllResolvesNothing(Gated(w, p), p, Firing(w, p), |p.breaches|);
      EscalateAllResolvesNothing(Fired(w, p), p, Fps(p.rule, p.breaches), |p.escalationOrder|);
      assert StablyResolved(w, Escalated(w, p), p);
      ResolveAllIsStable(w, Escalated(w, p), p, Fps(p.rule, p.breaches), |p.resolveOrder|);
    }
  }

  /** The stability gate over whole runs: when a pass of any cycle resolves an alert, every pass that
      ever saw its fingerprint breaching, rolled back or not, did so at least max(stable_for, 60)
      seconds earlier. */
  lemma StabilityGate(es: seq<Event>, attempts: seq<Attempt>, p: Pass)
    requires ValidRun(INITIAL, es) && ValidCycle(Run(INITIAL, es), attempts)
    requires ValidPass(Cycle(Run(INITIAL, es), attempts), p)
    ensures var w := Cycle(Run(INITIAL, es), attempts); StablyResolved(w, RunPass(w, p), p)
  {
    RunKeeps(INITIAL, es);
    CycleKeeps(Run(INITIAL, es), attempts);
    PassIsStable(Cycle(Run(INITIAL, es), attempts), p);
  }
}
