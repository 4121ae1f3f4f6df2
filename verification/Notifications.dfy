/** The notification log: each alert's notifications are fires followed by at most one resolve, and
    exactly when a failed commit breaks that. */
module Notifications {
  import opened Basics
  import opened Lifecycle
  import opened Invariants
  import opened Sweeping
  import opened Runs

  /** A resolve follows a fire of the same alert, and nothing about that alert follows it. */
  ghost predicate Grammar(sent: seq<Notification>) {
    forall k :: 0 <= k < |sent| && sent[k].resolved ==>
      && Notification(sent[k].alert, false) in sent[..k]
      && forall j :: k < j < |sent| ==> sent[j].alert != sent[k].alert
  }

  /** The log names existing ids, an alert that was notified about has its fire in the log, and one
      whose resolve is in the log is resolved. */
  ghost predicate Faithful(rows: map<Id, Alert>, nextId: nat, sent: seq<Notification>) {
    && (forall n :: n in sent ==> n.alert.n < nextId)
    && (forall i :: i in rows && rows[i].lastNotified.Some? ==> Notification(i, false) in sent)
    && (forall i :: i in rows && Notification(i, true) in sent ==> rows[i].status == Resolved)
  }

  ghost predicate Log(rows: map<Id, Alert>, nextId: nat, sent: seq<Notification>) {
    Grammar(sent) && Faithful(rows, nextId, sent)
  }

  ghost predicate Logged(w: World) {
    Log(w.rows, w.nextId, w.sent)
  }

  lemma AppendFire(sent: seq<Notification>, id: Id)
    requires Grammar(sent) && Notification(id, true) !in sent
    ensures Grammar(sent + [Notification(id, false)])
  {
    var s := sent + [Notification(id, false)];
    forall k | 0 <= k < |s| && s[k].resolved
      ensures Notification(s[k].alert, false) in s[..k]
      ensures forall j :: k < j < |s| ==> s[j].alert != s[k].alert
    {
      assert s[..k] == sent[..k];
      assert s[k] in sent;
    }
  }

  lemma AppendResolve(sent: seq<Notification>, id: Id)
    requires Grammar(sent) && Notification(id, true) !in sent && Notification(id, false) in sent
    ensures Grammar(sent + [Notification(id, true)])
  {
    var s := sent + [Notification(id, true)];
    forall k | 0 <= k < |s| && s[k].resolved
      ensures Notification(s[k].alert, false) in s[..k]
      ensures forall j :: k < j < |s| ==> s[j].alert != s[k].alert
    {
      if k < |sent| {
        assert s[..k] == sent[..k];
        assert s[k] in sent;
      } else {
        assert s[..k] == sent;
      }
    }
  }

  // ------------------------------------------------------------------ the steps of a pass

  lemma CreateLogs(w: World, p: Pass, fp: Fp, parent: Option<Id>)
    requires Logged(w) && forall i :: i in w.rows ==> i.n < w.nextId
    ensures Logged(Create(w, p, fp, parent))
  {
    if parent.None? { AppendFire(w.sent, Id(w.nextId)); }
  }

  lemma NotifyLogs(w: World, id: Id, a: Alert)
    requires Logged(w) && id in w.rows && id.n < w.nextId && w.rows[id].status != Resolved
    ensures Logged(w.(rows := w.rows[id := a], sent := w.sent + [Notification(id, false)]))
  {
    AppendFire(w.sent, id);
  }

  lemma FireOneLogs(w: World, p: Pass, firing: set<Fp>, b: Breach)
    requires Logged(w) && forall i :: i in w.rows ==> i.n < w.nextId
    ensures Logged(FireOne(w, p, firing, b))
  {
    var fp := Fingerprint(p.rule, b);
    CreateLogs(w, p, fp, ParentOf(p, b));
    forall id | Matches(w.rows, fp, id)
      ensures Logged(Reconsider(w, p, id, ParentOf(p, b)))
    {
      if w.rows[id].status == Suppressed {
        NotifyLogs(w, id, Unsuppressed(w.rows[id]).(lastNotified := Some(p.now)));
      }
    }
  }

  lemma EscalateLogs(w: World, p: Pass, breaching: set<Fp>, id: Id)
    requires Logged(w) && forall i :: i in w.rows ==> i.n < w.nextId
    ensures Logged(EscalateOne(w, p, breaching, id))
  {
    if id in w.rows && w.rows[id].status == Open && p.rule.escalation.Some? {
      NotifyLogs(w, id, w.rows[id].(severity := p.rule.escalation.value.severity, lastNotified := Some(p.now)));
    }
  }

  lemma ResolvedLogs(rows: map<Id, Alert>, nextId: nat, sent: seq<Notification>, id: Id, now: Time, notify: bool)
    requires Log(rows, nextId, sent) && id in rows && id.n < nextId && rows[id].Active()
    requires notify ==> rows[id].lastNotified.Some?
    ensures Log(Revived(rows[id := rows[id].(status := Resolved, resolvedAt := Some(now))], id), nextId,
                if notify then sent + [Notification(id, true)] else sent)
  {
    if notify { AppendResolve(sent, id); }
  }

  lemma ResolveOneLogs(w: World, p: Pass, breaching: set<Fp>, id: Id)
    requires Logged(w) && forall i :: i in w.rows ==> i.n < w.nextId
    ensures Logged(ResolveOne(w, p, breaching, id))
  {
    if id in w.rows && w.rows[id].Active() {
      var a := w.rows[id];
      NotifyLogs(w, id, a.(lastNotified := Some(p.now)));
      ResolvedLogs(w.rows, w.nextId, w.sent, id, p.now, a.lastNotified.Some? && p.rule.notifyOnResolve);
    }
  }

  lemma {:induction false} FireAllLogs(w: World, p: Pass, firing: set<Fp>, breaching: set<Fp>, k: nat)
    requires During(w, p, breaching) && firing <= breaching && Logged(w) && k <= |p.breaches|
    ensures Logged(FireAll(w, p, firing, k))
  {
    if k > 0 {
      FireAllKeeps(w, p, firing, breaching, k - 1);
      FireAllLogs(w, p, firing, breaching, k - 1);
      FireOneLogs(FireAll(w, p, firing, k - 1), p, firing, p.breaches[k - 1]);
    }
  }

  lemma {:induction false} EscalateAllLogs(w: World, p: Pass, breaching: set<Fp>, k: nat)
    requires During(w, p, breaching) && Logged(w) && k <= |p.escalationOrder|
    ensures Logged(EscalateAll(w, p, breaching, k))
  {
    if k > 0 {
      EscalateAllKeeps(w, p, breaching, k - 1);
      EscalateAllLogs(w, p, breaching, k - 1);
      EscalateLogs(EscalateAll(w, p, breaching, k - 1), p, breaching, p.escalationOrder[k - 1]);
    }
  }

  lemma {:induction false} ResolveAllLogs(w: World, p: Pass, breaching: set<Fp>, k: nat)
    requires During(w, p, breaching) && Logged(w) && k <= |p.resolveOrder|
    ensures Logged(ResolveAll(w, p, breaching, k))
  {
    if k > 0 {
      ResolveAllKeeps(w, p, breaching, k - 1);
      ResolveAllLogs(w, p, breaching, k - 1);
      ResolveOneLogs(ResolveAll(w, p, breaching, k - 1), p, breaching, p.resolveOrder[k - 1]);
    }
  }

  lemma RunPassLogs(w: World, p: Pass)
    requires Inv(w) && Logged(w) && ValidPass(w, p)
    ensures Logged(RunPass(w, p))
  {
    if p.anyDevice {
      var breaching := Fps(p.rule, p.breaches);
      GatedKeeps(w, p);
      GateKeeps(w.clocks, p.rule, p.breaches, p.now);
      FireAllLogs(Gated(w, p), p, Firing(w, p), breaching, |p.breaches|);
      FiredKeeps(w, p, |p.breaches|);
      if p.rule.escalation.Some? { EscalateAllLogs(Fired(w, p), p, breaching, |p.escalationOrder|); }
      EscalatedKeeps(w, p);
      ResolveAllLogs(Escalated(w, p), p, breaching, |p.resolveOrder|);
    }
  }

  lemma AttemptLogs(w: World, a: Attempt)
    requires Inv(w) && Logged(w) && ValidAttempt(w, a)
    ensures Logged(Attempted(w, a))
  {
    if a.stop.Some? {
      AttemptKeeps(w, a);
    } else {
      RunPassLogs(w, a.p);
    }
  }

  lemma {:induction false} CycleLogs(w: World, attempts: seq<Attempt>)
    requires Inv(w) && Logged(w) && ValidCycle(w, attempts)
    ensures Logged(Cycle(w, attempts))
    decreases |attempts|
  {
    if attempts != [] {
      AttemptKeeps(w, attempts[0]);
      AttemptLogs(w, attempts[0]);
      CycleLogs(Attempted(w, attempts[0]), attempts[1..]);
    }
  }

  // ------------------------------------------------------------------ a failed commit

  /** The cycle resolved an alert, with a notification, that existed when the cycle began. */
  ghost predicate ResolvesSome(w: World, attempts: seq<Attempt>)
    requires ValidCycle(w, attempts)
  {
    exists i :: i in w.rows && w.rows[i].status != Resolved && Notification(i, true) in Cycle(w, attempts).sent
  }

  /** A cycle that is rolled back leaves the log in order exactly if its notifications were dropped or
      resolve nothing that the rollback brought back. */
  lemma RollBackLogs(w: World, attempts: seq<Attempt>, dispatched: bool)
    requires Inv(w) && Logged(w) && ValidCycle(w, attempts)
    ensures Logged(RolledBack(w, attempts, dispatched)) <==> !dispatched || !ResolvesSome(w, attempts)
  {
    CycleKeeps(w, attempts);
    CycleLogs(w, attempts);
  }

  // ------------------------------------------------------------------ the notification grammar

  /** The notifications of one alert, in order. */
  function Trace(sent: seq<Notification>, id: Id): seq<bool> {
    if sent == [] then []
    else
      var n := sent[|sent| - 1];
      Trace(sent[..|sent| - 1], id) + (if n.alert == id then [n.resolved] else [])
  }

  predicate AllFires(t: seq<bool>) {
    forall k :: 0 <= k < |t| ==> !t[k]
  }

  /** fire*, or fire+ followed by one resolve. */
  predicate WellFormed(t: seq<bool>) {
    AllFires(t) || (|t| >= 2 && AllFires(t[..|t| - 1]) && t[|t| - 1])
  }

  lemma GrammarOfPrefix(sent: seq<Notification>, m: nat)
    requires Grammar(sent) && m <= |sent|
    ensures Grammar(sent[..m])
  {
    forall k | 0 <= k < m && sent[..m][k].resolved
      ensures Notification(sent[..m][k].alert, false) in sent[..m][..k]
      ensures forall j :: k < j < m ==> sent[..m][j].alert != sent[..m][k].alert
    {
      assert sent[..m][..k] == sent[..k] && sent[..m][k] == sent[k];
    }
  }

  /** Nothing about an alert follows its resolve. */
  lemma ResolveWasLast(front: seq<Notification>, n: Notification)
    requires Grammar(front + [n])
    ensures Notification(n.alert, true) !in front
    ensures n.resolved ==> Notification(n.alert, false) in front
  {
    var s := front + [n];
    assert s[|front|] == n && s[..|front|] == front;
    forall k | 0 <= k < |front|
      ensures front[k] != Notification(n.alert, true)
    {
      assert front[k] == s[k];
    }
  }

  lemma {:induction false} TraceOf(sent: seq<Notification>, id: Id)
    requires Grammar(sent)
    ensures WellFormed(Trace(sent, id))
    ensures Notification(id, true) !in sent ==> AllFires(Trace(sent, id))
    ensures Notification(id, false) in sent ==> Trace(sent, id) != []
  {
    if sent != [] {
      var front, n := sent[..|sent| - 1], sent[|sent| - 1];
      assert sent == front + [n];
      GrammarOfPrefix(sent, |sent| - 1);
      TraceOf(front, id);
      if n.alert == id {
        ResolveWasLast(front, n);
        assert (Trace(front, id) + [n.resolved])[..|Trace(front, id)|] == Trace(front, id);
      } else {
        assert Trace(sent, id) == Trace(front, id);
      }
    }
  }

  // ------------------------------------------------------------------ runs

  /** The step is a commit failing after a cycle that resolved something. */
  ghost predicate LosesResolve(w: World, e: Event)
    requires ValidStep(w, e)
  {
    e.RollBack? && e.dispatched && ResolvesSome(w, e.attempts)
  }

  lemma SweepLogs(rows: map<Id, Alert>, nextId: nat, sent: seq<Notification>, h: Sweep)
    requires Log(rows, nextId, sent)
    ensures Log(SweptRows(rows, h), nextId, sent)
  {
    var r := SweptRows(rows, h);
    forall i | i in r
      ensures r[i].lastNotified.Some? ==> Notification(i, false) in sent
      ensures Notification(i, true) in sent ==> r[i].status == Resolved
    {
      SweptRow(rows, h, i);
    }
  }

  lemma UserStepLogs(w: World, e: Event)
    requires Inv(w) && Logged(w) && ValidStep(w, e) && IsUserStep(e)
    ensures Logged(Step(w, e))
  {
    UserStepRewrites(w, e);
  }

  /** A step keeps the log in order exactly if it does not lose a resolve. */
  lemma StepLogs(w: World, e: Event)
    requires Inv(w) && Logged(w) && ValidStep(w, e)
    ensures Logged(Step(w, e)) <==> !LosesResolve(w, e)
  {
    match e
    case Evaluate(p) => RunPassLogs(w, p);
    case AbortEvaluation(p, at) => AttemptLogs(w, Attempt(p, Some(at)));
    case RollBack(attempts, dispatched) => RollBackLogs(w, attempts, dispatched);
    case SweepTables(h) => SweepLogs(w.rows, w.nextId, w.sent, h);
    case Restart(_) =>
    case _ => UserStepLogs(w, e);
  }

  ghost predicate LosesNoResolve(w: World, es: seq<Event>)
    requires ValidRun(w, es)
    decreases |es|
  {
    es == [] || (!LosesResolve(w, es[0]) && LosesNoResolve(Step(w, es[0]), es[1..]))
  }

  lemma {:induction false} RunLogs(w: World, es: seq<Event>)
    requires Inv(w) && Logged(w) && ValidRun(w, es) && LosesNoResolve(w, es)
    ensures Logged(Run(w, es))
    decreases |es|
  {
    if es != [] {
      StepKeeps(w, es[0]);
      StepLogs(w, es[0]);
      RunLogs(Step(w, es[0]), es[1..]);
    }
  }

  /** Over any run in which no commit fails after its cycle resolved something, each alert's
      notifications form fire* or fire+ resolve. */
  lemma NotificationGrammar(es: seq<Event>, id: Id)
    requires ValidRun(INITIAL, es) && LosesNoResolve(INITIAL, es)
    ensures WellFormed(Trace(Run(INITIAL, es).sent, id))
  {
    RunLogs(INITIAL, es);
    TraceOf(Run(INITIAL, es).sent, id);
  }
}
