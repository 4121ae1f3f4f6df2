/** What every step of the alert engine keeps. */
module Invariants {
  import opened Basics
  import opened Lifecycle

  // ------------------------------------------------------------------ the invariant

  /** Status, pointer and stamps of one row agree. */
  predicate RowOk(id: Id, a: Alert, now: Time) {
    && a.status != Expired
    && (a.status == Suppressed ==> a.suppressedBy != Some(id))
    && (a.status == Open || a.status == Acknowledged ==> a.suppressedBy.None?)
    && (a.status == Acknowledged ==> a.acknowledgedAt.Some?)
    && (a.status == Resolved ==> a.resolvedAt.Some? && a.resolvedAt.value <= now)
    && (a.Active() ==> a.resolvedBy.None?)
  }

  ghost predicate OneActive(rows: map<Id, Alert>) {
    forall i, j :: i in rows && j in rows && rows[i].Active() && rows[j].Active() && rows[i].fp == rows[j].fp ==> i == j
  }

  ghost predicate Table(rows: map<Id, Alert>, nextId: nat, now: Time) {
    && (forall i :: i in rows ==> i.n < nextId && RowOk(i, rows[i], now))
    && OneActive(rows)
  }

  /** Every fingerprint the engine remembers has a last-seen time. */
  predicate Remembered(c: Clocks) {
    c.breachSince.Keys + c.clearSince.Keys + c.lastClear.Keys + c.suppressUntilClear <= c.lastSeen.Keys
  }

  /** A running clear clock started no earlier than the last sighting of the breach. */
  ghost predicate ClearSinceSightings(c: Clocks, seen: seq<Sighting>) {
    forall o, fp :: o in seen && fp in o.breaching && fp in c.clearSince ==> o.at <= c.clearSince[fp]
  }

  ghost predicate Timely(c: Clocks, seen: seq<Sighting>, now: Time) {
    && Remembered(c)
    && ClearSinceSightings(c, seen)
    && (forall fp :: fp in c.lastClear ==> c.lastClear[fp] <= now)
    && (forall o :: o in seen ==> o.at <= now)
  }

  ghost predicate Inv(w: World) {
    Table(w.rows, w.nextId, w.now) && Timely(w.clocks, w.seen, w.now)
  }

  /** Holds between the steps of pass `p`, whose breaching fingerprints are `breaching`. */
  ghost predicate During(w: World, p: Pass, breaching: set<Fp>) {
    && Inv(w) && w.now == p.now && LinksKnown(p.links, w.nextId)
    && breaching <= w.clocks.lastSeen.Keys
  }

  // ------------------------------------------------------------------ the gate

  /** `c'` is `c` after the gate: the clear clocks of the breaching fingerprints are stopped and
      only those fingerprints can have acquired a breach clock. */
  ghost predicate PastGate(c: Clocks, c': Clocks, breaching: set<Fp>) {
    && (forall fp :: fp in c'.clearSince <==> fp in c.clearSince && fp !in breaching)
    && (forall fp :: fp in c'.clearSince ==> c'.clearSince[fp] == c.clearSince[fp])
    && c'.breachSince.Keys <= c.breachSince.Keys + breaching
    && c' == c.(clearSince := c'.clearSince, breachSince := c'.breachSince)
  }

  lemma FpsStep(rule: Rule, breaches: seq<Breach>)
    requires breaches != []
    ensures Fps(rule, breaches) ==
            Fps(rule, breaches[..|breaches| - 1]) + {Fingerprint(rule, breaches[|breaches| - 1])}
  {
    assert breaches == breaches[..|breaches| - 1] + [breaches[|breaches| - 1]];
  }

  lemma GateOneKeeps(c: Clocks, c1: Clocks, rule: Rule, breaching: set<Fp>, fp: Fp, now: Time)
    requires PastGate(c, c1, breaching)
    ensures PastGate(c, GateOne(c1, rule, fp, now).0, breaching + {fp})
  {
  }

  lemma {:induction false} GateKeeps(c: Clocks, rule: Rule, breaches: seq<Breach>, now: Time)
    ensures PastGate(c, GateAll(c, rule, breaches, now).0, Fps(rule, breaches))
    ensures GateAll(c, rule, breaches, now).1 <= Fps(rule, breaches)
  {
    if breaches != [] {
      var front, fp := breaches[..|breaches| - 1], Fingerprint(rule, breaches[|breaches| - 1]);
      var (c1, firing) := GateAll(c, rule, front, now);
      GateKeeps(c, rule, front, now);
      FpsStep(rule, breaches);
      GateOneKeeps(c, c1, rule, Fps(rule, front), fp, now);
    }
  }

  lemma GatedKeeps(w: World, p: Pass)
    requires Inv(w) && p.now >= w.now && LinksKnown(p.links, w.nextId)
    ensures During(Gated(w, p), p, Fps(p.rule, p.breaches))
    ensures Gated(w, p).rows == w.rows && Gated(w, p).nextId == w.nextId && Gated(w, p).sent == w.sent
  {
    GateKeeps(w.clocks, p.rule, p.breaches, p.now);
  }

  // ------------------------------------------------------------------ single steps

  lemma CreatedTable(rows: map<Id, Alert>, nextId: nat, now: Time, a: Alert)
    requires Table(rows, nextId, now) && RowOk(Id(nextId), a, now)
    requires forall id :: !Matches(rows, a.fp, id)
    ensures Table(rows[Id(nextId) := a], nextId + 1, now)
  {
    forall i | i in rows && rows[i].Active()
      ensures rows[i].fp != a.fp
    {
      assert !Matches(rows, a.fp, i);
    }
  }

  lemma CreateKeeps(w: World, p: Pass, fp: Fp, parent: Option<Id>, breaching: set<Fp>)
    requires During(w, p, breaching) && fp in breaching
    requires forall id :: !Matches(w.rows, fp, id)
    requires parent.Some? ==> parent.value.n < w.nextId
    ensures During(Create(w, p, fp, parent), p, breaching)
  {
    CreatedTable(w.rows, w.nextId, w.now, NewAlert(p, fp, parent));
  }

  /** Rewriting one active row with the same fingerprint, well-formed and not yet resolved. */
  lemma RewriteKeeps(w: World, id: Id, a: Alert, sent: seq<Notification>)
    requires Inv(w) && id in w.rows && w.rows[id].Active()
    requires a.Active() && a.fp == w.rows[id].fp && RowOk(id, a, w.now)
    ensures Inv(w.(rows := w.rows[id := a], sent := sent))
  {
  }

  lemma ReconsiderKeeps(w: World, p: Pass, id: Id, parent: Option<Id>, breaching: set<Fp>)
    requires During(w, p, breaching) && id in w.rows && w.rows[id].Active()
    ensures During(Reconsider(w, p, id, parent), p, breaching)
  {
    var a := w.rows[id];
    if a.status == Suppressed {
      RewriteKeeps(w, id, Unsuppressed(a).(lastNotified := Some(p.now)), w.sent + [Notification(id, false)]);
    } else if parent.Some? && parent.value != id {
      RewriteKeeps(w, id, a.(status := Suppressed, suppressedBy := parent), w.sent);
    }
  }

  lemma EscalateKeeps(w: World, p: Pass, breaching: set<Fp>, id: Id)
    requires During(w, p, breaching)
    ensures During(EscalateOne(w, p, breaching, id), p, breaching)
  {
    if id in w.rows && w.rows[id].status == Open && p.rule.escalation.Some? {
      var a := w.rows[id].(severity := p.rule.escalation.value.severity, lastNotified := Some(p.now));
      RewriteKeeps(w, id, a, w.sent + [Notification(id, false)]);
    }
  }

  lemma RenotifyKeeps(w: World, p: Pass, breaching: set<Fp>, id: Id)
    requires During(w, p, breaching) && id in w.rows && w.rows[id].Active()
    ensures During(Renotify(w, p, id), p, breaching)
  {
    RewriteKeeps(w, id, w.rows[id].(lastNotified := Some(p.now)), w.sent + [Notification(id, false)]);
  }

  lemma RevivedKeeps(rows: map<Id, Alert>, nextId: nat, now: Time, parent: Id)
    requires Table(rows, nextId, now)
    ensures Table(Revived(rows, parent), nextId, now)
  {
  }

  lemma ResolvedRowKeeps(rows: map<Id, Alert>, nextId: nat, now: Time, id: Id)
    requires Table(rows, nextId, now) && id in rows
    ensures Table(rows[id := rows[id].(status := Resolved, resolvedAt := Some(now))], nextId, now)
  {
  }

  lemma ForgottenClearKeeps(c: Clocks, seen: seq<Sighting>, now: Time, fp: Fp)
    requires Timely(c, seen, now)
    ensures Timely(Clocks(c.breachSince - {fp}, c.clearSince - {fp}, c.lastClear[fp := now],
                          c.suppressUntilClear - {fp}, c.lastSeen[fp := now]), seen, now)
  {
  }

  lemma AutoResolveKeeps(w: World, p: Pass, breaching: set<Fp>, id: Id)
    requires During(w, p, breaching) && id in w.rows && w.rows[id].Active()
    ensures During(AutoResolve(w, p, id), p, breaching)
  {
    ResolvedRowKeeps(w.rows, w.nextId, w.now, id);
    RevivedKeeps(w.rows[id := w.rows[id].(status := Resolved, resolvedAt := Some(p.now))], w.nextId, w.now, id);
    ForgottenClearKeeps(w.clocks, w.seen, w.now, w.rows[id].fp);
  }

  lemma FireOneKeeps(w: World, p: Pass, firing: set<Fp>, breaching: set<Fp>, b: Breach)
    requires During(w, p, breaching) && firing <= breaching
    ensures During(FireOne(w, p, firing, b), p, breaching)
  {
    var fp := Fingerprint(p.rule, b);
    if fp in firing {
      if exists id :: Matches(w.rows, fp, id) {
        var id :| Matches(w.rows, fp, id) && FireOne(w, p, firing, b) == Reconsider(w, p, id, ParentOf(p, b));
        ReconsiderKeeps(w, p, id, ParentOf(p, b), breaching);
      } else {
        CreateKeeps(w, p, fp, ParentOf(p, b), breaching);
      }
    }
  }

  lemma ResolveOneKeeps(w: World, p: Pass, breaching: set<Fp>, id: Id)
    requires During(w, p, breaching)
    ensures During(ResolveOne(w, p, breaching, id), p, breaching)
  {
    if id in w.rows && w.rows[id].Active() {
      var fp := w.rows[id].fp;
      var w1 := w.(clocks := w.clocks.(lastSeen := w.clocks.lastSeen[fp := p.now]));
      assert During(w1, p, breaching);
      if fp in breaching {
        RenotifyKeeps(w1, p, breaching, id);
      } else if fp in w.clocks.clearSince && p.now - w.clocks.clearSince[fp] >= StableGate(p.rule) {
        AutoResolveKeeps(w1, p, breaching, id);
      }
    }
  }

  // ------------------------------------------------------------------ passes

  lemma {:induction false} FireAllKeeps(w: World, p: Pass, firing: set<Fp>, breaching: set<Fp>, k: nat)
    requires During(w, p, breaching) && firing <= breaching && k <= |p.breaches|
    ensures During(FireAll(w, p, firing, k), p, breaching)
  {
    if k > 0 {
      FireAllKeeps(w, p, firing, breaching, k - 1);
      FireOneKeeps(FireAll(w, p, firing, k - 1), p, firing, breaching, p.breaches[k - 1]);
    }
  }

  lemma {:induction false} EscalateAllKeeps(w: World, p: Pass, breaching: set<Fp>, k: nat)
    requires During(w, p, breaching) && k <= |p.escalationOrder|
    ensures During(EscalateAll(w, p, breaching, k), p, breaching)
  {
    if k > 0 {
      EscalateAllKeeps(w, p, breaching, k - 1);
      EscalateKeeps(EscalateAll(w, p, breaching, k - 1), p, breaching, p.escalationOrder[k - 1]);
    }
  }

  lemma {:induction false} ResolveAllKeeps(w: World, p: Pass, breaching: set<Fp>, k: nat)
    requires During(w, p, breaching) && k <= |p.resolveOrder|
    ensures During(ResolveAll(w, p, breaching, k), p, breaching)
  {
    if k > 0 {
      ResolveAllKeeps(w, p, breaching, k - 1);
      ResolveOneKeeps(ResolveAll(w, p, breaching, k - 1), p, breaching, p.resolveOrder[k - 1]);
    }
  }

  lemma FiredKeeps(w: World, p: Pass, k: nat)
    requires Inv(w) && p.now >= w.now && LinksKnown(p.links, w.nextId) && k <= |p.breaches|
    ensures During(FireAll(Gated(w, p), p, Firing(w, p), k), p, Fps(p.rule, p.breaches))
  {
    GatedKeeps(w, p);
    GateKeeps(w.clocks, p.rule, p.breaches, p.now);
    FireAllKeeps(Gated(w, p), p, Firing(w, p), Fps(p.rule, p.breaches), k);
  }

  /** In particular the fire loop's lookup never has two candidates. */
  lemma FiringOneActive(w: World, p: Pass, firing: set<Fp>, breaching: set<Fp>, k: nat)
    requires During(w, p, breaching) && firing <= breaching && k <= |p.breaches|
    ensures OneActive(FireAll(w, p, firing, k).rows)
  {
    FireAllKeeps(w, p, firing, breaching, k);
  }

  lemma EscalatedKeeps(w: World, p: Pass)
    requires Inv(w) && p.now >= w.now && LinksKnown(p.links, w.nextId)
    ensures During(Escalated(w, p), p, Fps(p.rule, p.breaches))
  {
    FiredKeeps(w, p, |p.breaches|);
    EscalateAllKeeps(Fired(w, p), p, Fps(p.rule, p.breaches), |p.escalationOrder|);
  }

  lemma LaterKeeps(w: World, now: Time)
    requires Inv(w) && now >= w.now
    ensures Inv(w.(now := now))
  {
  }

  /** Wherever a pass has got to, the invariant holds. */
  lemma UpToKeeps(w: World, p: Pass, at: Abort)
    requires Inv(w) && p.now >= w.now && LinksKnown(p.links, w.nextId) && ValidAbort(p, at)
    ensures Inv(UpTo(w, p, at)) && UpTo(w, p, at).now == p.now
  {
    match at
    case BeforeGate => LaterKeeps(w, p.now);
    case WhileFiring(k) => FiredKeeps(w, p, k);
    case WhileResolving(k) =>
      EscalatedKeeps(w, p);
      ResolveAllKeeps(Escalated(w, p), p, Fps(p.rule, p.breaches), k);
  }

  lemma RunPassKeeps(w: World, p: Pass)
    requires Inv(w) && p.now >= w.now && LinksKnown(p.links, w.nextId)
    ensures Inv(RunPass(w, p)) && RunPass(w, p).now == p.now
  {
    if p.anyDevice {
      UpToKeeps(w, p, WhileResolving(|p.resolveOrder|));
    } else {
      LaterKeeps(w, p.now);
    }
  }
}
