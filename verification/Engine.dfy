/** The alert engine and the alerts table as objects updated in place, proved to compute the
    functions of `Lifecycle.dfy`. */
module Engine {
  import opened Basics
  import opened Suppression
  import opened Lifecycle
  import opened Invariants
  import opened Runs
  import opened Outcomes
  import opened AutoResolution

  /** Of the rows, only that of `id` changed, and of that one neither identity, history of
      notifications nor parent. */
  ghost predicate Only(rows: map<Id, Alert>, rows': map<Id, Alert>, id: Id) {
    && rows'.Keys == rows.Keys && id in rows
    && (forall j :: j in rows && j != id ==> rows'[j] == rows[j])
    && rows'[id].fp == rows[id].fp && rows'[id].tenant == rows[id].tenant
    && rows'[id].severity == rows[id].severity && rows'[id].triggeredAt == rows[id].triggeredAt
    && rows'[id].lastNotified == rows[id].lastNotified && rows'[id].suppressedBy == rows[id].suppressedBy
  }

  /** Well-formed rows stay well-formed as time goes on. */
  lemma RowsStayOk(rows: map<Id, Alert>, now: Time)
    ensures forall i, t :: i in rows && t <= now && RowOk(i, rows[i], t) ==> RowOk(i, rows[i], now)
  {
  }

  /** What a bulk action makes of an alert of the tenant that was selected, or of any other: it
      acknowledges open alerts, or resolves open and acknowledged ones, and stamps them. */
  predicate BulkOutcome(a: Alert, a': Alert, selected: bool, action: BulkAction, user: User, now: Time) {
    a' == if selected && a.status == Open && action == BulkAcknowledge
          then a.(status := Acknowledged, acknowledgedAt := Some(now))
          else if selected && (a.status == Open || a.status == Acknowledged) && action == BulkResolve
          then a.(status := Resolved, resolvedAt := Some(now), resolvedBy := Some(user))
          else a
  }

  ghost predicate BulkOutcomes(rows: map<Id, Alert>, rows': map<Id, Alert>, ids: set<Id>, tenant: Tenant,
                               action: BulkAction, user: User, now: Time)
  {
    && rows'.Keys == rows.Keys
    && forall i :: i in rows ==>
         BulkOutcome(rows[i], rows'[i], i in ids && rows[i].tenant == tenant, action, user, now)
  }

  lemma BulkMeans(rows: map<Id, Alert>, ids: set<Id>, tenant: Tenant, action: BulkAction, user: User, now: Time)
    ensures BulkOutcomes(rows, Bulk(rows, ids, tenant, action, user, now), ids, tenant, action, user, now)
  {
  }

  /** The alerts table. */
  class AlertsTable {
    var rows: map<Id, Alert>
    var nextId: nat

    constructor ()
      ensures rows == map[] && nextId == 0
    {
      rows, nextId := map[], 0;
    }

    /** POST /alerts/{id}/acknowledge */
    method AcknowledgeAlert(id: Id, now: Time) returns (outcome: Outcome)
      modifies this`rows
      ensures (rows, outcome) == Acknowledge(old(rows), id, now)
      ensures outcome == NotFound <==> id !in old(rows)
      ensures outcome == Done <==> id in old(rows) && old(rows)[id].status == Open
      ensures outcome.Conflict? ==> outcome.status == old(rows)[id].status != Open
      ensures outcome != Done ==> rows == old(rows)
      ensures outcome == Done ==> Only(old(rows), rows, id) &&
                                  rows[id].status == Acknowledged && rows[id].acknowledgedAt == Some(now)
      ensures forall t :: Table(old(rows), nextId, t) && t <= now ==> Table(rows, nextId, now)
    {
      RowsStayOk(rows, now);
      if id !in rows { return NotFound; }
      if rows[id].status != Open { return Conflict(rows[id].status); }
      rows := rows[id := rows[id].(status := Acknowledged, acknowledgedAt := Some(now))];
      outcome := Done;
    }

    /** POST /alerts/{id}/resolve */
    method ResolveAlert(id: Id, user: User, now: Time) returns (outcome: Outcome)
      modifies this`rows
      ensures (rows, outcome) == Resolve(old(rows), id, user, now)
      ensures outcome == NotFound <==> id !in old(rows)
      ensures outcome == Done <==> id in old(rows) && old(rows)[id].status != Resolved
      ensures outcome != Done ==> rows == old(rows)
      ensures outcome == Done ==> Only(old(rows), rows, id) && rows[id].status == Resolved &&
                                  rows[id].resolvedAt == Some(now) && rows[id].resolvedBy == Some(user)
      ensures forall t :: Table(old(rows), nextId, t) && t <= now ==> Table(rows, nextId, now)
    {
      RowsStayOk(rows, now);
      if id !in rows { return NotFound; }
      if rows[id].status == Resolved { return Conflict(Resolved); }
      rows := rows[id := rows[id].(status := Resolved, resolvedAt := Some(now), resolvedBy := Some(user))];
      outcome := Done;
    }

    /** POST /alerts/bulk: the loop over the selected alerts, counting those changed. */
    method BulkAlertAction(ids: set<Id>, tenant: Tenant, action: BulkAction, user: User, now: Time)
        returns (updated: nat)
      modifies this`rows
      ensures rows == Bulk(old(rows), ids, tenant, action, user, now)
      ensures updated == |set i | i in old(rows) && rows[i] != old(rows)[i]|
      ensures BulkOutcomes(old(rows), rows, ids, tenant, action, user, now)
    {
      var todo := set i | i in ids && i in rows && rows[i].tenant == tenant;
      ghost var changed: set<Id> := {};
      updated := 0;
      while todo != {}
        invariant todo <= ids && rows.Keys == old(rows).Keys
        invariant forall i :: i in todo ==> i in rows && rows[i] == old(rows)[i] && rows[i].tenant == tenant
        invariant forall i :: i in rows && i !in todo ==>
          rows[i] == if i in ids && old(rows)[i].tenant == tenant
                     then BulkOne(old(rows)[i], action, user, now) else old(rows)[i]
        invariant forall i :: i in changed <==> i in old(rows) && rows[i] != old(rows)[i]
        invariant updated == |changed|
        decreases todo
      {
        var i :| i in todo;
        todo := todo - {i};
        var a := BulkOne(rows[i], action, user, now);
        if a != rows[i] {
          changed := changed + {i};
          updated := updated + 1;
        }
        rows := rows[i := a];
      }
      assert changed == set i | i in old(rows) && rows[i] != old(rows)[i];
      assert rows == Bulk(old(rows), ids, tenant, action, user, now);
      BulkMeans(old(rows), ids, tenant, action, user, now);
    }
  }

  lemma StampNone(m: map<Fp, Time>, now: Time)
    ensures Stamp(m, {}, now) == m
  {
  }

  lemma StampOne(m: map<Fp, Time>, fps: set<Fp>, fp: Fp, now: Time)
    ensures Stamp(m, fps + {fp}, now) == Stamp(m, fps, now)[fp := now]
  {
  }

  lemma NothingReleased(c: Clocks, breaching: set<Fp>, now: Time)
    ensures Release(c, breaching + c.suppressUntilClear, now) == c
  {
    assert c.suppressUntilClear - (breaching + c.suppressUntilClear) == {};
    assert c.suppressUntilClear * (breaching + c.suppressUntilClear) == c.suppressUntilClear;
    StampNone(c.lastClear, now);
    StampNone(c.lastSeen, now);
  }

  /** Releasing with one fingerprint fewer still to look at. */
  lemma ReleaseStep(c: Clocks, breaching: set<Fp>, todo: set<Fp>, fp: Fp, now: Time)
    requires fp in todo && todo <= c.suppressUntilClear
    ensures var r := Release(c, breaching + todo, now);
      Release(c, breaching + (todo - {fp}), now) ==
      if fp in breaching then r
      else r.(suppressUntilClear := r.suppressUntilClear - {fp},
              lastClear := r.lastClear[fp := now], lastSeen := r.lastSeen[fp := now])
  {
    var before, after := breaching + todo, breaching + (todo - {fp});
    if fp in breaching {
      assert before == after;
    } else {
      assert c.suppressUntilClear * after == c.suppressUntilClear * before - {fp};
      assert c.suppressUntilClear - after == c.suppressUntilClear - before + {fp};
      StampOne(c.lastClear, c.suppressUntilClear - before, fp, now);
      StampOne(c.lastSeen, c.suppressUntilClear - before, fp, now);
    }
  }

  class AlertEngine {
    var breachSince: map<Fp, Time>
    var clearSince: map<Fp, Time>
    var lastClear: map<Fp, Time>
    var suppressUntilClear: set<Fp>
    var fpLastSeen: map<Fp, Time>

    constructor ()
      ensures Snapshot() == NO_CLOCKS
    {
      breachSince, clearSince, lastClear := map[], map[], map[];
      suppressUntilClear, fpLastSeen := {}, map[];
    }

    function Snapshot(): Clocks
      reads this
    {
      Clocks(breachSince, clearSince, lastClear, suppressUntilClear, fpLastSeen)
    }

    /** The gate loop, the last-seen refresh and the release of manual-resolve holds. */
    method Gate(p: Pass) returns (breaching: set<Fp>, firing: set<Fp>)
      modifies this
      ensures breaching == Fps(p.rule, p.breaches)
      ensures var (c, f) := GateAll(old(Snapshot()), p.rule, p.breaches, p.now);
        firing == f && Snapshot() == Release(Touch(c, breaching, p.now), breaching, p.now)
      ensures forall fp :: fp in breaching <==> Breaching(p, fp)
      ensures forall fp :: GatedOf(old(Snapshot()), Snapshot(), p, firing, fp)
    {
      breaching, firing := GateLoop(p);
      TouchAll(breaching, p.now);
      ReleaseAll(breaching, p.now);
      forall fp
        ensures fp in breaching <==> Breaching(p, fp)
        ensures GatedOf(old(Snapshot()), Snapshot(), p, firing, fp)
      {
        BreachingIsFps(p, fp);
        GateMeans(old(Snapshot()), p, fp);
      }
    }

    method GateLoop(p: Pass) returns (breaching: set<Fp>, firing: set<Fp>)
      modifies this`breachSince, this`clearSince
      ensures breaching == Fps(p.rule, p.breaches)
      ensures (Snapshot(), firing) == GateAll(old(Snapshot()), p.rule, p.breaches, p.now)
    {
      breaching, firing := {}, {};
      for k := 0 to |p.breaches|
        invariant breaching == Fps(p.rule, p.breaches[..k])
        invariant (Snapshot(), firing) == GateAll(old(Snapshot()), p.rule, p.breaches[..k], p.now)
      {
        var fp := Fingerprint(p.rule, p.breaches[k]);
        assert p.breaches[..k + 1][..k] == p.breaches[..k];
        FpsStep(p.rule, p.breaches[..k + 1]);
        breaching := breaching + {fp};
        clearSince := clearSince - {fp};
        if p.rule.durationSeconds > 0 && p.rule.metric != InterfaceFlap {
          if fp !in breachSince {
            breachSince := breachSince[fp := p.now];
            continue;
          }
          if p.now - breachSince[fp] < p.rule.durationSeconds * SECOND { continue; }
        } else {
          breachSince := breachSince - {fp};
        }
        firing := firing + {fp};
      }
      assert p.breaches[..|p.breaches|] == p.breaches;
    }

    method TouchAll(breaching: set<Fp>, now: Time)
      modifies this`fpLastSeen
      ensures Snapshot() == Touch(old(Snapshot()), breaching, now)
    {
      var todo := breaching;
      assert breaching - todo == {};
      StampNone(fpLastSeen, now);
      while todo != {}
        invariant todo <= breaching
        invariant fpLastSeen == Stamp(old(fpLastSeen), breaching - todo, now)
        decreases todo
      {
        var fp :| fp in todo;
        StampOne(old(fpLastSeen), breaching - todo, fp, now);
        assert breaching - (todo - {fp}) == breaching - todo + {fp};
        todo := todo - {fp};
        fpLastSeen := fpLastSeen[fp := now];
      }
      assert breaching - {} == breaching;
    }

    method ReleaseAll(breaching: set<Fp>, now: Time)
      modifies this`suppressUntilClear, this`lastClear, this`fpLastSeen
      ensures Snapshot() == Release(old(Snapshot()), breaching, now)
    {
      ghost var c := Snapshot();
      var todo, held, clear, seen := suppressUntilClear, suppressUntilClear, lastClear, fpLastSeen;
      NothingReleased(c, breaching, now);
      while todo != {}
        invariant todo <= c.suppressUntilClear
        invariant c.(suppressUntilClear := held, lastClear := clear, lastSeen := seen)
                  == Release(c, breaching + todo, now)
        decreases todo
      {
        var fp :| fp in todo;
        ReleaseStep(c, breaching, todo, fp, now);
        todo := todo - {fp};
        if fp !in breaching {
          held, clear, seen := held - {fp}, clear[fp := now], seen[fp := now];
        }
      }
      assert breaching + {} == breaching;
      suppressUntilClear, lastClear, fpLastSeen := held, clear, seen;
    }

    /** The world made of this engine, a table and the two histories. */
    function View(db: AlertsTable, sent: seq<Notification>, seen: seq<Sighting>, now: Time): World
      reads this, db
    {
      World(db.rows, db.nextId, Snapshot(), sent, seen, now)
    }

    /** One breach of the fire loop. */
    method Fire(db: AlertsTable, p: Pass, firing: set<Fp>, b: Breach, ghost w: World)
        returns (notify: seq<Notification>)
      requires View(db, w.sent, w.seen, w.now) == w && OneActive(w.rows)
      modifies this`suppressUntilClear, db
      ensures View(db, w.sent + notify, w.seen, w.now) == FireOne(w, p, firing, b)
      ensures FireOutcome(w, View(db, w.sent + notify, w.seen, w.now), p, firing, b)
    {
      FireMeans(w, p, firing, b);
      notify := [];
      var fp := Fingerprint(p.rule, b);
      if fp !in firing { return; }
      var parent := ParentOf(p, b);
      if id :| id in db.rows && Matches(db.rows, fp, id) {
        var a := db.rows[id];
        if parent == Some(id) { parent := None; }
        if a.status == Suppressed {
          if parent.None? {
            db.rows := db.rows[id := a.(status := if a.acknowledgedAt.Some? then Acknowledged else Open,
                                        suppressedBy := None, lastNotified := Some(p.now))];
            notify := [Notification(id, false)];
          }
        } else if parent.Some? {
          db.rows := db.rows[id := a.(status := Suppressed, suppressedBy := parent)];
        }
      } else {
        if fp in suppressUntilClear { return; }
        if HeldByRow(db.rows, lastClear, fp) {
          suppressUntilClear := suppressUntilClear + {fp};
          return;
        }
        db.rows := db.rows[Id(db.nextId) := NewAlert(p, fp, parent)];
        if parent.None? { notify := [Notification(Id(db.nextId), false)]; }
        db.nextId := db.nextId + 1;
      }
    }

    /** One alert of the escalation loop. */
    method Escalate(db: AlertsTable, p: Pass, breaching: set<Fp>, id: Id, ghost w: World)
        returns (notify: seq<Notification>)
      requires View(db, w.sent, w.seen, w.now) == w
      modifies db`rows
      ensures View(db, w.sent + notify, w.seen, w.now) == EscalateOne(w, p, breaching, id)
    {
      notify := [];
      if id in db.rows && db.rows[id].fp in breaching && p.rule.escalation.Some? && db.rows[id].status == Open
         && p.now - db.rows[id].triggeredAt >= p.rule.escalation.value.seconds * SECOND
      {
        var a := db.rows[id];
        db.rows := db.rows[id := a.(severity := p.rule.escalation.value.severity, lastNotified := Some(p.now))];
        notify := [Notification(id, false)];
      }
    }

    /** One alert of the auto-resolve loop. */
    method AutoResolveOne(db: AlertsTable, p: Pass, breaching: set<Fp>, id: Id, ghost w: World)
        returns (notify: seq<Notification>)
      requires View(db, w.sent, w.seen, w.now) == w
      modifies this, db`rows
      ensures View(db, w.sent + notify, w.seen, w.now) == ResolveOne(w, p, breaching, id)
      ensures if id in w.rows && w.rows[id].Active()
              then TurnOutcome(w, View(db, w.sent + notify, w.seen, w.now), p, breaching, id)
              else View(db, w.sent + notify, w.seen, w.now) == w
    {
      if id in w.rows && w.rows[id].Active() { TurnMeans(w, p, breaching, id); }
      notify := [];
      if id !in db.rows || !db.rows[id].Active() { return; }
      var a := db.rows[id];
      var fp := a.fp;
      fpLastSeen := fpLastSeen[fp := p.now];
      if fp in breaching {
        if a.status == Suppressed { return; }
        if p.rule.renotifySeconds > 0 && a.lastNotified.Some? {
          if p.now - a.lastNotified.value >= p.rule.renotifySeconds * SECOND {
            db.rows := db.rows[id := a.(lastNotified := Some(p.now))];
            notify := [Notification(id, false)];
          }
        }
        return;
      }
      if fp !in clearSince {
        clearSince := clearSince[fp := p.now];
        return;
      }
      if p.now - clearSince[fp] < StableGate(p.rule) { return; }
      db.rows := db.rows[id := a.(status := Resolved, resolvedAt := Some(p.now))];
      breachSince, clearSince := breachSince - {fp}, clearSince - {fp};
      lastClear, fpLastSeen := lastClear[fp := p.now], fpLastSeen[fp := p.now];
      suppressUntilClear := suppressUntilClear - {fp};
      Cascade(db, id);
      if a.lastNotified.Some? && p.rule.notifyOnResolve {
        notify := [Notification(id, true)];
      }
    }

    /** Bring the children of a resolved parent back. */
    method Cascade(db: AlertsTable, parent: Id)
      modifies db`rows
      ensures db.rows == Revived(old(db.rows), parent)
    {
      var rows := db.rows;
      var todo := set i | i in rows && rows[i].suppressedBy == Some(parent) && rows[i].status == Suppressed;
      while todo != {}
        invariant rows.Keys == old(db.rows).Keys
        invariant forall i :: i in todo ==>
          && i in rows && rows[i] == old(db.rows)[i]
          && rows[i].suppressedBy == Some(parent) && rows[i].status == Suppressed
        invariant forall i :: i in rows && i !in todo ==> rows[i] == Revived(old(db.rows), parent)[i]
        decreases todo
      {
        var i :| i in todo;
        todo := todo - {i};
        rows := rows[i := Unsuppressed(rows[i]).(lastNotified := None)];
      }
      db.rows := rows;
    }

    /** The fire loop, up to the breach at which an exception is raised, if any. */
    method FireLoop(db: AlertsTable, p: Pass, firing: set<Fp>, upTo: nat, ghost breaching: set<Fp>, ghost w: World)
        returns (pending: seq<Notification>)
      requires During(w, p, breaching) && firing <= breaching && upTo <= |p.breaches|
      requires View(db, w.sent, w.seen, w.now) == w
      modifies this`suppressUntilClear, db
      ensures View(db, w.sent + pending, w.seen, w.now) == FireAll(w, p, firing, upTo)
    {
      pending := [];
      assert w.sent + [] == w.sent;
      for k := 0 to upTo
        invariant View(db, w.sent + pending, w.seen, w.now) == FireAll(w, p, firing, k)
      {
        ghost var w1 := FireAll(w, p, firing, k);
        FiringOneActive(w, p, firing, breaching, k);
        var notify := Fire(db, p, firing, p.breaches[k], w1);
        assert w.sent + (pending + notify) == w1.sent + notify;
        pending := pending + notify;
      }
    }

    method EscalateLoop(db: AlertsTable, p: Pass, breaching: set<Fp>, ghost w: World)
        returns (pending: seq<Notification>)
      requires View(db, w.sent, w.seen, w.now) == w
      modifies db`rows
      ensures View(db, w.sent + pending, w.seen, w.now) == EscalateAll(w, p, breaching, |p.escalationOrder|)
    {
      pending := [];
      assert w.sent + [] == w.sent;
      for k := 0 to |p.escalationOrder|
        invariant View(db, w.sent + pending, w.seen, w.now) == EscalateAll(w, p, breaching, k)
      {
        ghost var w1 := EscalateAll(w, p, breaching, k);
        var notify := Escalate(db, p, breaching, p.escalationOrder[k], w1);
        assert w.sent + (pending + notify) == w1.sent + notify;
        pending := pending + notify;
      }
    }

    method ResolveLoop(db: AlertsTable, p: Pass, breaching: set<Fp>, upTo: nat, ghost w: World)
        returns (pending: seq<Notification>)
      requires View(db, w.sent, w.seen, w.now) == w && upTo <= |p.resolveOrder|
      modifies this, db`rows
      ensures View(db, w.sent + pending, w.seen, w.now) == ResolveAll(w, p, breaching, upTo)
    {
      pending := [];
      assert w.sent + [] == w.sent;
      for k := 0 to upTo
        invariant View(db, w.sent + pending, w.seen, w.now) == ResolveAll(w, p, breaching, k)
      {
        ghost var w1 := ResolveAll(w, p, breaching, k);
        var notify := AutoResolveOne(db, p, breaching, p.resolveOrder[k], w1);
        assert w.sent + (pending + notify) == w1.sent + notify;
        pending := pending + notify;
      }
    }

    /** One rule, one pass.  `stop` says where, if anywhere, an exception is raised; `raised` reports
        it to the caller, who holds the savepoint. */
    method EvaluateRule(db: AlertsTable, p: Pass, stop: Option<Abort>, ghost w: World)
        returns (pending: seq<Notification>, raised: bool)
      requires View(db, w.sent, w.seen, w.now) == w
      requires Inv(w) && p.now >= w.now && LinksKnown(p.links, w.nextId)
      requires stop.Some? ==> ValidAbort(p, stop.value)
      modifies this, db
      ensures raised == stop.Some?
      ensures var w' := if raised then UpTo(w, p, stop.value) else RunPass(w, p);
        View(db, w.sent + pending, w'.seen, p.now) == w'
      ensures !raised && ValidPass(w, p) && p.anyDevice ==>
        ResolvesIfDue(w, View(db, w.sent + pending, RunPass(w, p).seen, p.now), p)
    {
      if ValidPass(w, p) && p.anyDevice { PassResolves(w, p); }
      pending, raised := [], stop.Some?;
      assert w.sent + [] == w.sent;
      if stop == Some(BeforeGate) || !p.anyDevice { return; }
      var firingOnly := stop.Some? && stop.value.WhileFiring?;
      var breaching;
      breaching, pending := GateAndFire(db, p, if firingOnly then stop.value.done else |p.breaches|, w);
      if !firingOnly {
        var more := AfterFiring(db, p, breaching, if stop.Some? then stop.value.done else |p.resolveOrder|, w);
        assert w.sent + (pending + more) == Fired(w, p).sent + more;
        pending := pending + more;
      }
    }

    /** The gate and the fire loop. */
    method GateAndFire(db: AlertsTable, p: Pass, upTo: nat, ghost w: World)
        returns (breaching: set<Fp>, pending: seq<Notification>)
      requires View(db, w.sent, w.seen, w.now) == w && upTo <= |p.breaches|
      requires Inv(w) && p.now >= w.now && LinksKnown(p.links, w.nextId)
      modifies this, db
      ensures breaching == Fps(p.rule, p.breaches)
      ensures View(db, w.sent + pending, Gated(w, p).seen, p.now) == FireAll(Gated(w, p), p, Firing(w, p), upTo)
      ensures FireAll(Gated(w, p), p, Firing(w, p), upTo).sent == w.sent + pending
    {
      var firing;
      breaching, firing := Gate(p);
      GatedKeeps(w, p);
      GateKeeps(w.clocks, p.rule, p.breaches, p.now);
      pending := FireLoop(db, p, firing, upTo, breaching, Gated(w, p));
    }

    /** The escalation and auto-resolve loops. */
    method AfterFiring(db: AlertsTable, p: Pass, breaching: set<Fp>, upTo: nat, ghost w: World)
        returns (pending: seq<Notification>)
      requires var w2 := Fired(w, p); View(db, w2.sent, w2.seen, w2.now) == w2
      requires breaching == Fps(p.rule, p.breaches) && upTo <= |p.resolveOrder|
      modifies this, db`rows
      ensures View(db, Fired(w, p).sent + pending, Fired(w, p).seen, Fired(w, p).now)
              == ResolveAll(Escalated(w, p), p, breaching, upTo)
    {
      ghost var w2, w3 := Fired(w, p), Escalated(w, p);
      pending := [];
      assert w2.sent + [] == w2.sent;
      if p.rule.escalation.Some? {
        pending := EscalateLoop(db, p, breaching, w2);
      }
      var more := ResolveLoop(db, p, breaching, upTo, w3);
      assert w2.sent + (pending + more) == w3.sent + more;
      pending := pending + more;
    }

    /** The caller's savepoint: a pass that raises loses its table changes and its notifications.
        Either way the invariant holds afterwards, and what the pass resolved had been clear for the
        whole stability gate. */
    method EvaluateGuarded(db: AlertsTable, p: Pass, stop: Option<Abort>, ghost w: World)
        returns (pending: seq<Notification>)
      requires View(db, w.sent, w.seen, w.now) == w
      requires Inv(w) && p.now >= w.now && LinksKnown(p.links, w.nextId)
      requires stop.Some? ==> ValidAbort(p, stop.value)
      modifies this, db
      ensures var w' := if stop.Some? then AbortedPass(w, p, stop.value) else RunPass(w, p);
        View(db, w.sent + pending, w'.seen, p.now) == w' && Inv(w') && StablyResolved(w, w', p)
      ensures stop.Some? ==> db.rows == old(db.rows) && pending == []
      ensures OneActive(db.rows)
    {
      GuardedKeeps(w, p, stop);
      var saved := db.rows;
      var raised;
      pending, raised := EvaluateRule(db, p, stop, w);
      if raised {
        db.rows := saved;
        pending := [];
        assert w.sent + [] == w.sent;
      }
    }

    method EvaluateOne(db: AlertsTable, a: Attempt, ghost w: World)
        returns (pending: seq<Notification>, ghost w': World)
      requires View(db, w.sent, w.seen, w.now) == w && Inv(w) && ValidAttempt(w, a)
      modifies this, db
      ensures w' == Attempted(w, a) && w'.sent == w.sent + pending
      ensures View(db, w'.sent, w'.seen, w'.now) == w' && Inv(w')
    {
      w' := Attempted(w, a);
      AttemptKeeps(w, a);
      pending := EvaluateGuarded(db, a.p, a.stop, w);
    }

    /** The rules in turn, each under its savepoint. */
    method EvaluateAll(db: AlertsTable, attempts: seq<Attempt>, ghost w: World)
        returns (pending: seq<Notification>, ghost w': World)
      requires View(db, w.sent, w.seen, w.now) == w && Inv(w) && ValidCycle(w, attempts)
      modifies this, db
      ensures w' == Cycle(w, attempts) && Inv(w')
      ensures View(db, w'.sent, w'.seen, w'.now) == w' && w'.sent == w.sent + pending
    {
      pending, w' := [], w;
      var rest := attempts;
      while rest != []
        invariant View(db, w'.sent, w'.seen, w'.now) == w' && w'.sent == w.sent + pending && Inv(w')
        invariant ValidCycle(w', rest) && Cycle(w', rest) == Cycle(w, attempts)
        decreases |rest|
      {
        NextAttempt(w', rest);
        var more;
        more, w' := EvaluateOne(db, rest[0], w');
        assert w.sent + pending + more == w.sent + (pending + more);
        pending, rest := pending + more, rest[1..];
      }
    }

    /** A cycle under one transaction.  When the final commit fails the table is rolled back, but the
        notifications have been collected and are handed over all the same. */
    method EvaluateCycle(db: AlertsTable, attempts: seq<Attempt>, commits: bool, ghost w: World)
        returns (pending: seq<Notification>, ghost w': World)
      requires View(db, w.sent, w.seen, w.now) == w && Inv(w) && ValidCycle(w, attempts)
      modifies this, db
      ensures w' == if commits then Cycle(w, attempts) else RolledBack(w, attempts, true)
      ensures View(db, w.sent + pending, w'.seen, w'.now) == w' && Inv(w')
      ensures OneActive(db.rows)
      ensures !commits ==> db.rows == old(db.rows)
    {
      var saved := db.rows;
      pending, w' := EvaluateAll(db, attempts, w);
      if !commits {
        db.rows := saved;
        RollBackKeeps(w, attempts, true);
        w' := RolledBack(w, attempts, true);
      }
    }
  }

  lemma NextAttempt(w: World, attempts: seq<Attempt>)
    requires attempts != [] && ValidCycle(w, attempts)
    ensures ValidAttempt(w, attempts[0]) && ValidCycle(Attempted(w, attempts[0]), attempts[1..])
    ensures Cycle(Attempted(w, attempts[0]), attempts[1..]) == Cycle(w, attempts)
  {
  }

  lemma GuardedKeeps(w: World, p: Pass, stop: Option<Abort>)
    requires Inv(w) && p.now >= w.now && LinksKnown(p.links, w.nextId)
    requires stop.Some? ==> ValidAbort(p, stop.value)
    ensures var w' := if stop.Some? then AbortedPass(w, p, stop.value) else RunPass(w, p);
      Inv(w') && StablyResolved(w, w', p)
  {
    if stop.Some? {
      UpToKeeps(w, p, stop.value);
      UpToEvolves(w, p, stop.value);
    } else {
      RunPassKeeps(w, p);
      PassIsStable(w, p);
    }
  }
}
