/** The steps of a pass from the outside: what becomes of each alert, clock and notification, stated on
    the result.  Times are microseconds. */
module Outcomes {
  import opened Basics
  import opened Suppression
  import opened Lifecycle
  import opened Invariants

  /** The pass finds the condition of `fp` true. */
  predicate Breaching(p: Pass, fp: Fp) {
    exists b :: b in p.breaches && fp == Fp(p.rule.id, b.device, b.iface)
  }

  lemma BreachingIsFps(p: Pass, fp: Fp)
    ensures fp in Fps(p.rule, p.breaches) <==> Breaching(p, fp)
  {
    if fp in Fps(p.rule, p.breaches) {
      var b :| b in p.breaches && Fingerprint(p.rule, b) == fp;
    }
    if b :| b in p.breaches && fp == Fp(p.rule.id, b.device, b.iface) {
      assert Fingerprint(p.rule, b) == fp;
    }
  }

  // ------------------------------------------------------------------ the gate

  /** The rule's breaches must last before they fire. */
  predicate Waits(rule: Rule) {
    rule.durationSeconds > 0 && rule.metric != InterfaceFlap
  }

  predicate WaitedLongEnough(c: Clocks, rule: Rule, fp: Fp, now: Time) {
    fp in c.breachSince && now - c.breachSince[fp] >= rule.durationSeconds * 1_000_000
  }

  /** What the gate makes of a fingerprint: one that waits starts its clock, and fires once that has
      run for the duration; one that does not wait fires at once and needs no clock. */
  predicate GateOf(c: Clocks, c': Clocks, rule: Rule, breaching: bool, firing: bool, fp: Fp, now: Time) {
    && Get(c'.clearSince, fp) == (if breaching then None else Get(c.clearSince, fp))
    && Get(c'.breachSince, fp) ==
       (if !breaching then Get(c.breachSince, fp) else if !Waits(rule) then None
        else if fp in c.breachSince then Get(c.breachSince, fp) else Some(now))
    && (firing <==> breaching && (Waits(rule) ==> WaitedLongEnough(c, rule, fp, now)))
  }

  lemma GateOneOf(c: Clocks, c1: Clocks, rule: Rule, breaching: bool, firing: bool, fp: Fp, g: Fp, now: Time)
    requires GateOf(c, c1, rule, breaching, firing, fp, now)
    ensures var (c2, fires) := GateOne(c1, rule, g, now);
      GateOf(c, c2, rule, breaching || fp == g, firing || (fires && fp == g), fp, now)
  {
  }

  lemma {:induction false} GateAllOf(c: Clocks, rule: Rule, breaches: seq<Breach>, now: Time, fp: Fp)
    ensures var (c', firing) := GateAll(c, rule, breaches, now);
      GateOf(c, c', rule, fp in Fps(rule, breaches), fp in firing, fp, now)
  {
    if breaches != [] {
      var front, g := breaches[..|breaches| - 1], Fingerprint(rule, breaches[|breaches| - 1]);
      var (c1, firing) := GateAll(c, rule, front, now);
      GateAllOf(c, rule, front, now, fp);
      FpsStep(rule, breaches);
      GateOneOf(c, c1, rule, fp in Fps(rule, front), fp in firing, fp, g, now);
    }
  }

  /** The clocks of a fingerprint after the gate, the refresh and the release: a hold outlives the pass
      only if the fingerprint is breaching, and else the condition is on record as clear. */
  ghost predicate GatedOf(c: Clocks, c': Clocks, p: Pass, firing: set<Fp>, fp: Fp) {
    && GateOf(c, c', p.rule, Breaching(p, fp), fp in firing, fp, p.now)
    && (fp in c'.suppressUntilClear <==> fp in c.suppressUntilClear && Breaching(p, fp))
    && Get(c'.lastClear, fp) ==
       (if fp in c.suppressUntilClear && !Breaching(p, fp) then Some(p.now) else Get(c.lastClear, fp))
    && Get(c'.lastSeen, fp) ==
       (if fp in c.suppressUntilClear || Breaching(p, fp) then Some(p.now) else Get(c.lastSeen, fp))
  }

  lemma GateMeans(c: Clocks, p: Pass, fp: Fp)
    ensures var breaching, (c', firing) := Fps(p.rule, p.breaches), GateAll(c, p.rule, p.breaches, p.now);
      GatedOf(c, Release(Touch(c', breaching, p.now), breaching, p.now), p, firing, fp)
  {
    BreachingIsFps(p, fp);
    GateAllOf(c, p.rule, p.breaches, p.now, fp);
    GateKeeps(c, p.rule, p.breaches, p.now);
  }

  // ------------------------------------------------------------------ one breach

  /** The newest resolution of `fp` is a user's, and newer than any clear on record. */
  ghost predicate UserHolds(rows: map<Id, Alert>, lastClear: map<Fp, Time>, fp: Fp) {
    exists i :: i in rows && IsResolution(rows, fp, i)
      && rows[i].resolvedBy.Some? && (fp in lastClear ==> lastClear[fp] < rows[i].resolvedAt.value)
      && forall j :: IsResolution(rows, fp, j) ==> rows[j].resolvedAt.value <= rows[i].resolvedAt.value
  }

  predicate IsResolution(rows: map<Id, Alert>, fp: Fp, i: Id) {
    i in rows && rows[i].fp == fp && rows[i].status == Resolved && rows[i].resolvedAt.Some?
  }

  lemma HoldMeans(rows: map<Id, Alert>, lastClear: map<Fp, Time>, fp: Fp)
    ensures HeldByRow(rows, lastClear, fp) <==> UserHolds(rows, lastClear, fp)
  {
    if i :| i in rows && NewestResolved(rows, fp, i) && rows[i].resolvedBy.Some?
            && (fp in lastClear ==> rows[i].resolvedAt.value > lastClear[fp])
    {
      assert IsResolution(rows, fp, i);
    }
    if i :| i in rows && IsResolution(rows, fp, i)
            && rows[i].resolvedBy.Some? && (fp in lastClear ==> lastClear[fp] < rows[i].resolvedAt.value)
            && forall j :: IsResolution(rows, fp, j) ==> rows[j].resolvedAt.value <= rows[i].resolvedAt.value
    {
      assert forall j :: j in rows && rows[j].fp == fp && rows[j].status == Resolved && rows[j].resolvedAt.Some? ==>
        IsResolution(rows, fp, j);
      assert NewestResolved(rows, fp, i);
    }
  }

  /** The alert that explains the breach, according to the suppression map. */
  function Explanation(p: Pass, b: Breach): Option<Id> {
    p.links.ParentFor(Some(b.device), p.rule.metric, if p.rule.metric == BgpSessionDown then b.peerIp else None)
  }

  /** An active alert that fires is suppressed exactly if another alert explains it: an alert whose
      explanation is gone comes back as it was, notified about; one that gets an explanation is
      silently suppressed under it. */
  predicate Follows(id: Id, a: Alert, a': Alert, why: Option<Id>, now: Time) {
    if why == None || why == Some(id)
    then a' == if a.status != Suppressed then a
               else a.(status := if a.acknowledgedAt.Some? then Acknowledged else Open, suppressedBy := None,
                       lastNotified := Some(now))
    else a' == if a.status == Suppressed then a else a.(status := Suppressed, suppressedBy := why)
  }

  /** The alert a breach raises: open and notified about, or suppressed from the start. */
  function Raised(p: Pass, b: Breach): Alert {
    var why := Explanation(p, b);
    Alert(Fp(p.rule.id, b.device, b.iface), p.rule.tenant, if why.Some? then Suppressed else Open, p.rule.severity,
          p.now, None, None, None, if why.Some? then None else Some(p.now), why)
  }

  predicate ActiveFor(rows: map<Id, Alert>, fp: Fp, i: Id) {
    && i in rows && rows[i].fp == fp
    && (rows[i].status == Open || rows[i].status == Acknowledged || rows[i].status == Suppressed)
  }

  /** One breach that does not fire changes nothing.  One that fires and has an active alert updates
      that; without one it raises one, unless a user's resolution holds, which is then remembered. */
  ghost predicate FireOutcome(w: World, w': World, p: Pass, firing: set<Fp>, b: Breach) {
    var fp, why := Fp(p.rule.id, b.device, b.iface), Explanation(p, b);
    && (fp !in firing ==> w' == w)
    && (fp in firing ==>
          && (forall i :: ActiveFor(w.rows, fp, i) ==>
                && i in w'.rows && Follows(i, w.rows[i], w'.rows[i], why, p.now)
                && w' == w.(rows := w.rows[i := w'.rows[i]],
                            sent := if w.rows[i].status == Suppressed && w'.rows[i].status != Suppressed
                                    then w.sent + [Notification(i, false)] else w.sent))
          && ((forall i :: !ActiveFor(w.rows, fp, i)) ==>
                if fp in w.clocks.suppressUntilClear || UserHolds(w.rows, w.clocks.lastClear, fp)
                then w' == w.(clocks := w.clocks.(suppressUntilClear := w.clocks.suppressUntilClear + {fp}))
                else w' == w.(rows := w.rows[Id(w.nextId) := Raised(p, b)], nextId := w.nextId + 1,
                              sent := if why.Some? then w.sent else w.sent + [Notification(Id(w.nextId), false)])))
  }

  lemma FireMeans(w: World, p: Pass, firing: set<Fp>, b: Breach)
    requires OneActive(w.rows)
    ensures FireOutcome(w, FireOne(w, p, firing, b), p, firing, b)
  {
    var fp := Fp(p.rule.id, b.device, b.iface);
    HoldMeans(w.rows, w.clocks.lastClear, fp);
    assert forall i :: ActiveFor(w.rows, fp, i) <==> Matches(w.rows, fp, i);
    assert fp in w.clocks.suppressUntilClear ==> w.clocks.suppressUntilClear + {fp} == w.clocks.suppressUntilClear;
  }

  // ------------------------------------------------------------------ one alert of the auto-resolve loop

  /** The clear clock of `fp` has run for the rule's stability time, and for a minute at least. */
  predicate ClearLongEnough(c: Clocks, rule: Rule, fp: Fp, now: Time) {
    && fp in c.clearSince
    && now - c.clearSince[fp] >= rule.stableForSeconds * 1_000_000
    && now - c.clearSince[fp] >= 60_000_000
  }

  /** A breaching alert is due for another notification. */
  predicate DueAgain(rule: Rule, a: Alert, now: Time) {
    && a.status != Suppressed && rule.renotifySeconds > 0
    && a.lastNotified.Some? && now - a.lastNotified.value >= rule.renotifySeconds * 1_000_000
  }

  /** The rows after alert `id` has been resolved: its suppressed children come back as they were. */
  predicate ResolvedRows(rows: map<Id, Alert>, rows': map<Id, Alert>, id: Id, now: Time) {
    && rows'.Keys == rows.Keys && id in rows
    && rows'[id] == rows[id].(status := Resolved, resolvedAt := Some(now))
    && forall j :: j in rows && j != id ==>
         rows'[j] == if rows[j].status != Suppressed || rows[j].suppressedBy != Some(id) then rows[j]
                     else rows[j].(status := if rows[j].acknowledgedAt.Some? then Acknowledged else Open,
                                   suppressedBy := None, lastNotified := None)
  }

  /** The notifications of one alert's turn. */
  function TurnSends(rule: Rule, a: Alert, id: Id, breaching: bool, resolves: bool, now: Time): seq<Notification> {
    if breaching && DueAgain(rule, a, now) then [Notification(id, false)]
    else if resolves && a.lastNotified.Some? && rule.notifyOnResolve then [Notification(id, true)] else []
  }

  /** An alert that is breaching, or not clear for long enough, stays, notified about again if due;
      otherwise it is resolved, its children come back and its clocks are cleared. */
  predicate TurnOutcome(w: World, w': World, p: Pass, breaching: set<Fp>, id: Id)
    requires id in w.rows
  {
    var a, fp := w.rows[id], w.rows[id].fp;
    var resolves := fp !in breaching && ClearLongEnough(w.clocks, p.rule, fp, p.now);
    && w'.sent == w.sent + TurnSends(p.rule, a, id, fp in breaching, resolves, p.now)
    && (if resolves then ResolvedRows(w.rows, w'.rows, id, p.now)
        else w'.rows == if fp in breaching && DueAgain(p.rule, a, p.now)
                        then w.rows[id := a.(lastNotified := Some(p.now))] else w.rows)
    && w'.clocks == TurnClocks(w.clocks, fp, fp in breaching, resolves, p.now)
  }

  /** Its clocks: the alert is seen now; while it is not breaching its clear clock runs; resolved, only
      the time of the clear is left. */
  function TurnClocks(c: Clocks, fp: Fp, breaching: bool, resolves: bool, now: Time): Clocks {
    var seen := c.(lastSeen := c.lastSeen[fp := now]);
    if resolves
    then seen.(breachSince := c.breachSince - {fp}, clearSince := c.clearSince - {fp},
               lastClear := c.lastClear[fp := now], suppressUntilClear := c.suppressUntilClear - {fp})
    else if breaching || fp in c.clearSince then seen
    else seen.(clearSince := c.clearSince[fp := now])
  }

  lemma TurnMeans(w: World, p: Pass, breaching: set<Fp>, id: Id)
    requires id in w.rows && w.rows[id].Active()
    ensures TurnOutcome(w, ResolveOne(w, p, breaching, id), p, breaching, id)
  {
  }
}
