/** The alert lifecycle as functions on the engine's state: one evaluation pass of one rule, a pass
    that is aborted, the user's actions, and housekeeping.

    `Engine.dfy` proves that the engine's loops compute these functions; `Invariants.dfy` and
    `Runs.dfy` prove what every sequence of them keeps. */
module Lifecycle {
  import opened Basics
  import opened Suppression

  type RuleId = int
  datatype Tenant = Tenant(key: nat)
  type User = int
  type Interface = int

  /** A rule fingerprint.  The source hashes these three parts; the model keeps them apart. */
  datatype Fp = Fp(rule: RuleId, device: Device, iface: Option<Interface>)

  datatype Severity = Critical | Major | Minor | Warning | Info

  datatype Status = Open | Acknowledged | Resolved | Suppressed | Expired

  datatype Alert = Alert(
    fp: Fp,
    tenant: Tenant,
    status: Status,
    severity: Severity,
    triggeredAt: Time,
    acknowledgedAt: Option<Time>,
    resolvedAt: Option<Time>,
    resolvedBy: Option<User>,
    lastNotified: Option<Time>,
    suppressedBy: Option<Id>)
  {
    predicate Active() {
      status == Open || status == Acknowledged || status == Suppressed
    }
  }

  datatype Rule = Rule(
    id: RuleId,
    tenant: Tenant,
    metric: Metric,
    severity: Severity,
    durationSeconds: int,
    stableForSeconds: int,
    renotifySeconds: int,
    notifyOnResolve: bool,
    escalation: Option<Escalation>)

  datatype Escalation = Escalation(severity: Severity, seconds: int)

  datatype Breach = Breach(device: Device, iface: Option<Interface>, peerIp: Option<string>)

  function Fingerprint(rule: Rule, b: Breach): Fp {
    Fp(rule.id, b.device, b.iface)
  }

  /** The engine's in-memory clocks. */
  datatype Clocks = Clocks(
    breachSince: map<Fp, Time>,
    clearSince: map<Fp, Time>,
    lastClear: map<Fp, Time>,
    suppressUntilClear: set<Fp>,
    lastSeen: map<Fp, Time>)

  const NO_CLOCKS := Clocks(map[], map[], map[], {}, map[])

  datatype Notification = Notification(alert: Id, resolved: bool)

  /** What a pass saw: the fingerprints of `rule` whose condition was true at `at`. */
  datatype Sighting = Sighting(rule: RuleId, at: Time, breaching: set<Fp>)

  /** `rows` is the alerts table.  `sent` and `seen` are histories: every notification dispatched
      and every set of breaches a pass acted on, in order. */
  datatype World = World(
    rows: map<Id, Alert>,
    nextId: nat,
    clocks: Clocks,
    sent: seq<Notification>,
    seen: seq<Sighting>,
    now: Time)

  /** One evaluation of one rule.  The orders are those in which the database returns the alerts
      for the escalation and the auto-resolve loop. */
  datatype Pass = Pass(
    rule: Rule,
    anyDevice: bool,
    breaches: seq<Breach>,
    now: Time,
    links: Links,
    escalationOrder: seq<Id>,
    resolveOrder: seq<Id>)

  const MIN_STABLE_FOR := 60
  const LOOKBACK := 90 * DAY
  const STATE_TTL := 4 * 3600 * SECOND
  const MAX_FP := 50_000
  const TRIM_TO := 40_000

  // ------------------------------------------------------------------ the gate

  /** The fingerprints breaching in this pass. */
  function Fps(rule: Rule, breaches: seq<Breach>): (s: set<Fp>) {
    set b | b in breaches :: Fingerprint(rule, b)
  }

  /** One breach at the duration gate: it fires once its breach clock has run long enough. */
  function GateOne(c: Clocks, rule: Rule, fp: Fp, now: Time): (r: (Clocks, bool)) {
    var c1 := c.(clearSince := c.clearSince - {fp});
    if rule.durationSeconds > 0 && rule.metric != InterfaceFlap then
      if fp !in c.breachSince then (c1.(breachSince := c.breachSince[fp := now]), false)
      else (c1, now - c.breachSince[fp] >= rule.durationSeconds * SECOND)
    else (c1.(breachSince := c.breachSince - {fp}), true)
  }

  function GateAll(c: Clocks, rule: Rule, breaches: seq<Breach>, now: Time): (r: (Clocks, set<Fp>)) {
    if breaches == [] then (c, {})
    else
      var b := breaches[|breaches| - 1];
      var (c1, firing) := GateAll(c, rule, breaches[..|breaches| - 1], now);
      var (c2, fires) := GateOne(c1, rule, Fingerprint(rule, b), now);
      (c2, if fires then firing + {Fingerprint(rule, b)} else firing)
  }

  function Stamp(m: map<Fp, Time>, fps: set<Fp>, now: Time): map<Fp, Time> {
    m + map fp | fp in fps :: now
  }

  /** Refresh the last-seen clock of every breaching fingerprint. */
  function Touch(c: Clocks, breaching: set<Fp>, now: Time): Clocks {
    c.(lastSeen := Stamp(c.lastSeen, breaching, now))
  }

  /** Release the manual-resolve hold of every fingerprint that is not breaching in this pass. */
  function Release(c: Clocks, breaching: set<Fp>, now: Time): Clocks {
    var released := c.suppressUntilClear - breaching;
    c.(suppressUntilClear := c.suppressUntilClear * breaching,
       lastClear := Stamp(c.lastClear, released, now),
       lastSeen := Stamp(c.lastSeen, released, now))
  }

  // ------------------------------------------------------------------ firing

  /** `id` is an active alert with the fingerprint; the source asks for one or none. */
  predicate Matches(rows: map<Id, Alert>, fp: Fp, id: Id) {
    id in rows && rows[id].fp == fp && rows[id].Active()
  }

  /** `id` is the newest resolved alert with its fingerprint. */
  predicate NewestResolved(rows: map<Id, Alert>, fp: Fp, id: Id) {
    && id in rows && rows[id].fp == fp && rows[id].status == Resolved && rows[id].resolvedAt.Some?
    && forall j :: j in rows && rows[j].fp == fp && rows[j].status == Resolved && rows[j].resolvedAt.Some? ==>
         rows[j].resolvedAt.value <= rows[id].resolvedAt.value
  }

  /** The newest resolution was a user's and the condition has not cleared since. */
  predicate HeldByRow(rows: map<Id, Alert>, lastClear: map<Fp, Time>, fp: Fp) {
    exists id :: id in rows && NewestResolved(rows, fp, id) && rows[id].resolvedBy.Some?
                 && (fp in lastClear ==> rows[id].resolvedAt.value > lastClear[fp])
  }

  function NewAlert(p: Pass, fp: Fp, parent: Option<Id>): Alert {
    Alert(fp, p.rule.tenant, if parent.Some? then Suppressed else Open, p.rule.severity, p.now,
          None, None, None, if parent.Some? then None else Some(p.now), parent)
  }

  function ParentOf(p: Pass, b: Breach): Option<Id> {
    p.links.ParentFor(Some(b.device), p.rule.metric, if p.rule.metric == BgpSessionDown then b.peerIp else None)
  }

  function Unsuppressed(a: Alert): Alert {
    a.(status := if a.acknowledgedAt.Some? then Acknowledged else Open, suppressedBy := None)
  }

  /** No active alert yet: honour the manual-resolve hold, else create one. */
  function Create(w: World, p: Pass, fp: Fp, parent: Option<Id>): World {
    if fp in w.clocks.suppressUntilClear then w
    else if HeldByRow(w.rows, w.clocks.lastClear, fp) then
      w.(clocks := w.clocks.(suppressUntilClear := w.clocks.suppressUntilClear + {fp}))
    else
      w.(rows := w.rows[Id(w.nextId) := NewAlert(p, fp, parent)],
         nextId := w.nextId + 1,
         sent := if parent.Some? then w.sent else w.sent + [Notification(Id(w.nextId), false)])
  }

  /** An active alert exists: follow the suppression map. */
  function Reconsider(w: World, p: Pass, id: Id, parent0: Option<Id>): World
    requires id in w.rows
  {
    var a := w.rows[id];
    var parent := if parent0 == Some(id) then None else parent0;
    if a.status == Suppressed && parent.None? then
      w.(rows := w.rows[id := Unsuppressed(a).(lastNotified := Some(p.now))],
         sent := w.sent + [Notification(id, false)])
    else if (a.status == Open || a.status == Acknowledged) && parent.Some? then
      w.(rows := w.rows[id := a.(status := Suppressed, suppressedBy := parent)])
    else w
  }

  ghost function FireOne(w: World, p: Pass, firing: set<Fp>, b: Breach): World {
    var fp := Fingerprint(p.rule, b);
    if fp !in firing then w
    else if exists id :: Matches(w.rows, fp, id) then
      var id :| Matches(w.rows, fp, id);
      Reconsider(w, p, id, ParentOf(p, b))
    else Create(w, p, fp, ParentOf(p, b))
  }

  ghost function FireAll(w: World, p: Pass, firing: set<Fp>, k: nat): World
    requires k <= |p.breaches|
  {
    if k == 0 then w else FireOne(FireAll(w, p, firing, k - 1), p, firing, p.breaches[k - 1])
  }

  // ------------------------------------------------------------------ escalation

  predicate Escalatable(w: World, p: Pass, id: Id) {
    && id in w.rows && w.rows[id].fp.rule == p.rule.id && w.rows[id].status == Open
    && w.rows[id].severity == p.rule.severity && w.rows[id].triggeredAt >= p.now - LOOKBACK
  }

  function EscalateOne(w: World, p: Pass, breaching: set<Fp>, id: Id): World {
    if id in w.rows && w.rows[id].fp in breaching && p.rule.escalation.Some?
       && p.now - w.rows[id].triggeredAt >= p.rule.escalation.value.seconds * SECOND
       && w.rows[id].status == Open
    then
      w.(rows := w.rows[id := w.rows[id].(severity := p.rule.escalation.value.severity, lastNotified := Some(p.now))],
         sent := w.sent + [Notification(id, false)])
    else w
  }

  function EscalateAll(w: World, p: Pass, breaching: set<Fp>, k: nat): World
    requires k <= |p.escalationOrder|
  {
    if k == 0 then w else EscalateOne(EscalateAll(w, p, breaching, k - 1), p, breaching, p.escalationOrder[k - 1])
  }

  // ------------------------------------------------------------------ auto-resolve

  predicate Resolvable(w: World, p: Pass, id: Id) {
    && id in w.rows && w.rows[id].fp.rule == p.rule.id && w.rows[id].Active()
    && w.rows[id].triggeredAt >= p.now - LOOKBACK
  }

  function StableGate(rule: Rule): int {
    (if rule.stableForSeconds > MIN_STABLE_FOR then rule.stableForSeconds else MIN_STABLE_FOR) * SECOND
  }

  /** Children of a resolved parent come back. */
  function Revived(rows: map<Id, Alert>, parent: Id): map<Id, Alert> {
    map i | i in rows ::
      if rows[i].suppressedBy == Some(parent) && rows[i].status == Suppressed
      then Unsuppressed(rows[i]).(lastNotified := None) else rows[i]
  }

  function AutoResolve(w: World, p: Pass, id: Id): World
    requires id in w.rows
  {
    var a := w.rows[id];
    var c := w.clocks;
    World(
      Revived(w.rows[id := a.(status := Resolved, resolvedAt := Some(p.now))], id),
      w.nextId,
      Clocks(c.breachSince - {a.fp}, c.clearSince - {a.fp}, c.lastClear[a.fp := p.now],
             c.suppressUntilClear - {a.fp}, c.lastSeen[a.fp := p.now]),
      if a.lastNotified.Some? && p.rule.notifyOnResolve then w.sent + [Notification(id, true)] else w.sent,
      w.seen, w.now)
  }

  function Renotify(w: World, p: Pass, id: Id): World
    requires id in w.rows
  {
    var a := w.rows[id];
    if a.status != Suppressed && p.rule.renotifySeconds > 0 && a.lastNotified.Some?
       && p.now - a.lastNotified.value >= p.rule.renotifySeconds * SECOND
    then
      w.(rows := w.rows[id := a.(lastNotified := Some(p.now))], sent := w.sent + [Notification(id, false)])
    else w
  }

  /** One alert of the auto-resolve loop: still breaching, newly clear, not yet stable, or done. */
  function ResolveOne(w: World, p: Pass, breaching: set<Fp>, id: Id): World {
    if id !in w.rows || !w.rows[id].Active() then w
    else
      var fp := w.rows[id].fp;
      var w1 := w.(clocks := w.clocks.(lastSeen := w.clocks.lastSeen[fp := p.now]));
      if fp in breaching then Renotify(w1, p, id)
      else if fp !in w.clocks.clearSince then
        w1.(clocks := w1.clocks.(clearSince := w1.clocks.clearSince[fp := p.now]))
      else if p.now - w.clocks.clearSince[fp] < StableGate(p.rule) then w1
      else AutoResolve(w1, p, id)
  }

  function ResolveAll(w: World, p: Pass, breaching: set<Fp>, k: nat): World
    requires k <= |p.resolveOrder|
  {
    if k == 0 then w else ResolveOne(ResolveAll(w, p, breaching, k - 1), p, breaching, p.resolveOrder[k - 1])
  }

  // ------------------------------------------------------------------ a pass

  /** The state once the breaches have gone through the gate. */
  function Gated(w: World, p: Pass): World {
    var breaching := Fps(p.rule, p.breaches);
    var c := GateAll(w.clocks, p.rule, p.breaches, p.now).0;
    w.(clocks := Release(Touch(c, breaching, p.now), breaching, p.now),
       seen := w.seen + [Sighting(p.rule.id, p.now, breaching)],
       now := p.now)
  }

  function Firing(w: World, p: Pass): set<Fp> {
    GateAll(w.clocks, p.rule, p.breaches, p.now).1
  }

  ghost function Fired(w: World, p: Pass): World {
    FireAll(Gated(w, p), p, Firing(w, p), |p.breaches|)
  }

  ghost function Escalated(w: World, p: Pass): World {
    if p.rule.escalation.Some?
    then EscalateAll(Fired(w, p), p, Fps(p.rule, p.breaches), |p.escalationOrder|)
    else Fired(w, p)
  }

  ghost function RunPass(w: World, p: Pass): World {
    if !p.anyDevice then w.(now := p.now)
    else ResolveAll(Escalated(w, p), p, Fps(p.rule, p.breaches), |p.resolveOrder|)
  }

  /** `order` lists, once each, the ids that satisfy the loop's query. */
  ghost predicate Enumerates(order: seq<Id>, ids: iset<Id>) {
    && (forall i :: i in order <==> i in ids)
    && (forall i, j :: 0 <= i < j < |order| ==> order[i] != order[j])
  }

  /** The suppression map was computed from existing alerts, time has not gone back, and the
      two orders enumerate what the database finds when the loops start. */
  ghost predicate ValidPass(w: World, p: Pass) {
    && p.now >= w.now
    && LinksKnown(p.links, w.nextId)
    && (p.rule.escalation.Some? ==> Enumerates(p.escalationOrder, iset id | Escalatable(Fired(w, p), p, id)))
    && (p.anyDevice ==> Enumerates(p.resolveOrder, iset id | Resolvable(Escalated(w, p), p, id)))
  }

  ghost predicate LinksKnown(l: Links, nextId: nat) {
    && (forall d :: d in l.deviceDown ==> l.deviceDown[d].n < nextId)
    && (forall d :: d in l.other ==> l.other[d].n < nextId)
    && (forall k :: k in l.peerMetric ==> l.peerMetric[k].n < nextId)
    && (forall k :: k in l.peerSession ==> l.peerSession[k].n < nextId)
  }

  /** Where a pass can raise: before the gate, or between two steps of its loops. */
  datatype Abort = BeforeGate | WhileFiring(done: nat) | WhileResolving(done: nat)

  ghost predicate ValidAbort(p: Pass, at: Abort) {
    match at
    case BeforeGate => true
    case WhileFiring(k) => p.anyDevice && k <= |p.breaches|
    case WhileResolving(k) => p.anyDevice && k <= |p.resolveOrder|
  }

  ghost function UpTo(w: World, p: Pass, at: Abort): World
    requires ValidAbort(p, at)
  {
    match at
    case BeforeGate => w.(now := p.now)
    case WhileFiring(k) => FireAll(Gated(w, p), p, Firing(w, p), k)
    case WhileResolving(k) => ResolveAll(Escalated(w, p), p, Fps(p.rule, p.breaches), k)
  }

  /** The savepoint takes back the table and the pending notifications, not the clocks. */
  ghost function AbortedPass(w: World, p: Pass, at: Abort): World
    requires ValidAbort(p, at)
  {
    UpTo(w, p, at).(rows := w.rows, sent := w.sent)
  }

  // ------------------------------------------------------------------ a cycle

  /** One rule's pass within a cycle, aborted at `stop` if anywhere. */
  datatype Attempt = Attempt(p: Pass, stop: Option<Abort>)

  ghost predicate ValidAttempt(w: World, a: Attempt) {
    ValidPass(w, a.p) && (a.stop.Some? ==> ValidAbort(a.p, a.stop.value))
  }

  ghost function Attempted(w: World, a: Attempt): World
    requires ValidAttempt(w, a)
  {
    if a.stop.Some? then AbortedPass(w, a.p, a.stop.value) else RunPass(w, a.p)
  }

  ghost predicate ValidCycle(w: World, attempts: seq<Attempt>)
    decreases |attempts|
  {
    attempts == [] || (ValidAttempt(w, attempts[0]) && ValidCycle(Attempted(w, attempts[0]), attempts[1..]))
  }

  ghost function Cycle(w: World, attempts: seq<Attempt>): World
    requires ValidCycle(w, attempts)
    decreases |attempts|
  {
    if attempts == [] then w else Cycle(Attempted(w, attempts[0]), attempts[1..])
  }

  /** A cycle that is rolled back: the table is as before, the clocks are not.  If it was the final
      commit that failed, the notifications of the cycle have been handed over all the same. */
  ghost function RolledBack(w: World, attempts: seq<Attempt>, dispatched: bool): World
    requires ValidCycle(w, attempts)
  {
    var w1 := Cycle(w, attempts);
    w1.(rows := w.rows, sent := if dispatched then w1.sent else w.sent)
  }

  // ------------------------------------------------------------------ user actions

  datatype Outcome = Done | NotFound | Conflict(status: Status)

  function Acknowledge(rows: map<Id, Alert>, id: Id, now: Time): (r: (map<Id, Alert>, Outcome)) {
    if id !in rows then (rows, NotFound)
    else if rows[id].status != Open then (rows, Conflict(rows[id].status))
    else (rows[id := rows[id].(status := Acknowledged, acknowledgedAt := Some(now))], Done)
  }

  function Resolve(rows: map<Id, Alert>, id: Id, user: User, now: Time): (r: (map<Id, Alert>, Outcome)) {
    if id !in rows then (rows, NotFound)
    else if rows[id].status == Resolved then (rows, Conflict(Resolved))
    else (rows[id := rows[id].(status := Resolved, resolvedAt := Some(now), resolvedBy := Some(user))], Done)
  }

  datatype BulkAction = BulkAcknowledge | BulkResolve

  function BulkOne(a: Alert, action: BulkAction, user: User, now: Time): Alert {
    if action == BulkAcknowledge && a.status == Open then
      a.(status := Acknowledged, acknowledgedAt := Some(now))
    else if action == BulkResolve && (a.status == Open || a.status == Acknowledged) then
      a.(status := Resolved, resolvedAt := Some(now), resolvedBy := Some(user))
    else a
  }

  function Bulk(rows: map<Id, Alert>, ids: set<Id>, tenant: Tenant,
                action: BulkAction, user: User, now: Time): map<Id, Alert>
  {
    map i | i in rows :: if i in ids && rows[i].tenant == tenant then BulkOne(rows[i], action, user, now) else rows[i]
  }

  // ------------------------------------------------------------------ housekeeping

  /** The effective settings of a tenant; zero or less switches the stage off. */
  datatype Settings = Settings(autoCloseDays: int, retentionDays: int)

  /** The stages fail independently: a tenant whose auto-close or retention statement fails is one
      for which that stage is off, and `recovers` says whether orphan recovery succeeded. */
  datatype Sweep = Sweep(now: Time, settings: map<Tenant, Settings>, recovers: bool, evicted: set<Fp>)

  predicate AutoCloses(h: Sweep, a: Alert) {
    && a.tenant in h.settings && h.settings[a.tenant].autoCloseDays > 0
    && (a.status == Open || a.status == Acknowledged)
    && a.triggeredAt < h.now - h.settings[a.tenant].autoCloseDays * DAY
  }

  function AutoClose(rows: map<Id, Alert>, h: Sweep): map<Id, Alert> {
    map i | i in rows ::
      if AutoCloses(h, rows[i]) then rows[i].(status := Resolved, resolvedAt := Some(h.now)) else rows[i]
  }

  predicate LiveParent(rows: map<Id, Alert>, a: Alert) {
    && a.suppressedBy.Some? && a.suppressedBy.value in rows
    && rows[a.suppressedBy.value].tenant == a.tenant
    && (rows[a.suppressedBy.value].status == Open || rows[a.suppressedBy.value].status == Acknowledged)
  }

  predicate Orphan(rows: map<Id, Alert>, a: Alert) {
    a.status == Suppressed && a.suppressedBy.Some? && !LiveParent(rows, a)
  }

  function RecoverOrphans(rows: map<Id, Alert>): map<Id, Alert> {
    map i | i in rows ::
      if Orphan(rows, rows[i]) then rows[i].(status := Open, suppressedBy := None, lastNotified := None) else rows[i]
  }

  predicate Purges(h: Sweep, a: Alert) {
    && a.tenant in h.settings && h.settings[a.tenant].retentionDays > 0
    && (a.status == Resolved || a.status == Expired || a.status == Suppressed)
    && a.triggeredAt < h.now - h.settings[a.tenant].retentionDays * DAY
  }

  /** Deleting a row nulls the foreign keys that point at it. */
  function Purge(rows: map<Id, Alert>, h: Sweep): map<Id, Alert> {
    map i | i in rows && !Purges(h, rows[i]) ::
      var parent := rows[i].suppressedBy;
      if parent.Some? && parent.value in rows && Purges(h, rows[parent.value])
      then rows[i].(suppressedBy := None) else rows[i]
  }

  function SweptRows(rows: map<Id, Alert>, h: Sweep): map<Id, Alert> {
    var closed := AutoClose(rows, h);
    Purge(if h.recovers then RecoverOrphans(closed) else closed, h)
  }

  function Forget(c: Clocks, fps: set<Fp>): Clocks {
    Clocks(c.breachSince - fps, c.clearSince - fps, c.lastClear - fps, c.suppressUntilClear - fps, c.lastSeen - fps)
  }

  function Stale(c: Clocks, now: Time): set<Fp> {
    set fp | fp in c.lastSeen && now - c.lastSeen[fp] > STATE_TTL
  }

  /** The cap: when too many fingerprints remain, the longest unseen go. */
  ghost predicate ValidEviction(c: Clocks, evicted: set<Fp>) {
    if |c.lastSeen| <= MAX_FP then evicted == {}
    else
      && evicted <= c.lastSeen.Keys && |evicted| == |c.lastSeen| - TRIM_TO
      && forall f, g :: f in evicted && g in c.lastSeen && g !in evicted ==> c.lastSeen[f] <= c.lastSeen[g]
  }

  ghost predicate ValidSweep(w: World, h: Sweep) {
    h.now >= w.now && ValidEviction(Forget(w.clocks, Stale(w.clocks, h.now)), h.evicted)
  }

  function Housekeep(w: World, h: Sweep): World {
    w.(rows := SweptRows(w.rows, h),
       clocks := Forget(Forget(w.clocks, Stale(w.clocks, h.now)), h.evicted),
       now := h.now)
  }
}
