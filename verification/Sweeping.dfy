/** What housekeeping guarantees. */
module Sweeping {
  import opened Basics
  import opened Lifecycle
  import opened Invariants

  /** Every suppressed alert has an open or acknowledged parent in its tenant. */
  ghost predicate AllParented(rows: map<Id, Alert>) {
    forall i :: i in rows && rows[i].status == Suppressed ==> LiveParent(rows, rows[i])
  }

  ghost predicate PointersSet(rows: map<Id, Alert>) {
    forall i :: i in rows && rows[i].status == Suppressed ==> rows[i].suppressedBy.Some?
  }

  lemma AutoCloseKeeps(rows: map<Id, Alert>, nextId: nat, now: Time, h: Sweep)
    requires Table(rows, nextId, now) && now <= h.now
    ensures Table(AutoClose(rows, h), nextId, h.now)
  {
  }

  lemma RecoverKeeps(rows: map<Id, Alert>, nextId: nat, now: Time)
    requires Table(rows, nextId, now)
    ensures Table(RecoverOrphans(rows), nextId, now)
  {
  }

  /** Recovery leaves no orphan behind, whatever auto-close did to the parents before it. */
  lemma RecoveredAreParented(rows: map<Id, Alert>)
    requires PointersSet(rows)
    ensures AllParented(RecoverOrphans(rows))
  {
    var r := RecoverOrphans(rows);
    forall i | i in r && r[i].status == Suppressed
      ensures LiveParent(r, r[i])
    {
      assert r[i] == rows[i] && LiveParent(rows, rows[i]);
    }
  }

  /** Retention never deletes the parent of a suppressed alert once all are parented. */
  lemma PurgeSparesParents(rows: map<Id, Alert>, h: Sweep)
    requires AllParented(rows)
    ensures AllParented(Purge(rows, h))
    ensures forall i :: i in rows && rows[i].status == Suppressed && !Purges(h, rows[i]) ==>
              i in Purge(rows, h) && Purge(rows, h)[i] == rows[i]
  {
    forall i | i in rows && rows[i].status == Suppressed && !Purges(h, rows[i])
      ensures i in Purge(rows, h) && Purge(rows, h)[i] == rows[i] && LiveParent(Purge(rows, h), rows[i])
    {
      assert LiveParent(rows, rows[i]);
    }
  }

  lemma PurgeKeeps(rows: map<Id, Alert>, nextId: nat, now: Time, h: Sweep)
    requires Table(rows, nextId, now)
    ensures Table(Purge(rows, h), nextId, now)
  {
  }

  lemma SweptKeeps(rows: map<Id, Alert>, nextId: nat, now: Time, h: Sweep)
    requires Table(rows, nextId, now) && now <= h.now
    ensures Table(SweptRows(rows, h), nextId, h.now)
  {
    AutoCloseKeeps(rows, nextId, now, h);
    var closed := AutoClose(rows, h);
    RecoverKeeps(closed, nextId, h.now);
    PurgeKeeps(if h.recovers then RecoverOrphans(closed) else closed, nextId, h.now, h);
  }

  lemma AutoCloseKeepsPointers(rows: map<Id, Alert>, h: Sweep)
    requires PointersSet(rows)
    ensures PointersSet(AutoClose(rows, h))
  {
  }

  /** After a housekeeping pass whose recovery succeeds every suppressed alert has a live parent. */
  lemma SweptAreParented(rows: map<Id, Alert>, h: Sweep)
    requires PointersSet(rows) && h.recovers
    ensures AllParented(SweptRows(rows, h))
  {
    AutoCloseKeepsPointers(rows, h);
    RecoveredAreParented(AutoClose(rows, h));
    PurgeSparesParents(RecoverOrphans(AutoClose(rows, h)), h);
  }

  // ------------------------------------------------------------------ when recovery fails

  /** Retention will delete `a`, given what auto-close does to it first. */
  predicate ClosesAndPurges(h: Sweep, a: Alert) {
    && a.tenant in h.settings && h.settings[a.tenant].retentionDays > 0
    && a.triggeredAt < h.now - h.settings[a.tenant].retentionDays * DAY
    && (a.status == Resolved || a.status == Expired || a.status == Suppressed || AutoCloses(h, a))
  }

  /** `i` is suppressed under an alert that retention deletes while `i` itself is kept. */
  predicate LosesParent(rows: map<Id, Alert>, h: Sweep, i: Id) {
    && i in rows && rows[i].status == Suppressed && !ClosesAndPurges(h, rows[i])
    && rows[i].suppressedBy.Some? && rows[i].suppressedBy.value in rows
    && ClosesAndPurges(h, rows[rows[i].suppressedBy.value])
  }

  lemma ClosedThenPurged(rows: map<Id, Alert>, h: Sweep, i: Id)
    requires i in rows
    ensures Purges(h, AutoClose(rows, h)[i]) <==> ClosesAndPurges(h, rows[i])
  {
  }

  /** One row of a sweep without recovery. */
  lemma UnrecoveredRow(rows: map<Id, Alert>, h: Sweep, i: Id)
    requires !h.recovers && i in rows && rows[i].status == Suppressed && !ClosesAndPurges(h, rows[i])
    ensures i in SweptRows(rows, h) && SweptRows(rows, h)[i].status == Suppressed
    ensures SweptRows(rows, h)[i].suppressedBy == if LosesParent(rows, h, i) then None else rows[i].suppressedBy
  {
    ClosedThenPurged(rows, h, i);
    if rows[i].suppressedBy.Some? && rows[i].suppressedBy.value in rows {
      ClosedThenPurged(rows, h, rows[i].suppressedBy.value);
    }
  }

  /** A sweep strands a suppressed alert, leaving it without a pointer, exactly if recovery fails
      and retention deletes the parent of a suppressed alert it keeps. */
  lemma SweepStrands(rows: map<Id, Alert>, h: Sweep)
    requires PointersSet(rows)
    ensures PointersSet(SweptRows(rows, h)) <==> h.recovers || forall i :: !LosesParent(rows, h, i)
  {
    if h.recovers {
      SweptAreParented(rows, h);
    } else {
      forall i | LosesParent(rows, h, i)
        ensures !PointersSet(SweptRows(rows, h))
      {
        UnrecoveredRow(rows, h, i);
      }
      forall i | i in SweptRows(rows, h) && SweptRows(rows, h)[i].status == Suppressed && !LosesParent(rows, h, i)
        ensures SweptRows(rows, h)[i].suppressedBy.Some?
      {
        ClosedThenPurged(rows, h, i);
        UnrecoveredRow(rows, h, i);
      }
    }
  }

  /** And no later recovery looks at an alert without a pointer. */
  lemma StrandedStays(rows: map<Id, Alert>, i: Id)
    requires i in rows && rows[i].status == Suppressed && rows[i].suppressedBy.None?
    ensures RecoverOrphans(rows)[i] == rows[i]
  {
  }

  // ------------------------------------------------------------------ what becomes of an alert

  /** The alert was raised more than `days` days ago, and `days` is not switched off. */
  predicate OlderThan(a: Alert, days: int, now: Time) {
    days > 0 && now - a.triggeredAt > days * 86_400_000_000
  }

  function SettingsOf(settings: map<Tenant, Settings>, a: Alert): Settings {
    if a.tenant in settings then settings[a.tenant] else Settings(0, 0)
  }

  predicate IsOpen(a: Alert) {
    a.status == Open || a.status == Acknowledged
  }

  /** Auto-close takes an open or acknowledged alert past its tenant's limit. */
  predicate Closed(settings: map<Tenant, Settings>, a: Alert, now: Time) {
    IsOpen(a) && OlderThan(a, SettingsOf(settings, a).autoCloseDays, now)
  }

  /** Recovery takes a suppressed alert whose parent is gone, another tenant's, or no longer open. */
  predicate Recovered(rows: map<Id, Alert>, settings: map<Tenant, Settings>, a: Alert, now: Time) {
    && a.status == Suppressed && a.suppressedBy.Some?
    && (a.suppressedBy.value in rows ==>
          var parent := rows[a.suppressedBy.value];
          parent.tenant != a.tenant || !IsOpen(parent) || Closed(settings, parent, now))
  }

  /** What a sweep makes of alert `i`: a stale open one is closed, an orphan reopened, and then what is
      not open and past the retention limit is deleted, and forgotten as a parent. */
  predicate SweptAlert(rows: map<Id, Alert>, rows': map<Id, Alert>, i: Id, now: Time,
                       settings: map<Tenant, Settings>, recovers: bool)
    requires i in rows
  {
    var a, closed := rows[i], Closed(settings, rows[i], now);
    var reopened := recovers && Recovered(rows, settings, a, now);
    var purgeable := closed || !(IsOpen(a) || reopened);
    && (i in rows' <==> !(purgeable && OlderThan(a, SettingsOf(settings, a).retentionDays, now)))
    && (i in rows' ==>
          var parent := if reopened || (a.suppressedBy.Some? && a.suppressedBy.value in rows
                                        && a.suppressedBy.value !in rows') then None else a.suppressedBy;
          rows'[i] == if closed then a.(status := Resolved, resolvedAt := Some(now), suppressedBy := parent)
                      else if reopened then a.(status := Open, lastNotified := None, suppressedBy := parent)
                      else a.(suppressedBy := parent))
  }

  lemma StagesMean(rows: map<Id, Alert>, h: Sweep, i: Id)
    requires i in rows
    ensures AutoCloses(h, rows[i]) <==> Closed(h.settings, rows[i], h.now)
    ensures Orphan(AutoClose(rows, h), AutoClose(rows, h)[i]) <==> Recovered(rows, h.settings, rows[i], h.now)
  {
  }

  lemma SweepMeans(rows: map<Id, Alert>, h: Sweep, i: Id)
    requires i in rows
    ensures SweptAlert(rows, SweptRows(rows, h), i, h.now, h.settings, h.recovers)
  {
    StagesMean(rows, h, i);
    if rows[i].suppressedBy.Some? && rows[i].suppressedBy.value in rows {
      StagesMean(rows, h, rows[i].suppressedBy.value);
    }
  }

  lemma SweptOnly(rows: map<Id, Alert>, h: Sweep)
    ensures forall i :: i in SweptRows(rows, h) ==> i in rows
  {
  }

  /** What a sweep may do to a row it keeps. */
  lemma SweptRow(rows: map<Id, Alert>, h: Sweep, i: Id)
    requires i in SweptRows(rows, h)
    ensures i in rows
    ensures var a, a' := rows[i], SweptRows(rows, h)[i];
      && a'.fp == a.fp && a'.tenant == a.tenant && a'.triggeredAt == a.triggeredAt
      && (a.status == Resolved ==> a' == a.(suppressedBy := a'.suppressedBy) && !Purges(h, a))
      && (a'.lastNotified.Some? ==> a'.lastNotified == a.lastNotified)
      && (a'.Active() ==> a.Active())
  {
  }

  /** A resolved row survives exactly if retention does not ask for it. */
  lemma ResolvedRowSurvives(rows: map<Id, Alert>, h: Sweep, i: Id)
    requires i in rows && rows[i].status == Resolved
    ensures i in SweptRows(rows, h) <==> !Purges(h, rows[i])
  {
  }

  lemma ForgetKeeps(c: Clocks, seen: seq<Sighting>, now: Time, fps: set<Fp>)
    requires Timely(c, seen, now)
    ensures Timely(Forget(c, fps), seen, now)
  {
  }

  lemma HousekeepKeeps(w: World, h: Sweep)
    requires Inv(w) && h.now >= w.now
    ensures Inv(Housekeep(w, h))
  {
    SweptKeeps(w.rows, w.nextId, w.now, h);
    var stale := Stale(w.clocks, h.now);
    ForgetKeeps(w.clocks, w.seen, h.now, stale);
    ForgetKeeps(Forget(w.clocks, stale), w.seen, h.now, h.evicted);
  }

  // ------------------------------------------------------------------ the cap

  lemma MapMinus<K, V>(m: map<K, V>, s: set<K>)
    requires s <= m.Keys
    ensures |m - s| == |m| - |s|
  {
    assert (m - s).Keys == m.Keys - s;
    assert |(m - s).Keys| == |m.Keys| - |s|;
  }

  lemma RecentlySeen(c: Clocks, now: Time) returns (pruned: map<Fp, Time>)
    ensures pruned == Forget(c, Stale(c, now)).lastSeen
    ensures pruned.Keys == set fp | fp in c.lastSeen && now - c.lastSeen[fp] <= 4 * 3600 * 1_000_000
    ensures forall fp :: fp in pruned ==> pruned[fp] == c.lastSeen[fp]
    ensures |pruned| == |pruned.Keys|
  {
    pruned := Forget(c, Stale(c, now)).lastSeen;
  }

  /** Engine memory after housekeeping: of what was seen within four hours nothing is forgotten, unless
      that is more than 50000 fingerprints; then 40000 stay, none seen earlier than one that went.
      Everything else is forgotten, by every clock. */
  lemma MemoryBound(w: World, h: Sweep)
    requires ValidSweep(w, h)
    ensures var c, c' := w.clocks, Housekeep(w, h).clocks;
      var recent := set fp | fp in c.lastSeen && h.now - c.lastSeen[fp] <= 4 * 3600 * 1_000_000;
      && c'.lastSeen.Keys <= recent && |c'.lastSeen| == (if |recent| > 50_000 then 40_000 else |recent|)
      && (forall f, g :: f in recent && f !in c'.lastSeen && g in c'.lastSeen ==> c.lastSeen[f] <= c.lastSeen[g])
      && (forall fp :: fp in c'.lastSeen ==> c'.lastSeen[fp] == c.lastSeen[fp])
  {
    var pruned := RecentlySeen(w.clocks, h.now);
    if |pruned| > MAX_FP {
      MapMinus(pruned, h.evicted);
    } else {
      assert pruned - {} == pruned;
    }
  }

  /** A fingerprint that is forgotten is forgotten by every clock, and the others keep theirs. */
  lemma ForgottenEverywhere(w: World, h: Sweep, fp: Fp)
    requires Inv(w) && ValidSweep(w, h)
    ensures var c, c' := w.clocks, Housekeep(w, h).clocks;
      if fp in c'.lastSeen || fp !in c.lastSeen
      then && Get(c'.breachSince, fp) == Get(c.breachSince, fp) && Get(c'.clearSince, fp) == Get(c.clearSince, fp)
           && Get(c'.lastClear, fp) == Get(c.lastClear, fp)
           && (fp in c'.suppressUntilClear <==> fp in c.suppressUntilClear)
      else && fp !in c'.breachSince && fp !in c'.clearSince && fp !in c'.lastClear && fp !in c'.suppressUntilClear
  {
  }
}
