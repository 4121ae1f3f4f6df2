/** Manual-resolve safety: after a user resolves an alert whose condition still holds, the engine
    must not raise it again until the condition has been seen to clear.

    The hold is either in the engine's memory or in the table, where the newest resolution is a
    user's.  This module says, for every event, exactly when it survives. */
module ManualResolve {
  import opened Basics
  import opened Lifecycle
  import opened Invariants
  import opened Sweeping
  import opened Runs
  import opened Outcomes

  /** The engine will not raise `fp`. */
  ghost predicate Held(w: World, fp: Fp) {
    fp in w.clocks.suppressUntilClear || HeldByRow(w.rows, w.clocks.lastClear, fp)
  }

  predicate Quiet(w: World, fp: Fp) {
    forall j :: j in w.rows && w.rows[j].fp == fp ==> !w.rows[j].Active()
  }

  /** No alert with `fp` is active and the engine will not raise one. */
  ghost predicate Guarded(w: World, fp: Fp) {
    Quiet(w, fp) && Held(w, fp)
  }

  ghost predicate SameFpRows(rows: map<Id, Alert>, rows': map<Id, Alert>, fp: Fp) {
    && (forall j :: j in rows' && rows'[j].fp == fp ==> j in rows && rows'[j] == rows[j])
    && (forall j :: j in rows && rows[j].fp == fp ==> j in rows' && rows'[j] == rows[j])
  }

  /** The hold in the table depends on the rows of `fp` and its last clear alone. */
  lemma RowHoldCarries(rows: map<Id, Alert>, c: map<Fp, Time>, rows': map<Id, Alert>, c': map<Fp, Time>, fp: Fp)
    requires SameFpRows(rows, rows', fp) && Get(c, fp) == Get(c', fp)
    requires HeldByRow(rows, c, fp)
    ensures HeldByRow(rows', c', fp)
  {
    var id :| id in rows && NewestResolved(rows, fp, id) && rows[id].resolvedBy.Some?
              && (fp in c ==> rows[id].resolvedAt.value > c[fp]);
    assert NewestResolved(rows', fp, id);
  }

  lemma SameRowHold(rows: map<Id, Alert>, c: map<Fp, Time>, rows': map<Id, Alert>, c': map<Fp, Time>, fp: Fp)
    requires SameFpRows(rows, rows', fp) && Get(c, fp) == Get(c', fp)
    ensures HeldByRow(rows, c, fp) <==> HeldByRow(rows', c', fp)
  {
    if HeldByRow(rows, c, fp) { RowHoldCarries(rows, c, rows', c', fp); }
    if HeldByRow(rows', c', fp) { RowHoldCarries(rows', c', rows, c, fp); }
  }

  // ------------------------------------------------------------------ the loops of a pass

  /** The rows of `fp` and its last clear are as they were, and a hold in memory stays. */
  ghost predicate Frozen(w: World, w': World, fp: Fp) {
    && SameFpRows(w.rows, w'.rows, fp)
    && Get(w'.clocks.lastClear, fp) == Get(w.clocks.lastClear, fp)
    && (fp in w.clocks.suppressUntilClear ==> fp in w'.clocks.suppressUntilClear)
    && (forall j :: j in w'.rows ==> j.n < w'.nextId)
  }

  predicate SameMemory(w: World, w': World, fp: Fp) {
    fp in w'.clocks.suppressUntilClear <==> fp in w.clocks.suppressUntilClear
  }

  lemma FrozenTransitive(w: World, w1: World, w2: World, fp: Fp)
    requires Frozen(w, w1, fp) && Frozen(w1, w2, fp)
    ensures Frozen(w, w2, fp)
    ensures SameMemory(w, w1, fp) && SameMemory(w1, w2, fp) ==> SameMemory(w, w2, fp)
  {
  }

  predicate FiresAs(p: Pass, firing: set<Fp>, b: Breach, fp: Fp) {
    Fingerprint(p.rule, b) == fp && fp in firing
  }

  lemma FireOneFreezes(w: World, p: Pass, firing: set<Fp>, b: Breach, fp: Fp)
    requires Quiet(w, fp) && forall j :: j in w.rows ==> j.n < w.nextId
    requires FiresAs(p, firing, b, fp) ==> Held(w, fp)
    ensures Frozen(w, FireOne(w, p, firing, b), fp)
    ensures !FiresAs(p, firing, b, fp) ==> SameMemory(w, FireOne(w, p, firing, b), fp)
  {
    assert forall j :: !Matches(w.rows, fp, j);
  }

  lemma {:induction false} FireAllFreezes(w: World, p: Pass, firing: set<Fp>, k: nat, fp: Fp)
    requires Quiet(w, fp) && (forall j :: j in w.rows ==> j.n < w.nextId) && k <= |p.breaches|
    requires (exists i :: 0 <= i < k && FiresAs(p, firing, p.breaches[i], fp)) ==> Held(w, fp)
    ensures Frozen(w, FireAll(w, p, firing, k), fp)
    ensures (forall i :: 0 <= i < k ==> !FiresAs(p, firing, p.breaches[i], fp)) ==>
              SameMemory(w, FireAll(w, p, firing, k), fp)
  {
    if k > 0 {
      FireAllFreezes(w, p, firing, k - 1, fp);
      var w1 := FireAll(w, p, firing, k - 1);
      SameRowHold(w.rows, w.clocks.lastClear, w1.rows, w1.clocks.lastClear, fp);
      FireOneFreezes(w1, p, firing, p.breaches[k - 1], fp);
      FrozenTransitive(w, w1, FireAll(w, p, firing, k), fp);
    }
  }

  lemma EscalateFreezes(w: World, p: Pass, breaching: set<Fp>, id: Id, fp: Fp)
    requires Quiet(w, fp) && forall j :: j in w.rows ==> j.n < w.nextId
    ensures Frozen(w, EscalateOne(w, p, breaching, id), fp)
    ensures SameMemory(w, EscalateOne(w, p, breaching, id), fp)
  {
  }

  lemma {:induction false} EscalateAllFreezes(w: World, p: Pass, breaching: set<Fp>, k: nat, fp: Fp)
    requires Quiet(w, fp) && (forall j :: j in w.rows ==> j.n < w.nextId) && k <= |p.escalationOrder|
    ensures Frozen(w, EscalateAll(w, p, breaching, k), fp)
    ensures SameMemory(w, EscalateAll(w, p, breaching, k), fp)
  {
    if k > 0 {
      EscalateAllFreezes(w, p, breaching, k - 1, fp);
      var w1 := EscalateAll(w, p, breaching, k - 1);
      EscalateFreezes(w1, p, breaching, p.escalationOrder[k - 1], fp);
      FrozenTransitive(w, w1, EscalateAll(w, p, breaching, k), fp);
    }
  }

  lemma AutoResolveFreezes(w: World, p: Pass, i: Id, fp: Fp)
    requires Quiet(w, fp) && (forall j :: j in w.rows ==> j.n < w.nextId) && i in w.rows && w.rows[i].fp != fp
    ensures Frozen(w, AutoResolve(w, p, i), fp) && SameMemory(w, AutoResolve(w, p, i), fp)
  {
  }

  lemma RenotifyFreezes(w: World, p: Pass, i: Id, fp: Fp)
    requires Quiet(w, fp) && (forall j :: j in w.rows ==> j.n < w.nextId) && i in w.rows && w.rows[i].fp != fp
    ensures Frozen(w, Renotify(w, p, i), fp) && SameMemory(w, Renotify(w, p, i), fp)
  {
  }

  /** Other clocks than the last clear and the memory do not matter. */
  lemma ClockedFreezes(w: World, c: Clocks, w': World, fp: Fp)
    requires c.lastClear == w.clocks.lastClear && c.suppressUntilClear == w.clocks.suppressUntilClear
    requires Frozen(w.(clocks := c), w', fp) && SameMemory(w.(clocks := c), w', fp)
    ensures Frozen(w, w', fp) && SameMemory(w, w', fp)
  {
  }

  lemma ResolveOneFreezes(w: World, p: Pass, breaching: set<Fp>, i: Id, fp: Fp)
    requires Quiet(w, fp) && forall j :: j in w.rows ==> j.n < w.nextId
    ensures Frozen(w, ResolveOne(w, p, breaching, i), fp)
    ensures SameMemory(w, ResolveOne(w, p, breaching, i), fp)
  {
    if i in w.rows && w.rows[i].Active() {
      var c := w.clocks.(lastSeen := w.clocks.lastSeen[w.rows[i].fp := p.now]);
      var w1 := w.(clocks := c);
      if w.rows[i].fp in breaching {
        RenotifyFreezes(w1, p, i, fp);
        ClockedFreezes(w, c, Renotify(w1, p, i), fp);
      } else {
        AutoResolveFreezes(w1, p, i, fp);
        ClockedFreezes(w, c, AutoResolve(w1, p, i), fp);
      }
    }
  }

  lemma {:induction false} ResolveAllFreezes(w: World, p: Pass, breaching: set<Fp>, k: nat, fp: Fp)
    requires Quiet(w, fp) && (forall j :: j in w.rows ==> j.n < w.nextId) && k <= |p.resolveOrder|
    ensures Frozen(w, ResolveAll(w, p, breaching, k), fp)
    ensures SameMemory(w, ResolveAll(w, p, breaching, k), fp)
  {
    if k > 0 {
      ResolveAllFreezes(w, p, breaching, k - 1, fp);
      var w1 := ResolveAll(w, p, breaching, k - 1);
      ResolveOneFreezes(w1, p, breaching, p.resolveOrder[k - 1], fp);
      FrozenTransitive(w, w1, ResolveAll(w, p, breaching, k), fp);
    }
  }

  // ------------------------------------------------------------------ a pass

  /** The gate ends a hold exactly if it is in memory and `fp` is not breaching. */
  predicate GateKeepsHold(w: World, p: Pass, fp: Fp) {
    fp in Fps(p.rule, p.breaches) || fp !in w.clocks.suppressUntilClear
  }

  lemma GatedHold(w: World, p: Pass, fp: Fp)
    requires Inv(w) && Held(w, fp) && p.now >= w.now
    ensures Gated(w, p).rows == w.rows && Gated(w, p).nextId == w.nextId
    ensures Held(Gated(w, p), fp) <==> GateKeepsHold(w, p, fp)
    ensures fp !in Fps(p.rule, p.breaches) ==> fp !in Gated(w, p).clocks.suppressUntilClear
  {
    GateKeeps(w.clocks, p.rule, p.breaches, p.now);
    var g := Gated(w, p);
    if fp in w.clocks.suppressUntilClear && fp !in Fps(p.rule, p.breaches) {
      assert g.clocks.lastClear[fp] == p.now;
    } else {
      assert Get(g.clocks.lastClear, fp) == Get(w.clocks.lastClear, fp);
    }
  }

  lemma FiringIsBreaching(w: World, p: Pass, fp: Fp)
    requires fp !in Fps(p.rule, p.breaches)
    ensures forall i :: 0 <= i < |p.breaches| ==> !FiresAs(p, Firing(w, p), p.breaches[i], fp)
  {
    assert forall b :: b in p.breaches ==> Fingerprint(p.rule, b) in Fps(p.rule, p.breaches);
  }

  /** After the gate, nothing in a pass touches the rows of a guarded fingerprint or its hold. */
  lemma LoopsFreeze(w: World, p: Pass, stop: Abort, fp: Fp)
    requires Inv(w) && Guarded(w, fp) && p.now >= w.now && ValidAbort(p, stop) && stop != BeforeGate
    ensures Frozen(Gated(w, p), UpTo(w, p, stop), fp)
    ensures fp !in Fps(p.rule, p.breaches) ==> SameMemory(Gated(w, p), UpTo(w, p, stop), fp)
  {
    var g, breaching := Gated(w, p), Fps(p.rule, p.breaches);
    GatedHold(w, p, fp);
    if fp !in breaching { FiringIsBreaching(w, p, fp); }
    FireAllFreezes(g, p, Firing(w, p), if stop.WhileFiring? then stop.done else |p.breaches|, fp);
    if stop.WhileResolving? {
      EscalateAllFreezes(Fired(w, p), p, breaching, |p.escalationOrder|, fp);
      FrozenTransitive(g, Fired(w, p), EscalateAll(Fired(w, p), p, breaching, |p.escalationOrder|), fp);
      ResolveAllFreezes(Escalated(w, p), p, breaching, stop.done, fp);
      FrozenTransitive(g, Escalated(w, p), UpTo(w, p, stop), fp);
    }
  }

  lemma UpToHold(w: World, p: Pass, stop: Abort, fp: Fp)
    requires Inv(w) && Guarded(w, fp) && p.now >= w.now && ValidAbort(p, stop) && stop != BeforeGate
    ensures SameFpRows(w.rows, UpTo(w, p, stop).rows, fp)
    ensures Held(UpTo(w, p, stop), fp) <==> GateKeepsHold(w, p, fp)
  {
    GatedHold(w, p, fp);
    LoopsFreeze(w, p, stop, fp);
    var g, u := Gated(w, p), UpTo(w, p, stop);
    SameRowHold(g.rows, g.clocks.lastClear, u.rows, u.clocks.lastClear, fp);
  }

  predicate KeepsAttempt(w: World, a: Attempt, fp: Fp) {
    !a.p.anyDevice || a.stop == Some(BeforeGate) || GateKeepsHold(w, a.p, fp)
  }

  /** A pass, aborted or not, keeps the guard exactly if its gate keeps the hold. */
  lemma AttemptGuard(w: World, a: Attempt, fp: Fp)
    requires Inv(w) && Guarded(w, fp) && ValidAttempt(w, a)
    ensures SameFpRows(w.rows, Attempted(w, a).rows, fp)
    ensures Guarded(Attempted(w, a), fp) <==> KeepsAttempt(w, a, fp)
  {
    if a.stop.Some? {
      if a.stop.value != BeforeGate {
        var u := UpTo(w, a.p, a.stop.value);
        UpToHold(w, a.p, a.stop.value, fp);
        SameRowHold(u.rows, u.clocks.lastClear, w.rows, u.clocks.lastClear, fp);
      }
    } else if a.p.anyDevice {
      UpToHold(w, a.p, WhileResolving(|a.p.resolveOrder|), fp);
    }
  }

  // ------------------------------------------------------------------ a cycle that is rolled back

  /** The engine has let go of `fp`: no user's resolution in `rows` is newer than its last clear. */
  ghost predicate Released(c: Clocks, rows: map<Id, Alert>, fp: Fp) {
    && fp !in c.suppressUntilClear && fp in c.lastClear
    && forall j :: j in rows && rows[j].fp == fp && rows[j].status == Resolved && rows[j].resolvedBy.Some? ==>
         rows[j].resolvedAt.Some? && rows[j].resolvedAt.value <= c.lastClear[fp]
  }

  /** What a step of a pass may do to a released fingerprint: it stays released, in the current table
      and in that of the start of the cycle. */
  ghost predicate Loose(w: World, rows0: map<Id, Alert>, fp: Fp) {
    Released(w.clocks, w.rows, fp) && Released(w.clocks, rows0, fp) && w.clocks.lastClear[fp] <= w.now
  }

  lemma LooseIsNotHeld(w: World, rows0: map<Id, Alert>, fp: Fp)
    requires Loose(w, rows0, fp)
    ensures !Held(w, fp) && !HeldByRow(rows0, w.clocks.lastClear, fp)
  {
  }

  lemma GatedLoose(w: World, p: Pass, rows0: map<Id, Alert>, fp: Fp)
    requires Loose(w, rows0, fp) && p.now >= w.now
    ensures Loose(Gated(w, p), rows0, fp)
  {
    GateKeeps(w.clocks, p.rule, p.breaches, p.now);
  }

  lemma FireOneLoose(w: World, p: Pass, firing: set<Fp>, b: Breach, rows0: map<Id, Alert>, fp: Fp)
    requires Loose(w, rows0, fp)
    ensures Loose(FireOne(w, p, firing, b), rows0, fp)
  {
    LooseIsNotHeld(w, rows0, fp);
  }

  lemma {:induction false} FireAllLoose(w: World, p: Pass, firing: set<Fp>, k: nat, rows0: map<Id, Alert>, fp: Fp)
    requires Loose(w, rows0, fp) && k <= |p.breaches|
    ensures Loose(FireAll(w, p, firing, k), rows0, fp)
  {
    if k > 0 {
      FireAllLoose(w, p, firing, k - 1, rows0, fp);
      FireOneLoose(FireAll(w, p, firing, k - 1), p, firing, p.breaches[k - 1], rows0, fp);
    }
  }

  lemma {:induction false} EscalateAllLoose(w: World, p: Pass, breaching: set<Fp>, k: nat,
                                            rows0: map<Id, Alert>, fp: Fp)
    requires Loose(w, rows0, fp) && k <= |p.escalationOrder|
    ensures Loose(EscalateAll(w, p, breaching, k), rows0, fp)
  {
    if k > 0 { EscalateAllLoose(w, p, breaching, k - 1, rows0, fp); }
  }

  lemma ResolveOneLoose(w: World, p: Pass, breaching: set<Fp>, id: Id, rows0: map<Id, Alert>, fp: Fp)
    requires Inv(w) && Loose(w, rows0, fp) && w.now == p.now
    ensures Loose(ResolveOne(w, p, breaching, id), rows0, fp)
  {
  }

  lemma {:induction false} ResolveAllLoose(w: World, p: Pass, breaching: set<Fp>, k: nat, rows0: map<Id, Alert>, fp: Fp)
    requires During(w, p, breaching) && Loose(w, rows0, fp) && k <= |p.resolveOrder|
    ensures Loose(ResolveAll(w, p, breaching, k), rows0, fp)
  {
    if k > 0 {
      ResolveAllKeeps(w, p, breaching, k - 1);
      ResolveAllLoose(w, p, breaching, k - 1, rows0, fp);
      ResolveOneLoose(ResolveAll(w, p, breaching, k - 1), p, breaching, p.resolveOrder[k - 1], rows0, fp);
    }
  }

  lemma UpToLoose(w: World, p: Pass, stop: Abort, rows0: map<Id, Alert>, fp: Fp)
    requires Inv(w) && Loose(w, rows0, fp) && ValidPass(w, p) && ValidAbort(p, stop)
    ensures Loose(UpTo(w, p, stop), rows0, fp)
  {
    if stop != BeforeGate {
      var breaching := Fps(p.rule, p.breaches);
      GatedLoose(w, p, rows0, fp);
      FireAllLoose(Gated(w, p), p, Firing(w, p), if stop.WhileFiring? then stop.done else |p.breaches|, rows0, fp);
      if stop.WhileResolving? {
        EscalateAllLoose(Fired(w, p), p, breaching, |p.escalationOrder|, rows0, fp);
        EscalatedKeeps(w, p);
        ResolveAllLoose(Escalated(w, p), p, breaching, stop.done, rows0, fp);
      }
    }
  }

  lemma AttemptLoose(w: World, a: Attempt, rows0: map<Id, Alert>, fp: Fp)
    requires Inv(w) && Loose(w, rows0, fp) && ValidAttempt(w, a)
    ensures Loose(Attempted(w, a), rows0, fp)
  {
    if a.stop.Some? {
      UpToLoose(w, a.p, a.stop.value, rows0, fp);
      UpToLoose(w, a.p, a.stop.value, w.rows, fp);
    } else if a.p.anyDevice {
      UpToLoose(w, a.p, WhileResolving(|a.p.resolveOrder|), rows0, fp);
    }
  }

  lemma {:induction false} CycleLoose(w: World, attempts: seq<Attempt>, rows0: map<Id, Alert>, fp: Fp)
    requires Inv(w) && Loose(w, rows0, fp) && ValidCycle(w, attempts)
    ensures Loose(Cycle(w, attempts), rows0, fp)
    decreases |attempts|
  {
    if attempts != [] {
      AttemptKeeps(w, attempts[0]);
      AttemptLoose(w, attempts[0], rows0, fp);
      CycleLoose(Attempted(w, attempts[0]), attempts[1..], rows0, fp);
    }
  }

  /** A hold that a pass ends is released, for good as far as the cycle goes. */
  lemma AttemptReleases(w: World, a: Attempt, rows0: map<Id, Alert>, fp: Fp)
    requires Inv(w) && Guarded(w, fp) && ValidAttempt(w, a) && !KeepsAttempt(w, a, fp)
    requires forall j :: j in rows0 && rows0[j].fp == fp ==> j in w.rows && w.rows[j] == rows0[j]
    ensures Loose(Attempted(w, a), rows0, fp)
  {
    GateKeeps(w.clocks, a.p.rule, a.p.breaches, a.p.now);
    var g := Gated(w, a.p);
    assert g.clocks.lastClear[fp] == a.p.now && fp !in g.clocks.suppressUntilClear;
    var stop := if a.stop.Some? then a.stop.value else WhileResolving(|a.p.resolveOrder|);
    LoopsFreeze(w, a.p, stop, fp);
    UpToKeeps(w, a.p, stop);
    assert Get(UpTo(w, a.p, stop).clocks.lastClear, fp) == Some(a.p.now);
  }

  ghost predicate KeepsCycle(w: World, attempts: seq<Attempt>, fp: Fp)
    requires ValidCycle(w, attempts)
    decreases |attempts|
  {
    attempts == [] || (KeepsAttempt(w, attempts[0], fp) && KeepsCycle(Attempted(w, attempts[0]), attempts[1..], fp))
  }

  /** The clocks after a cycle hold `fp` over the table of its start exactly if every pass kept the
      hold. */
  lemma {:induction false} CycleGuard(w: World, attempts: seq<Attempt>, rows0: map<Id, Alert>, fp: Fp)
    requires Inv(w) && Guarded(w, fp) && ValidCycle(w, attempts) && SameFpRows(rows0, w.rows, fp)
    ensures fp in Cycle(w, attempts).clocks.suppressUntilClear
            || HeldByRow(rows0, Cycle(w, attempts).clocks.lastClear, fp)
            <==> KeepsCycle(w, attempts, fp)
    decreases |attempts|
  {
    if attempts == [] {
      SameRowHold(rows0, w.clocks.lastClear, w.rows, w.clocks.lastClear, fp);
    } else {
      var w1 := Attempted(w, attempts[0]);
      AttemptKeeps(w, attempts[0]);
      AttemptGuard(w, attempts[0], fp);
      if KeepsAttempt(w, attempts[0], fp) {
        CycleGuard(w1, attempts[1..], rows0, fp);
      } else {
        AttemptReleases(w, attempts[0], rows0, fp);
        CycleLoose(w1, attempts[1..], rows0, fp);
        LooseIsNotHeld(Cycle(w, attempts), rows0, fp);
      }
    }
  }

  // ------------------------------------------------------------------ every event

  /** Housekeeping drops what the engine remembers about `fp`. */
  predicate Forgets(w: World, h: Sweep, fp: Fp) {
    fp in Stale(w.clocks, h.now) || fp in h.evicted
  }

  /** Of the resolved rows of `fp` that retention leaves, `id` is the newest. */
  predicate NewestLeft(rows: map<Id, Alert>, h: Sweep, fp: Fp, id: Id) {
    && id in rows && rows[id].fp == fp && rows[id].status == Resolved && rows[id].resolvedAt.Some?
    && !Purges(h, rows[id])
    && forall j :: j in rows && rows[j].fp == fp && rows[j].status == Resolved && !Purges(h, rows[j]) ==>
         (rows[j].resolvedAt.Some? ==> rows[j].resolvedAt.value <= rows[id].resolvedAt.value)
  }

  /** The newest resolution that retention leaves is a user's, not older than a remembered clear. */
  predicate RowHoldLeft(w: World, h: Sweep, fp: Fp) {
    exists id :: id in w.rows && NewestLeft(w.rows, h, fp, id) && w.rows[id].resolvedBy.Some?
                 && (fp in w.clocks.lastClear && !Forgets(w, h, fp) ==>
                       w.rows[id].resolvedAt.value > w.clocks.lastClear[fp])
  }

  /** When an event keeps the hold on a guarded fingerprint. */
  ghost predicate Keeps(w: World, e: Event, fp: Fp)
    requires ValidStep(w, e)
  {
    match e
    case Evaluate(p) => KeepsAttempt(w, Attempt(p, None), fp)
    case AbortEvaluation(p, at) => KeepsAttempt(w, Attempt(p, Some(at)), fp)
    case RollBack(attempts, _) => KeepsCycle(w, attempts, fp)
    case SweepTables(h) =>
      (fp in w.clocks.suppressUntilClear && !Forgets(w, h, fp)) || RowHoldLeft(w, h, fp)
    case Restart(_) => HeldByRow(w.rows, map[], fp)
    case _ => true
  }

  lemma SweptFpRow(rows: map<Id, Alert>, h: Sweep, fp: Fp, j: Id)
    requires j in rows && rows[j].fp == fp && rows[j].status == Resolved
    ensures j in SweptRows(rows, h) <==> !Purges(h, rows[j])
    ensures j in SweptRows(rows, h) ==>
      SweptRows(rows, h)[j] == rows[j].(suppressedBy := SweptRows(rows, h)[j].suppressedBy)
  {
    ResolvedRowSurvives(rows, h, j);
    if j in SweptRows(rows, h) { SweptRow(rows, h, j); }
  }

  /** `left` holds, of the rows of `fp`, exactly those retention leaves, all resolved. */
  ghost predicate LeftOver(rows: map<Id, Alert>, left: map<Id, Alert>, h: Sweep, fp: Fp) {
    && (forall j :: j in left && left[j].fp == fp ==>
          && j in rows && rows[j].fp == fp && rows[j].status == Resolved && !Purges(h, rows[j])
          && left[j] == rows[j].(suppressedBy := left[j].suppressedBy))
    && (forall j :: j in rows && rows[j].fp == fp && !Purges(h, rows[j]) ==>
          j in left && left[j] == rows[j].(suppressedBy := left[j].suppressedBy))
  }

  lemma SweptQuiet(w: World, h: Sweep, fp: Fp)
    requires Inv(w) && Quiet(w, fp)
    ensures LeftOver(w.rows, SweptRows(w.rows, h), h, fp)
  {
    forall j | j in SweptRows(w.rows, h) && SweptRows(w.rows, h)[j].fp == fp
      ensures j in w.rows && w.rows[j].fp == fp && w.rows[j].status == Resolved
    {
      SweptRow(w.rows, h, j);
    }
    forall j | j in w.rows && w.rows[j].fp == fp
      ensures w.rows[j].status == Resolved && (j in SweptRows(w.rows, h) <==> !Purges(h, w.rows[j]))
      ensures j in SweptRows(w.rows, h) ==>
        SweptRows(w.rows, h)[j] == w.rows[j].(suppressedBy := SweptRows(w.rows, h)[j].suppressedBy)
    {
      SweptFpRow(w.rows, h, fp, j);
    }
  }

  lemma LeftNewest(rows: map<Id, Alert>, left: map<Id, Alert>, h: Sweep, fp: Fp, id: Id)
    requires LeftOver(rows, left, h, fp)
    ensures NewestResolved(left, fp, id) <==> NewestLeft(rows, h, fp, id)
  {
  }

  lemma LeftHold(w: World, left: map<Id, Alert>, c: map<Fp, Time>, h: Sweep, fp: Fp)
    requires LeftOver(w.rows, left, h, fp)
    requires Get(c, fp) == if Forgets(w, h, fp) then None else Get(w.clocks.lastClear, fp)
    ensures HeldByRow(left, c, fp) <==> RowHoldLeft(w, h, fp)
  {
    forall id
      ensures NewestResolved(left, fp, id) <==> NewestLeft(w.rows, h, fp, id)
    {
      LeftNewest(w.rows, left, h, fp, id);
    }
  }

  lemma SweptRowHold(w: World, h: Sweep, fp: Fp)
    requires Inv(w) && Quiet(w, fp)
    ensures HeldByRow(SweptRows(w.rows, h), Housekeep(w, h).clocks.lastClear, fp) <==> RowHoldLeft(w, h, fp)
  {
    SweptQuiet(w, h, fp);
    LeftHold(w, SweptRows(w.rows, h), Housekeep(w, h).clocks.lastClear, h, fp);
  }

  /** No row of `fp` is new. */
  ghost predicate NoneNew(w: World, w': World, fp: Fp) {
    forall j :: j in w'.rows && w'.rows[j].fp == fp ==> j in w.rows && w.rows[j].fp == fp && !w'.rows[j].Active()
  }

  lemma SweepGuard(w: World, h: Sweep, fp: Fp)
    requires Inv(w) && Guarded(w, fp) && ValidSweep(w, h)
    ensures Guarded(Housekeep(w, h), fp) <==> Keeps(w, SweepTables(h), fp)
    ensures NoneNew(w, Housekeep(w, h), fp)
  {
    SweptQuiet(w, h, fp);
    SweptRowHold(w, h, fp);
  }

  lemma RollBackGuard(w: World, attempts: seq<Attempt>, dispatched: bool, fp: Fp)
    requires Inv(w) && Guarded(w, fp) && ValidCycle(w, attempts)
    ensures Guarded(RolledBack(w, attempts, dispatched), fp) <==> KeepsCycle(w, attempts, fp)
  {
    CycleGuard(w, attempts, w.rows, fp);
  }

  lemma UserGuard(w: World, e: Event, fp: Fp)
    requires Inv(w) && Guarded(w, fp) && ValidStep(w, e) && IsUserStep(e)
    ensures Guarded(Step(w, e), fp) && NoneNew(w, Step(w, e), fp)
  {
    assert SameFpRows(w.rows, Step(w, e).rows, fp);
    SameRowHold(w.rows, w.clocks.lastClear, Step(w, e).rows, w.clocks.lastClear, fp);
  }

  /** Whatever happens, a guarded fingerprint gets no new alert, and it stays guarded exactly if the
      event keeps the hold. */
  lemma GuardStep(w: World, e: Event, fp: Fp)
    requires Inv(w) && Guarded(w, fp) && ValidStep(w, e)
    ensures Guarded(Step(w, e), fp) <==> Keeps(w, e, fp)
    ensures NoneNew(w, Step(w, e), fp)
  {
    match e
    case Evaluate(p) => AttemptGuard(w, Attempt(p, None), fp);
    case AbortEvaluation(p, at) => AttemptGuard(w, Attempt(p, Some(at)), fp);
    case RollBack(attempts, dispatched) => RollBackGuard(w, attempts, dispatched, fp);
    case SweepTables(h) => SweepGuard(w, h, fp);
    case Restart(_) =>
    case _ => UserGuard(w, e, fp);
  }

  // ------------------------------------------------------------------ runs

  /** Guarded at every point of the run. */
  ghost predicate Throughout(w: World, es: seq<Event>, fp: Fp)
    requires ValidRun(w, es)
    decreases |es|
  {
    Guarded(w, fp) && (es == [] || Throughout(Step(w, es[0]), es[1..], fp))
  }

  ghost predicate KeepsAll(w: World, es: seq<Event>, fp: Fp)
    requires ValidRun(w, es)
    decreases |es|
  {
    es == [] || (Keeps(w, es[0], fp) && KeepsAll(Step(w, es[0]), es[1..], fp))
  }

  lemma {:induction false} GuardRun(w: World, es: seq<Event>, fp: Fp)
    requires Inv(w) && Guarded(w, fp) && ValidRun(w, es)
    ensures Throughout(w, es, fp) <==> KeepsAll(w, es, fp)
    ensures KeepsAll(w, es, fp) ==> NoneNew(w, Run(w, es), fp) && Guarded(Run(w, es), fp)
    decreases |es|
  {
    if es != [] {
      StepKeeps(w, es[0]);
      GuardStep(w, es[0], fp);
      if Keeps(w, es[0], fp) { GuardRun(Step(w, es[0]), es[1..], fp); }
    }
  }

  /** A user's resolution takes effect. */
  lemma ResolutionGuards(w: World, id: Id, user: User, at: Time)
    requires Inv(w) && w.now < at && id in w.rows && w.rows[id].Active()
    ensures Guarded(Step(w, UserResolve(id, user, at)), w.rows[id].fp)
  {
    var w' := Step(w, UserResolve(id, user, at));
    assert NewestResolved(w'.rows, w.rows[id].fp, id);
  }

  /** Manual-resolve safety, exactly.  From the moment a user resolves an active alert, its
      fingerprint is guarded throughout a run if and only if every event of the run keeps the hold,
      and then no alert with that fingerprint is created. */
  lemma ManualResolveSafety(w: World, id: Id, user: User, at: Time, es: seq<Event>)
    requires Inv(w) && w.now < at && id in w.rows && w.rows[id].Active()
    requires ValidRun(Step(w, UserResolve(id, user, at)), es)
    ensures var fp, w1 := w.rows[id].fp, Step(w, UserResolve(id, user, at));
      && (Throughout(w1, es, fp) <==> KeepsAll(w1, es, fp))
      && (KeepsAll(w1, es, fp) ==> NoneNew(w1, Run(w1, es), fp))
  {
    StepKeeps(w, UserResolve(id, user, at));
    ResolutionGuards(w, id, user, at);
    GuardRun(Step(w, UserResolve(id, user, at)), es, w.rows[id].fp);
  }

  // ------------------------------------------------------------------ and when the hold is gone

  lemma FireOneRaises(w: World, p: Pass, firing: set<Fp>, b: Breach, fp: Fp)
    requires Quiet(w, fp) && !Held(w, fp) && FiresAs(p, firing, b, fp)
    ensures Matches(FireOne(w, p, firing, b).rows, fp, Id(w.nextId))
  {
    assert forall j :: !Matches(w.rows, fp, j);
  }

  lemma FireOneStays(w: World, p: Pass, firing: set<Fp>, b: Breach, fp: Fp, j: Id)
    requires Matches(w.rows, fp, j) && j.n < w.nextId
    ensures Matches(FireOne(w, p, firing, b).rows, fp, j)
  {
  }

  lemma {:induction false} FireAllRaises(w: World, p: Pass, firing: set<Fp>, breaching: set<Fp>, k: nat, fp: Fp)
      returns (j: Id)
    requires During(w, p, breaching) && firing <= breaching && k <= |p.breaches|
    requires Quiet(w, fp) && !Held(w, fp) && exists i :: 0 <= i < k && FiresAs(p, firing, p.breaches[i], fp)
    ensures Matches(FireAll(w, p, firing, k).rows, fp, j)
  {
    var w1, b := FireAll(w, p, firing, k - 1), p.breaches[k - 1];
    assert FireAll(w, p, firing, k) == FireOne(w1, p, firing, b);
    FireAllKeeps(w, p, firing, breaching, k - 1);
    if exists i :: 0 <= i < k - 1 && FiresAs(p, firing, p.breaches[i], fp) {
      j := FireAllRaises(w, p, firing, breaching, k - 1, fp);
      FireOneStays(w1, p, firing, b, fp, j);
    } else {
      FireAllFreezes(w, p, firing, k - 1, fp);
      SameRowHold(w.rows, w.clocks.lastClear, w1.rows, w1.clocks.lastClear, fp);
      FireOneRaises(w1, p, firing, b, fp);
      j := Id(w1.nextId);
    }
  }

  lemma {:induction false} EscalateAllStays(w: World, p: Pass, breaching: set<Fp>, k: nat, fp: Fp, j: Id)
    requires Matches(w.rows, fp, j) && k <= |p.escalationOrder|
    ensures Matches(EscalateAll(w, p, breaching, k).rows, fp, j)
  {
    if k > 0 { EscalateAllStays(w, p, breaching, k - 1, fp, j); }
  }

  lemma ResolveOneStays(w: World, p: Pass, breaching: set<Fp>, id: Id, fp: Fp, j: Id)
    requires Matches(w.rows, fp, j) && fp in breaching
    ensures Matches(ResolveOne(w, p, breaching, id).rows, fp, j)
  {
  }

  lemma {:induction false} ResolveAllStays(w: World, p: Pass, breaching: set<Fp>, k: nat, fp: Fp, j: Id)
    requires Matches(w.rows, fp, j) && fp in breaching && k <= |p.resolveOrder|
    ensures Matches(ResolveAll(w, p, breaching, k).rows, fp, j)
  {
    if k > 0 {
      ResolveAllStays(w, p, breaching, k - 1, fp, j);
      ResolveOneStays(ResolveAll(w, p, breaching, k - 1), p, breaching, p.resolveOrder[k - 1], fp, j);
    }
  }

  lemma FiringHasBreach(w: World, p: Pass, fp: Fp)
    requires fp in Firing(w, p)
    ensures fp in Fps(p.rule, p.breaches)
    ensures exists i :: 0 <= i < |p.breaches| && FiresAs(p, Firing(w, p), p.breaches[i], fp)
  {
    GateKeeps(w.clocks, p.rule, p.breaches, p.now);
    var b :| b in p.breaches && Fingerprint(p.rule, b) == fp;
    var i :| 0 <= i < |p.breaches| && p.breaches[i] == b;
    assert FiresAs(p, Firing(w, p), p.breaches[i], fp);
  }

  lemma {:induction false} FireAllRemembers(w: World, p: Pass, firing: set<Fp>, k: nat, fp: Fp)
    requires Guarded(w, fp) && (forall j :: j in w.rows ==> j.n < w.nextId) && k <= |p.breaches|
    requires exists i :: 0 <= i < k && FiresAs(p, firing, p.breaches[i], fp)
    ensures fp in FireAll(w, p, firing, k).clocks.suppressUntilClear
  {
    var w1, b := FireAll(w, p, firing, k - 1), p.breaches[k - 1];
    assert FireAll(w, p, firing, k) == FireOne(w1, p, firing, b);
    FireAllFreezes(w, p, firing, k - 1, fp);
    SameRowHold(w.rows, w.clocks.lastClear, w1.rows, w1.clocks.lastClear, fp);
    FireOneFreezes(w1, p, firing, b, fp);
    if exists i :: 0 <= i < k - 1 && FiresAs(p, firing, p.breaches[i], fp) {
      FireAllRemembers(w, p, firing, k - 1, fp);
    } else {
      assert forall j :: !Matches(w1.rows, fp, j);
    }
  }

  /** A pass in which a guarded fingerprint fires takes the hold into memory. */
  lemma FiringRemembers(w: World, p: Pass, fp: Fp)
    requires Inv(w) && Guarded(w, fp) && ValidPass(w, p) && p.anyDevice && fp in Firing(w, p)
    ensures fp in RunPass(w, p).clocks.suppressUntilClear
  {
    var g, breaching := Gated(w, p), Fps(p.rule, p.breaches);
    FiringHasBreach(w, p, fp);
    GatedHold(w, p, fp);
    FireAllRemembers(g, p, Firing(w, p), |p.breaches|, fp);
    FireAllFreezes(g, p, Firing(w, p), |p.breaches|, fp);
    EscalateAllFreezes(Fired(w, p), p, breaching, |p.escalationOrder|, fp);
    ResolveAllFreezes(Escalated(w, p), p, breaching, |p.resolveOrder|, fp);
  }

  lemma GatedUnheld(w: World, p: Pass, fp: Fp)
    requires fp in Fps(p.rule, p.breaches)
    ensures Gated(w, p).rows == w.rows && Gated(w, p).nextId == w.nextId
    ensures Held(Gated(w, p), fp) <==> Held(w, fp)
  {
    GateKeeps(w.clocks, p.rule, p.breaches, p.now);
    var g := Gated(w, p);
    SameRowHold(w.rows, w.clocks.lastClear, g.rows, g.clocks.lastClear, fp);
  }

  lemma UnheldRaises(w: World, p: Pass, fp: Fp) returns (j: Id)
    requires Inv(w) && ValidPass(w, p) && p.anyDevice && fp in Firing(w, p)
    requires Quiet(w, fp) && !Held(w, fp)
    ensures Matches(RunPass(w, p).rows, fp, j)
  {
    var breaching := Fps(p.rule, p.breaches);
    FiringHasBreach(w, p, fp);
    GatedUnheld(w, p, fp);
    GatedKeeps(w, p);
    GateKeeps(w.clocks, p.rule, p.breaches, p.now);
    j := FireAllRaises(Gated(w, p), p, Firing(w, p), breaching, |p.breaches|, fp);
    EscalateAllStays(Fired(w, p), p, breaching, |p.escalationOrder|, fp, j);
    ResolveAllStays(Escalated(w, p), p, breaching, |p.resolveOrder|, fp, j);
  }

  /** A pass in which a fingerprint without an active alert fires raises one exactly if the hold is
      gone. */
  lemma RaisesExactlyUnheld(w: World, p: Pass, fp: Fp)
    requires Inv(w) && ValidPass(w, p) && p.anyDevice && fp in Firing(w, p) && Quiet(w, fp)
    ensures (exists j :: ActiveFor(RunPass(w, p).rows, fp, j)) <==>
      fp !in w.clocks.suppressUntilClear && !UserHolds(w.rows, w.clocks.lastClear, fp)
  {
    HoldMeans(w.rows, w.clocks.lastClear, fp);
    assert forall j :: ActiveFor(RunPass(w, p).rows, fp, j) <==> Matches(RunPass(w, p).rows, fp, j);
    if Held(w, fp) {
      AttemptGuard(w, Attempt(p, None), fp);
    } else {
      var j := UnheldRaises(w, p, fp);
    }
  }

  /** When some event of a run does not keep the hold, then at the first such event it is gone, so the
      next pass in which the fingerprint fires raises it. */
  lemma {:induction false} Lapses(w: World, es: seq<Event>, fp: Fp) returns (k: nat)
    requires Inv(w) && Guarded(w, fp) && ValidRun(w, es) && !KeepsAll(w, es, fp)
    ensures 0 < k <= |es| && ValidRun(w, es[..k])
    ensures Inv(Run(w, es[..k])) && Quiet(Run(w, es[..k]), fp) && !Held(Run(w, es[..k]), fp)
    decreases |es|
  {
    var w1 := Step(w, es[0]);
    StepKeeps(w, es[0]);
    GuardStep(w, es[0], fp);
    if Keeps(w, es[0], fp) {
      var n := Lapses(w1, es[1..], fp);
      k := n + 1;
      assert es[..k][0] == es[0] && es[..k][1..] == es[1..][..n];
    } else {
      k := 1;
      OneStep(w, es[0]);
      assert es[..1] == [es[0]];
    }
  }
}
