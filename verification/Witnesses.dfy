/** Runs from the initial state in which a promise fails. */
module Witnesses {
  import opened Basics
  import opened Suppression
  import opened Lifecycle
  import opened Invariants
  import opened Sweeping
  import opened Runs
  import opened Passes
  import opened Notifications
  import opened LostResolve
  import opened ManualResolve

  const TENANT := Tenant(0)
  const PORT := Breach(Device(0), None, None)
  const PORT_FP := Fp(0, Device(0), None)

  /** A run of one pass of a rule that has no alert yet creates one. */
  lemma Creates(w: World, r: RuleId, b: Breach, links: Links, now: Time)
      returns (p: Pass, es: seq<Event>, w': World)
    requires now >= w.now && LinksKnown(links, w.nextId)
    requires Fp(r, b.device, b.iface) !in w.clocks.suppressUntilClear
    requires forall i :: i in w.rows ==> w.rows[i].fp.rule != r
    ensures p == Pass(PlainRule(r), true, [b], now, links, [], [Id(w.nextId)])
    ensures es == [Evaluate(p)] && ValidRun(w, es) && w' == Run(w, es)
    ensures Created(w, p, Fp(r, b.device, b.iface), w')
  {
    var fp := Fp(r, b.device, b.iface);
    p, es, w' := PassExists(w, PlainRule(r), [b], links, now);
    GateOfOne(w.clocks, p.rule, [b], now);
    NewBreachCreates(w, p, fp, ParentOf(p, b));
    CreatedOnly(w, p, fp, w');
  }

  /** `w'` is `w` with the alert of `fp` that the pass creates. */
  ghost predicate Created(w: World, p: Pass, fp: Fp, w': World) {
    && |p.breaches| == 1
    && w'.rows == w.rows[Id(w.nextId) := NewAlert(p, fp, ParentOf(p, p.breaches[0]))]
    && w'.nextId == w.nextId + 1 && w'.now == p.now
    && w'.clocks.suppressUntilClear <= w.clocks.suppressUntilClear
    && fp !in w'.clocks.clearSince
    && w'.clocks.lastSeen.Keys <= w.clocks.lastSeen.Keys + w.clocks.suppressUntilClear + {fp}
  }

  lemma CreatedOnly(w: World, p: Pass, fp: Fp, w': World)
    requires p == Pass(PlainRule(p.rule.id), true, p.breaches, p.now, p.links, [], p.resolveOrder)
    requires |p.breaches| == 1 && fp == Fingerprint(p.rule, p.breaches[0])
    requires forall i :: i in w.rows ==> w.rows[i].fp.rule != p.rule.id
    requires var f := FiredOnce(w, p);
      && f.rows == w.rows[Id(w.nextId) := NewAlert(p, fp, ParentOf(p, p.breaches[0]))]
      && f.nextId == w.nextId + 1 && f.clocks == Gated(w, p).clocks && f.now == p.now
    requires forall i :: i in p.resolveOrder <==> Resolvable(FiredOnce(w, p), p, i)
    requires forall i, j :: 0 <= i < j < |p.resolveOrder| ==> p.resolveOrder[i] != p.resolveOrder[j]
    requires w' == ResolveAll(FiredOnce(w, p), p, {fp}, |p.resolveOrder|)
    ensures p.resolveOrder == [Id(w.nextId)] && Created(w, p, fp, w')
  {
    var f, id := FiredOnce(w, p), Id(w.nextId);
    Singleton(p.resolveOrder, id);
    ResolveSingle(f, p, {fp}, id);
    GateKeeps(w.clocks, p.rule, p.breaches, p.now);
    GateOfOne(w.clocks, p.rule, p.breaches, p.now);
    assert w' == f.(clocks := f.clocks.(lastSeen := f.clocks.lastSeen[fp := p.now]));
  }

  /** The port's alert is the only one there ever was, untouched since time 0. */
  predicate PortOpen(w: World) {
    && w.rows.Keys == {Id(0)} && w.rows[Id(0)] == NewAlert(PORT_PASS, PORT_FP, None)
    && w.nextId == 1 && w.now == 0
    && w.clocks.suppressUntilClear == {} && PORT_FP !in w.clocks.clearSince && w.clocks.lastSeen.Keys <= {PORT_FP}
  }

  const PORT_PASS := Pass(PlainRule(0), true, [PORT], 0, NO_LINKS, [], [Id(0)])

  lemma FirstCreated(p: Pass, w: World)
    requires p == PORT_PASS && Created(INITIAL, p, PORT_FP, w)
    ensures PortOpen(w)
  {
    assert ParentOf(p, PORT) == None;
  }

  lemma PortOpened() returns (es: seq<Event>, w: World)
    ensures ValidRun(INITIAL, es) && w == Run(INITIAL, es) && Inv(w) && PortOpen(w)
  {
    var p;
    p, es, w := Creates(INITIAL, 0, PORT, NO_LINKS, 0);
    RunKeeps(INITIAL, es);
    FirstCreated(p, w);
  }

  // ------------------------------------------------------------------ a user's resolution undone

  /** The port's alert, resolved by a user at `at`; nothing is held in memory. */
  predicate PortResolved(w: World, at: Time) {
    && w.rows.Keys == {Id(0)} && w.rows[Id(0)].fp == PORT_FP && w.rows[Id(0)].status == Resolved
    && w.rows[Id(0)].tenant == TENANT && w.rows[Id(0)].triggeredAt == 0
    && w.now == at && w.clocks.suppressUntilClear == {} && w.clocks.lastSeen.Keys <= {PORT_FP}
  }

  lemma PortResolves(at: Time) returns (es: seq<Event>, w: World)
    requires at > 0
    ensures ValidRun(INITIAL, es) && w == Run(INITIAL, es) && Inv(w) && Guarded(w, PORT_FP) && PortResolved(w, at)
  {
    var es0, w0 := PortOpened();
    var e := UserResolve(Id(0), 7, at);
    ResolutionGuards(w0, Id(0), 7, at);
    StepKeeps(w0, e);
    OneStep(w0, e);
    RunOn(INITIAL, es0, [e]);
    es, w := es0 + [e], Step(w0, e);
  }

  /** Every pass of the port's rule finds the port down. */
  ghost predicate NeverClear(es: seq<Event>) {
    forall e :: e in es ==>
      (e.Evaluate? && e.p.rule.id == PORT_FP.rule ==> PORT_FP in Fps(e.p.rule, e.p.breaches))
  }

  /** No other rule runs. */
  predicate OneRule(es: seq<Event>) {
    forall e :: e in es ==> (e.Evaluate? ==> e.p.rule.id == PORT_FP.rule)
  }

  /** Once the hold is gone, a pass finds the port down and raises the alert. */
  lemma PortRaised(w: World, now: Time) returns (es: seq<Event>, w': World, j: Id)
    requires Inv(w) && Quiet(w, PORT_FP) && !Held(w, PORT_FP) && now >= w.now
    ensures ValidRun(w, es) && w' == Run(w, es) && NeverClear(es) && OneRule(es) && Matches(w'.rows, PORT_FP, j)
  {
    var p;
    p, es, w' := PassExists(w, PlainRule(0), [PORT], NO_LINKS, now);
    GateOfOne(w.clocks, p.rule, [PORT], now);
    assert ValidStep(w, es[0]) && es[1..] == [];
    assert w' == RunPass(w, p);
    j := UnheldRaises(w, p, PORT_FP);
  }

  lemma AtMostOne(s: set<Fp>, fp: Fp)
    requires s <= {fp}
    ensures |s| <= 1
  {
    if s != {} { assert s == {fp}; }
  }

  /** Housekeeping with the default settings. */
  function DefaultSweep(now: Time): Sweep {
    Sweep(now, map[TENANT := Settings(0, 90)], true, {})
  }

  lemma PortSweeps(w: World, now: Time)
    requires PortResolved(w, now)
    ensures ValidSweep(w, DefaultSweep(now))
  {
    AtMostOne(Forget(w.clocks, Stale(w.clocks, now)).lastSeen.Keys, PORT_FP);
  }

  lemma PortForgotten(w: World, h: Sweep)
    requires PortResolved(w, 100 * DAY) && h == DefaultSweep(w.now) && ValidSweep(w, h)
    ensures !Keeps(w, SweepTables(h), PORT_FP)
  {
    assert Purges(h, w.rows[Id(0)]);
  }

  /** It deletes the resolved row, and with it the hold. */
  lemma PortPurged(w: World) returns (es: seq<Event>, w': World)
    requires Inv(w) && Guarded(w, PORT_FP) && PortResolved(w, 100 * DAY)
    ensures ValidRun(w, es) && w' == Run(w, es) && NeverClear(es) && OneRule(es)
    ensures Inv(w') && Quiet(w', PORT_FP) && !Held(w', PORT_FP) && w'.now == w.now
  {
    var e := SweepTables(DefaultSweep(w.now));
    PortSweeps(w, w.now);
    PortForgotten(w, DefaultSweep(w.now));
    GuardStep(w, e, PORT_FP);
    StepKeeps(w, e);
    OneStep(w, e);
    es, w' := [e], Step(w, e);
  }

  /** A user resolves an alert that has been open for a hundred days; housekeeping runs before the
      next pass and retention deletes the row; the next pass raises the alert again. */
  lemma RetentionUndoesResolution() returns (before: seq<Event>, w: World, after: seq<Event>, w': World, j: Id)
    ensures ValidRun(INITIAL, before) && w == Run(INITIAL, before) && Guarded(w, PORT_FP)
    ensures ValidRun(w, after) && w' == Run(w, after) && NeverClear(after) && OneRule(after)
    ensures Matches(w'.rows, PORT_FP, j)
  {
    before, w := PortResolves(100 * DAY);
    var es1, w1 := PortPurged(w);
    var es2;
    es2, w', j := PortRaised(w1, 100 * DAY);
    RunOn(w, es1, es2);
    after := es1 + es2;
  }

  /** A pass that finds the port down takes the hold into memory. */
  lemma PortRemembered(w: World, now: Time) returns (es: seq<Event>, w': World)
    requires Inv(w) && Guarded(w, PORT_FP) && now >= w.now
    ensures ValidRun(w, es) && w' == Run(w, es) && NeverClear(es)
    ensures Inv(w') && Guarded(w', PORT_FP) && PORT_FP in w'.clocks.suppressUntilClear && w'.now == now
  {
    var p;
    p, es, w' := PassExists(w, PlainRule(0), [PORT], NO_LINKS, now);
    GateOfOne(w.clocks, p.rule, [PORT], now);
    assert ValidStep(w, es[0]) && es[1..] == [];
    assert w' == RunPass(w, p);
    FiringRemembers(w, p, PORT_FP);
    AttemptGuard(w, Attempt(p, None), PORT_FP);
    RunPassKeeps(w, p);
  }

  /** A pass of another rule ends a hold in memory. */
  lemma OtherRuleReleases(w: World, now: Time) returns (es: seq<Event>, w': World)
    requires Inv(w) && Guarded(w, PORT_FP) && PORT_FP in w.clocks.suppressUntilClear && now >= w.now
    ensures ValidRun(w, es) && w' == Run(w, es) && NeverClear(es)
    ensures Inv(w') && Quiet(w', PORT_FP) && !Held(w', PORT_FP) && w'.now == now
  {
    var p;
    p, es, w' := PassExists(w, PlainRule(1), [], NO_LINKS, now);
    assert ValidStep(w, es[0]) && es[1..] == [];
    assert w' == RunPass(w, p);
    AttemptGuard(w, Attempt(p, None), PORT_FP);
    RunPassKeeps(w, p);
    assert SameFpRows(w.rows, w'.rows, PORT_FP);
  }

  /** A user resolves the alert, a pass takes that into memory, a pass of another rule lets go of it,
      and the next pass raises the alert again, though every pass of its rule found the port down. */
  lemma SecondRuleUndoesResolution() returns (before: seq<Event>, w: World, after: seq<Event>, w': World, j: Id)
    ensures ValidRun(INITIAL, before) && w == Run(INITIAL, before) && Guarded(w, PORT_FP)
    ensures ValidRun(w, after) && w' == Run(w, after) && NeverClear(after) && Matches(w'.rows, PORT_FP, j)
  {
    before, w := PortResolves(SECOND);
    var es1, w1 := PortRemembered(w, 2 * SECOND);
    var es2, w2 := OtherRuleReleases(w1, 3 * SECOND);
    var es3;
    es3, w', j := PortRaised(w2, 4 * SECOND);
    RunOn(w, es1, es2);
    RunOn(w, es1 + es2, es3);
    after := es1 + es2 + es3;
  }

  // ------------------------------------------------------------------ a suppressed alert stranded

  const CHILD := Breach(Device(0), Some(1), None)
  const CHILD_FP := Fp(1, Device(0), Some(1))
  const BLAMES_PORT := Links(map[], map[Device(0) := Id(0)], map[], map[])

  /** The port's old alert is resolved, and a young one is suppressed under it. */
  predicate ChildSuppressed(w: World, at: Time) {
    && w.rows.Keys == {Id(0), Id(1)} && w.now == at
    && w.rows[Id(0)].status == Resolved && w.rows[Id(0)].tenant == TENANT && w.rows[Id(0)].triggeredAt == 0
    && w.rows[Id(1)].status == Suppressed && w.rows[Id(1)].suppressedBy == Some(Id(0))
    && w.rows[Id(1)].tenant == TENANT && w.rows[Id(1)].triggeredAt == 99 * DAY
    && w.clocks.lastSeen.Keys <= {PORT_FP, CHILD_FP}
  }

  lemma ChildCreated(w: World, p: Pass, w1: World, w2: World)
    requires PortOpen(w) && p == Pass(PlainRule(1), true, [CHILD], 99 * DAY, BLAMES_PORT, [], [Id(1)])
    requires Created(w, p, CHILD_FP, w1)
    requires w2 == w1.(rows := Resolve(w1.rows, Id(0), 7, 100 * DAY).0, now := 100 * DAY)
    ensures ChildSuppressed(w2, 100 * DAY)
  {
    assert ParentOf(p, CHILD) == Some(Id(0));
  }

  lemma ChildThenResolved() returns (es: seq<Event>, w: World)
    ensures ValidRun(INITIAL, es) && w == Run(INITIAL, es) && ChildSuppressed(w, 100 * DAY)
  {
    var es0, w0 := PortOpened();
    var p, es1, w1 := Creates(w0, 1, CHILD, BLAMES_PORT, 99 * DAY);
    var e := UserResolve(Id(0), 7, 100 * DAY);
    OneStep(w1, e);
    ChildCreated(w0, p, w1, Step(w1, e));
    RunOn(INITIAL, es0, es1);
    RunOn(INITIAL, es0 + es1, [e]);
    es, w := es0 + es1 + [e], Step(w1, e);
  }

  lemma AtMostTwo(s: set<Fp>, a: Fp, b: Fp)
    requires s <= {a, b}
    ensures |s| <= 2
  {
    AtMostOne(s - {a}, b);
    assert s <= {a} + (s - {a});
    AtMostOne(s * {a}, a);
    assert s == s * {a} + (s - {a});
  }

  /** The default housekeeping, with recovery failing. */
  function UnrecoveredSweep(now: Time): Sweep {
    DefaultSweep(now).(recovers := false)
  }

  lemma ChildLosesParent(w: World)
    requires ChildSuppressed(w, 100 * DAY)
    ensures ValidSweep(w, UnrecoveredSweep(w.now)) && LosesParent(w.rows, UnrecoveredSweep(w.now), Id(1))
  {
    AtMostTwo(Forget(w.clocks, Stale(w.clocks, w.now)).lastSeen.Keys, PORT_FP, CHILD_FP);
  }

  /** The sweep leaves the child suppressed under nobody, where no later recovery finds it. */
  lemma RecoveryFailureStrands() returns (es: seq<Event>, w: World)
    ensures ValidRun(INITIAL, es) && w == Run(INITIAL, es)
    ensures Id(1) in w.rows && w.rows[Id(1)].status == Suppressed && w.rows[Id(1)].suppressedBy.None?
    ensures RecoverOrphans(w.rows)[Id(1)] == w.rows[Id(1)]
  {
    var es0, w0 := ChildThenResolved();
    var e := SweepTables(UnrecoveredSweep(w0.now));
    ChildLosesParent(w0);
    UnrecoveredRow(w0.rows, e.h, Id(1));
    OneStep(w0, e);
    RunOn(INITIAL, es0, [e]);
    es, w := es0 + [e], Step(w0, e);
    StrandedStays(w.rows, Id(1));
  }

  // ------------------------------------------------------------------ a resolve sent twice

  /** A pass that finds the port up: it starts the clear clock, or resolves once it is stable. */
  lemma PortUp(w: World, now: Time) returns (p: Pass, es: seq<Event>, w': World)
    requires w.rows.Keys == {Id(0)} && w.rows[Id(0)] == NewAlert(PORT_PASS, PORT_FP, None)
    requires w.now <= now <= DAY
    ensures p == Pass(PlainRule(0), true, [], now, NO_LINKS, [], [Id(0)])
    ensures es == [Evaluate(p)] && ValidRun(w, es) && w' == Run(w, es)
    ensures w' == ResolveOne(Gated(w, p), p, {}, Id(0))
  {
    p, es, w' := PassExists(w, PlainRule(0), [], NO_LINKS, now);
    GateOfOne(w.clocks, p.rule, [], now);
    Singleton(p.resolveOrder, Id(0));
    ResolveSingle(Gated(w, p), p, {}, Id(0));
  }

  /** The port has been seen up for the first time. */
  predicate PortClearing(w: World) {
    && w.rows.Keys == {Id(0)} && w.rows[Id(0)] == NewAlert(PORT_PASS, PORT_FP, None)
    && w.now == SECOND && PORT_FP in w.clocks.clearSince && w.clocks.clearSince[PORT_FP] == SECOND
  }

  lemma ClockStarts(w: World, p: Pass, w': World)
    requires PortOpen(w) && p == Pass(PlainRule(0), true, [], SECOND, NO_LINKS, [], [Id(0)])
    requires w' == ResolveOne(Gated(w, p), p, {}, Id(0))
    ensures PortClearing(w')
  {
    GateKeeps(w.clocks, p.rule, [], p.now);
  }

  lemma PortClears() returns (es: seq<Event>, w: World)
    ensures ValidRun(INITIAL, es) && w == Run(INITIAL, es) && Inv(w) && PortClearing(w)
  {
    var es0, w0 := PortOpened();
    var p, es1;
    p, es1, w := PortUp(w0, SECOND);
    ClockStarts(w0, p, w);
    RunOn(INITIAL, es0, es1);
    es := es0 + es1;
    RunKeeps(INITIAL, es);
  }

  lemma StableResolves(w: World, p: Pass, w': World)
    requires PortClearing(w) && p == Pass(PlainRule(0), true, [], 1000 * SECOND, NO_LINKS, [], [Id(0)])
    requires w' == ResolveOne(Gated(w, p), p, {}, Id(0))
    ensures Notification(Id(0), true) in w'.sent
  {
    GateKeeps(w.clocks, p.rule, [], p.now);
    var g := Gated(w, p);
    assert w'.sent == g.sent + [Notification(Id(0), true)];
  }

  /** The cycle whose commit fails: one pass, which resolves the alert. */
  lemma CycleResolves(w: World) returns (attempts: seq<Attempt>)
    requires PortClearing(w)
    ensures ValidCycle(w, attempts) && ResolvesSome(w, attempts)
    ensures Notification(Id(0), true) in Cycle(w, attempts).sent
  {
    var p, es, w' := PortUp(w, 1000 * SECOND);
    StableResolves(w, p, w');
    attempts := [Attempt(p, None)];
    assert ValidStep(w, es[0]) && es[1..] == [];
    assert attempts[1..] == [];
    assert Cycle(w', []) == w' && Attempted(w, attempts[0]) == w';
  }

  /** A commit fails after its cycle resolved the alert, whose resolve is sent; the alert comes back
      with the rollback and a later pass notifies about it again. */
  lemma FailedCommitBreaksGrammar() returns (before: seq<Event>, w: World, e: Event, after: seq<Event>)
    ensures ValidRun(INITIAL, before) && w == Run(INITIAL, before)
    ensures e.RollBack? && e.dispatched && ValidStep(w, e)
    ensures ValidRun(Step(w, e), after) && LosesNoResolve(Step(w, e), after)
    ensures !Grammar(Run(Step(w, e), after).sent)
  {
    before, w := PortClears();
    var attempts := CycleResolves(w);
    e := RollBack(attempts, true);
    StepKeeps(w, e);
    after := SomeRunBreaks(Step(w, e), Id(0));
  }
}
