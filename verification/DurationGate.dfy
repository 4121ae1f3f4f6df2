/** The duration gate over whole runs: a rule with a duration raises an alert only for a condition
    that some pass saw at least that long ago.  The condition need not have held throughout. */
module DurationGate {
  import opened Basics
  import opened Suppression
  import opened Lifecycle
  import opened Invariants
  import opened Runs

  ghost predicate SeenAt(seen: seq<Sighting>, fp: Fp, at: Time) {
    exists o :: o in seen && o.at == at && fp in o.breaching
  }

  /** Every breach clock was started by a pass that saw the breach. */
  ghost predicate Origins(w: World) {
    forall fp :: fp in w.clocks.breachSince ==> SeenAt(w.seen, fp, w.clocks.breachSince[fp])
  }

  /** `later` has no breach clocks but those of `earlier`. */
  predicate Fewer(earlier: Clocks, later: Clocks) {
    forall fp :: fp in later.breachSince ==>
      fp in earlier.breachSince && later.breachSince[fp] == earlier.breachSince[fp]
  }

  predicate HasDuration(rule: Rule) {
    rule.durationSeconds > 0 && rule.metric != InterfaceFlap
  }

  /** The gate starts clocks now, for breaching fingerprints, and fires on older ones only. */
  ghost predicate Started(c: Clocks, c': Clocks, rule: Rule, breaching: set<Fp>, firing: set<Fp>, now: Time) {
    && (forall fp :: fp in c'.breachSince ==>
          || (fp in c.breachSince && c'.breachSince[fp] == c.breachSince[fp])
          || (fp in breaching && c'.breachSince[fp] == now))
    && (HasDuration(rule) ==> forall fp :: fp in firing ==>
          fp in c.breachSince && now - c.breachSince[fp] >= rule.durationSeconds * SECOND)
  }

  lemma GateOneStarts(c: Clocks, c1: Clocks, rule: Rule, breaching: set<Fp>, firing: set<Fp>, fp: Fp, now: Time)
    requires Started(c, c1, rule, breaching, firing, now)
    ensures var (c2, fires) := GateOne(c1, rule, fp, now);
      Started(c, c2, rule, breaching + {fp}, if fires then firing + {fp} else firing, now)
  {
  }

  lemma {:induction false} GateStarts(c: Clocks, rule: Rule, breaches: seq<Breach>, now: Time)
    ensures var (c', firing) := GateAll(c, rule, breaches, now);
      Started(c, c', rule, Fps(rule, breaches), firing, now)
  {
    if breaches != [] {
      var front, fp := breaches[..|breaches| - 1], Fingerprint(rule, breaches[|breaches| - 1]);
      var (c1, firing) := GateAll(c, rule, front, now);
      GateStarts(c, rule, front, now);
      FpsStep(rule, breaches);
      GateOneStarts(c, c1, rule, Fps(rule, front), firing, fp, now);
    }
  }

  lemma GatedOrigins(w: World, p: Pass)
    requires Origins(w)
    ensures Origins(Gated(w, p))
  {
    GateStarts(w.clocks, p.rule, p.breaches, p.now);
    var g := Gated(w, p);
    var o := Sighting(p.rule.id, p.now, Fps(p.rule, p.breaches));
    assert o in g.seen;
    forall fp | fp in g.clocks.breachSince
      ensures SeenAt(g.seen, fp, g.clocks.breachSince[fp])
    {
      if fp in w.clocks.breachSince && g.clocks.breachSince[fp] == w.clocks.breachSince[fp] {
        assert SeenAt(w.seen, fp, w.clocks.breachSince[fp]);
      }
    }
  }

  /** What the loops of a pass do: stop breach clocks, keep fingerprints, and create alerts for
      firing fingerprints only. */
  ghost predicate Follows(w: World, w': World, firing: set<Fp>) {
    && w'.seen == w.seen && Fewer(w.clocks, w'.clocks)
    && (forall i :: i in w.rows ==> i in w'.rows && w'.rows[i].fp == w.rows[i].fp)
    && (forall i :: i in w'.rows && i !in w.rows ==> w'.rows[i].fp in firing)
  }

  lemma FollowsTransitive(w: World, w1: World, w2: World, firing: set<Fp>)
    requires Follows(w, w1, firing) && Follows(w1, w2, firing)
    ensures Follows(w, w2, firing)
  {
  }

  lemma FollowsKeepsOrigins(w: World, w': World, firing: set<Fp>)
    requires Origins(w) && Follows(w, w', firing)
    ensures Origins(w')
  {
  }

  lemma FireOneFollows(w: World, p: Pass, firing: set<Fp>, b: Breach)
    requires forall i :: i in w.rows ==> i.n < w.nextId
    ensures Follows(w, FireOne(w, p, firing, b), firing)
  {
  }

  lemma {:induction false} FireAllFollows(w: World, p: Pass, firing: set<Fp>, breaching: set<Fp>, k: nat)
    requires During(w, p, breaching) && firing <= breaching && k <= |p.breaches|
    ensures Follows(w, FireAll(w, p, firing, k), firing)
  {
    if k > 0 {
      FireAllFollows(w, p, firing, breaching, k - 1);
      FireAllKeeps(w, p, firing, breaching, k - 1);
      var w1 := FireAll(w, p, firing, k - 1);
      FireOneFollows(w1, p, firing, p.breaches[k - 1]);
      FollowsTransitive(w, w1, FireAll(w, p, firing, k), firing);
    }
  }

  lemma {:induction false} EscalateAllFollows(w: World, p: Pass, breaching: set<Fp>, firing: set<Fp>, k: nat)
    requires k <= |p.escalationOrder|
    ensures Follows(w, EscalateAll(w, p, breaching, k), firing)
  {
    if k > 0 { EscalateAllFollows(w, p, breaching, firing, k - 1); }
  }

  lemma ResolveOneFollows(w: World, p: Pass, breaching: set<Fp>, firing: set<Fp>, id: Id)
    ensures Follows(w, ResolveOne(w, p, breaching, id), firing)
  {
  }

  lemma {:induction false} ResolveAllFollows(w: World, p: Pass, breaching: set<Fp>, firing: set<Fp>, k: nat)
    requires k <= |p.resolveOrder|
    ensures Follows(w, ResolveAll(w, p, breaching, k), firing)
  {
    if k > 0 {
      ResolveAllFollows(w, p, breaching, firing, k - 1);
      var w1 := ResolveAll(w, p, breaching, k - 1);
      ResolveOneFollows(w1, p, breaching, firing, p.resolveOrder[k - 1]);
      FollowsTransitive(w, w1, ResolveAll(w, p, breaching, k), firing);
    }
  }

  lemma UpToFollows(w: World, p: Pass, at: Abort)
    requires Inv(w) && ValidPass(w, p) && ValidAbort(p, at) && at != BeforeGate
    ensures Follows(Gated(w, p), UpTo(w, p, at), Firing(w, p))
  {
    var breaching, firing, g := Fps(p.rule, p.breaches), Firing(w, p), Gated(w, p);
    GatedKeeps(w, p);
    GateKeeps(w.clocks, p.rule, p.breaches, p.now);
    FireAllFollows(g, p, firing, breaching, if at.WhileFiring? then at.done else |p.breaches|);
    if at.WhileResolving? {
      EscalateAllFollows(Fired(w, p), p, breaching, firing, |p.escalationOrder|);
      FollowsTransitive(g, Fired(w, p), Escalated(w, p), firing);
      ResolveAllFollows(Escalated(w, p), p, breaching, firing, at.done);
      FollowsTransitive(g, Escalated(w, p), UpTo(w, p, at), firing);
    }
  }

  lemma UpToOrigins(w: World, p: Pass, at: Abort)
    requires Inv(w) && Origins(w) && ValidPass(w, p) && ValidAbort(p, at)
    ensures Origins(UpTo(w, p, at))
  {
    if at != BeforeGate {
      GatedOrigins(w, p);
      UpToFollows(w, p, at);
      FollowsKeepsOrigins(Gated(w, p), UpTo(w, p, at), Firing(w, p));
    }
  }

  lemma AttemptOrigins(w: World, a: Attempt)
    requires Inv(w) && Origins(w) && ValidAttempt(w, a)
    ensures Origins(Attempted(w, a))
  {
    if a.stop.Some? {
      UpToOrigins(w, a.p, a.stop.value);
    } else if a.p.anyDevice {
      UpToOrigins(w, a.p, WhileResolving(|a.p.resolveOrder|));
    }
  }

  lemma {:induction false} CycleOrigins(w: World, attempts: seq<Attempt>)
    requires Inv(w) && Origins(w) && ValidCycle(w, attempts)
    ensures Origins(Cycle(w, attempts))
    decreases |attempts|
  {
    if attempts != [] {
      AttemptKeeps(w, attempts[0]);
      AttemptOrigins(w, attempts[0]);
      CycleOrigins(Attempted(w, attempts[0]), attempts[1..]);
    }
  }

  lemma OtherStepOrigins(w: World, e: Event)
    requires Origins(w) && ValidStep(w, e) && !e.Evaluate? && !e.AbortEvaluation? && !e.RollBack?
    ensures Origins(Step(w, e))
  {
  }

  lemma StepOrigins(w: World, e: Event)
    requires Inv(w) && Origins(w) && ValidStep(w, e)
    ensures Origins(Step(w, e))
  {
    match e
    case Evaluate(p) => AttemptOrigins(w, Attempt(p, None));
    case AbortEvaluation(p, at) => AttemptOrigins(w, Attempt(p, Some(at)));
    case RollBack(attempts, _) => CycleOrigins(w, attempts);
    case _ => OtherStepOrigins(w, e);
  }

  lemma {:induction false} RunOrigins(w: World, es: seq<Event>)
    requires Inv(w) && Origins(w) && ValidRun(w, es)
    ensures Origins(Run(w, es))
    decreases |es|
  {
    if es != [] {
      StepOrigins(w, es[0]);
      StepKeeps(w, es[0]);
      RunOrigins(Step(w, es[0]), es[1..]);
    }
  }

  /** Some pass saw `fp` breaching at `limit` or before. */
  ghost predicate SeenBy(seen: seq<Sighting>, fp: Fp, limit: Time) {
    exists o :: o in seen && o.at <= limit && fp in o.breaching
  }

  lemma HeldLongEnough(w: World, p: Pass, fp: Fp)
    requires Origins(w) && HasDuration(p.rule) && fp in Firing(w, p)
    ensures SeenBy(w.seen, fp, p.now - p.rule.durationSeconds * SECOND)
  {
    GateStarts(w.clocks, p.rule, p.breaches, p.now);
    assert SeenAt(w.seen, fp, w.clocks.breachSince[fp]);
  }

  lemma CreatedHeldLongEnough(w: World, p: Pass)
    requires Inv(w) && Origins(w) && ValidPass(w, p) && HasDuration(p.rule)
    ensures forall i :: i in RunPass(w, p).rows && i !in w.rows ==>
      SeenBy(w.seen, RunPass(w, p).rows[i].fp, p.now - p.rule.durationSeconds * SECOND)
  {
    if p.anyDevice {
      UpToFollows(w, p, WhileResolving(|p.resolveOrder|));
      var w' := RunPass(w, p);
      forall i | i in w'.rows && i !in w.rows
        ensures SeenBy(w.seen, w'.rows[i].fp, p.now - p.rule.durationSeconds * SECOND)
      {
        HeldLongEnough(w, p, w'.rows[i].fp);
      }
    }
  }

  /** The duration gate over whole runs, with aborted passes, cycles rolled back, user actions,
      pruning and restarts, for every pass of every cycle. */
  lemma DurationIsWaited(es: seq<Event>, attempts: seq<Attempt>, p: Pass)
    requires ValidRun(INITIAL, es) && ValidCycle(Run(INITIAL, es), attempts)
    requires ValidPass(Cycle(Run(INITIAL, es), attempts), p) && HasDuration(p.rule)
    ensures var w := Cycle(Run(INITIAL, es), attempts); var w' := RunPass(w, p);
      forall i :: i in w'.rows && i !in w.rows ==>
        SeenBy(w.seen, w'.rows[i].fp, p.now - p.rule.durationSeconds * SECOND)
  {
    RunKeeps(INITIAL, es);
    RunOrigins(INITIAL, es);
    CycleKeeps(Run(INITIAL, es), attempts);
    CycleOrigins(Run(INITIAL, es), attempts);
    CreatedHeldLongEnough(Cycle(Run(INITIAL, es), attempts), p);
  }
}
