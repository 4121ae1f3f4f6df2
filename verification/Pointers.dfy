/** The pointers of suppressed alerts: every suppressed alert names a parent in every state that no
    failed recovery precedes, and exactly when a failed recovery loses one. */
module Pointers {
  import opened Basics
  import opened Lifecycle
  import opened Invariants
  import opened Sweeping
  import opened Runs

  lemma FireOnePoints(w: World, p: Pass, firing: set<Fp>, b: Breach)
    requires PointersSet(w.rows)
    ensures PointersSet(FireOne(w, p, firing, b).rows)
  {
  }

  lemma {:induction false} FireAllPoints(w: World, p: Pass, firing: set<Fp>, k: nat)
    requires PointersSet(w.rows) && k <= |p.breaches|
    ensures PointersSet(FireAll(w, p, firing, k).rows)
  {
    if k > 0 {
      FireAllPoints(w, p, firing, k - 1);
      FireOnePoints(FireAll(w, p, firing, k - 1), p, firing, p.breaches[k - 1]);
    }
  }

  lemma {:induction false} EscalateAllPoints(w: World, p: Pass, breaching: set<Fp>, k: nat)
    requires PointersSet(w.rows) && k <= |p.escalationOrder|
    ensures PointersSet(EscalateAll(w, p, breaching, k).rows)
  {
    if k > 0 { EscalateAllPoints(w, p, breaching, k - 1); }
  }

  lemma ResolveOnePoints(w: World, p: Pass, breaching: set<Fp>, id: Id)
    requires PointersSet(w.rows)
    ensures PointersSet(ResolveOne(w, p, breaching, id).rows)
  {
  }

  lemma {:induction false} ResolveAllPoints(w: World, p: Pass, breaching: set<Fp>, k: nat)
    requires PointersSet(w.rows) && k <= |p.resolveOrder|
    ensures PointersSet(ResolveAll(w, p, breaching, k).rows)
  {
    if k > 0 {
      ResolveAllPoints(w, p, breaching, k - 1);
      ResolveOnePoints(ResolveAll(w, p, breaching, k - 1), p, breaching, p.resolveOrder[k - 1]);
    }
  }

  lemma RunPassPoints(w: World, p: Pass)
    requires PointersSet(w.rows)
    ensures PointersSet(RunPass(w, p).rows)
  {
    if p.anyDevice {
      FireAllPoints(Gated(w, p), p, Firing(w, p), |p.breaches|);
      EscalateAllPoints(Fired(w, p), p, Fps(p.rule, p.breaches), |p.escalationOrder|);
      ResolveAllPoints(Escalated(w, p), p, Fps(p.rule, p.breaches), |p.resolveOrder|);
    }
  }

  /** A housekeeping pass whose recovery fails and whose retention deletes the parent of a suppressed
      alert that it keeps. */
  ghost predicate Strands(w: World, e: Event) {
    e.SweepTables? && !e.h.recovers && exists i :: LosesParent(w.rows, e.h, i)
  }

  /** A step keeps every pointer exactly if it strands nothing. */
  lemma StepPoints(w: World, e: Event)
    requires Inv(w) && PointersSet(w.rows) && ValidStep(w, e)
    ensures PointersSet(Step(w, e).rows) <==> !Strands(w, e)
  {
    match e
    case Evaluate(p) => RunPassPoints(w, p);
    case SweepTables(h) => SweepStrands(w.rows, h);
    case AbortEvaluation(_, _) =>
    case RollBack(_, _) =>
    case Restart(_) =>
    case _ => UserStepRewrites(w, e);
  }

  ghost predicate StrandsNothing(w: World, es: seq<Event>)
    requires ValidRun(w, es)
    decreases |es|
  {
    es == [] || (!Strands(w, es[0]) && StrandsNothing(Step(w, es[0]), es[1..]))
  }

  lemma {:induction false} RunPoints(w: World, es: seq<Event>)
    requires Inv(w) && PointersSet(w.rows) && ValidRun(w, es) && StrandsNothing(w, es)
    ensures PointersSet(Run(w, es).rows)
    decreases |es|
  {
    if es != [] {
      StepKeeps(w, es[0]);
      StepPoints(w, es[0]);
      RunPoints(Step(w, es[0]), es[1..]);
    }
  }

  /** Over any run in which no sweep strands an alert, suppressed means a parent other than itself,
      and after a sweep whose recovery succeeds, an open or acknowledged one in its tenant. */
  lemma SuppressedHasParent(es: seq<Event>, h: Sweep)
    requires ValidRun(INITIAL, es) && StrandsNothing(INITIAL, es)
    ensures var w := Run(INITIAL, es);
      && (forall i :: i in w.rows && w.rows[i].status == Suppressed ==>
            w.rows[i].suppressedBy.Some? && w.rows[i].suppressedBy.value != i)
      && (ValidSweep(w, h) && h.recovers ==> AllParented(Housekeep(w, h).rows))
  {
    RunKeeps(INITIAL, es);
    RunPoints(INITIAL, es);
    if h.recovers { SweptAreParented(Run(INITIAL, es).rows, h); }
  }
}
