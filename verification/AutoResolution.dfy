/** The auto-resolve loop from the outside: which alerts a pass resolves, in terms of the state and the
    rule it starts with.  Times are microseconds. */
module AutoResolution {
  import opened Basics
  import opened Lifecycle
  import opened Invariants
  import opened Outcomes

  // ------------------------------------------------------------------ before the loop

  predicate SameClock(w: World, w': World, fp: Fp) {
    Get(w'.clocks.clearSince, fp) == Get(w.clocks.clearSince, fp)
  }

  /** `i` is still the same active alert, and unless it is breaching its clear clock is as before. */
  ghost predicate Awaits(w: World, w': World, breaching: set<Fp>, i: Id) {
    && i in w.rows && i in w'.rows && w'.rows[i].Active()
    && w'.rows[i].fp == w.rows[i].fp && w'.rows[i].triggeredAt == w.rows[i].triggeredAt
    && (w.rows[i].fp in breaching || SameClock(w, w', w.rows[i].fp))
  }

  lemma AwaitsOn(w: World, w1: World, w2: World, breaching: set<Fp>, i: Id)
    requires Awaits(w, w1, breaching, i) && Awaits(w1, w2, breaching, i)
    ensures Awaits(w, w2, breaching, i)
  {
  }

  lemma FireOneAwaits(w: World, p: Pass, firing: set<Fp>, breaching: set<Fp>, b: Breach, i: Id)
    requires i in w.rows && w.rows[i].Active() && i.n < w.nextId
    ensures Awaits(w, FireOne(w, p, firing, b), breaching, i)
  {
  }

  lemma {:induction false} FireAllAwaits(w: World, p: Pass, firing: set<Fp>, breaching: set<Fp>, k: nat, i: Id)
    requires During(w, p, breaching) && firing <= breaching && k <= |p.breaches|
    requires i in w.rows && w.rows[i].Active()
    ensures Awaits(w, FireAll(w, p, firing, k), breaching, i)
  {
    if k > 0 {
      var w1 := FireAll(w, p, firing, k - 1);
      FireAllAwaits(w, p, firing, breaching, k - 1, i);
      FireAllKeeps(w, p, firing, breaching, k - 1);
      FireOneAwaits(w1, p, firing, breaching, p.breaches[k - 1], i);
      AwaitsOn(w, w1, FireAll(w, p, firing, k), breaching, i);
    }
  }

  lemma {:induction false} EscalateAllAwaits(w: World, p: Pass, breaching: set<Fp>, k: nat, i: Id)
    requires i in w.rows && w.rows[i].Active() && k <= |p.escalationOrder|
    ensures Awaits(w, EscalateAll(w, p, breaching, k), breaching, i)
  {
    if k > 0 { EscalateAllAwaits(w, p, breaching, k - 1, i); }
  }

  lemma LoopFinds(w: World, p: Pass, i: Id) returns (w1: World)
    requires Inv(w) && ValidPass(w, p) && i in w.rows && w.rows[i].Active()
    ensures w1 == Escalated(w, p) && During(w1, p, Fps(p.rule, p.breaches))
    ensures Awaits(w, w1, Fps(p.rule, p.breaches), i)
  {
    var breaching := Fps(p.rule, p.breaches);
    GatedKeeps(w, p);
    GateKeeps(w.clocks, p.rule, p.breaches, p.now);
    FireAllAwaits(Gated(w, p), p, Firing(w, p), breaching, |p.breaches|, i);
    if p.rule.escalation.Some? { EscalateAllAwaits(Fired(w, p), p, breaching, |p.escalationOrder|, i); }
    EscalatedKeeps(w, p);
    w1 := Escalated(w, p);
  }

  // ------------------------------------------------------------------ the loop

  lemma OtherTurn(w: World, p: Pass, breaching: set<Fp>, j: Id, i: Id)
    requires OneActive(w.rows) && i in w.rows && w.rows[i].Active() && j != i
    ensures Awaits(w, ResolveOne(w, p, breaching, j), breaching, i)
  {
  }

  /** Until its turn comes an alert waits. */
  lemma {:induction false} BeforeTurn(w: World, p: Pass, breaching: set<Fp>, k: nat, i: Id)
    requires During(w, p, breaching) && i in w.rows && w.rows[i].Active()
    requires k <= |p.resolveOrder| && i !in p.resolveOrder[..k]
    ensures Awaits(w, ResolveAll(w, p, breaching, k), breaching, i)
  {
    if k > 0 {
      var w1, j := ResolveAll(w, p, breaching, k - 1), p.resolveOrder[k - 1];
      assert p.resolveOrder[..k] == p.resolveOrder[..k - 1] + [j];
      BeforeTurn(w, p, breaching, k - 1, i);
      ResolveAllKeeps(w, p, breaching, k - 1);
      OtherTurn(w1, p, breaching, j, i);
      AwaitsOn(w, w1, ResolveAll(w, p, breaching, k), breaching, i);
    }
  }

  /** Its turn: an active alert is resolved, now, exactly if it is not breaching and its clear clock
      has run long enough; otherwise it stays active. */
  lemma OwnTurn(w: World, p: Pass, breaching: set<Fp>, i: Id)
    requires i in w.rows && w.rows[i].Active()
    ensures var w' := ResolveOne(w, p, breaching, i);
      && i in w'.rows
      && if w.rows[i].fp !in breaching && ClearLongEnough(w.clocks, p.rule, w.rows[i].fp, p.now)
         then w'.rows[i].status == Resolved && w'.rows[i].resolvedAt == Some(p.now)
         else w'.rows[i].Active() && w'.rows[i].fp == w.rows[i].fp
              && (w.rows[i].fp !in breaching ==> ClockRuns(w, w', w.rows[i].fp, p.now))
  {
  }

  /** The clear clock of `fp` runs on, or starts now. */
  predicate ClockRuns(w: World, w': World, fp: Fp, now: Time) {
    Get(w'.clocks.clearSince, fp) == Some(if fp in w.clocks.clearSince then w.clocks.clearSince[fp] else now)
  }

  lemma OneActiveAt(w: World, p: Pass, breaching: set<Fp>, k: nat)
    requires During(w, p, breaching) && k <= |p.resolveOrder|
    ensures OneActive(ResolveAll(w, p, breaching, k).rows)
  {
    ResolveAllKeeps(w, p, breaching, k);
  }

  lemma {:induction false} StillWaits(w: World, p: Pass, breaching: set<Fp>, m: nat, k: nat, i: Id)
    requires During(w, p, breaching) && m <= k <= |p.resolveOrder| && i !in p.resolveOrder[m..]
    requires var w1 := ResolveAll(w, p, breaching, m); i in w1.rows && w1.rows[i].Active()
    ensures Awaits(ResolveAll(w, p, breaching, m), ResolveAll(w, p, breaching, k), breaching, i)
  {
    if m < k {
      var w1 := ResolveAll(w, p, breaching, k - 1);
      StillWaits(w, p, breaching, m, k - 1, i);
      OneActiveAt(w, p, breaching, k - 1);
      assert p.resolveOrder[k - 1] in p.resolveOrder[m..];
      OtherTurn(w1, p, breaching, p.resolveOrder[k - 1], i);
      AwaitsOn(ResolveAll(w, p, breaching, m), w1, ResolveAll(w, p, breaching, k), breaching, i);
    }
  }

  lemma Settled(w: World, p: Pass, breaching: set<Fp>, j: Id, i: Id)
    requires i in w.rows && j != i
    ensures var w' := ResolveOne(w, p, breaching, j);
      && i in w'.rows && (w'.rows[i].Active() <==> w.rows[i].Active())
      && (!w.rows[i].Active() ==> w'.rows[i] == w.rows[i])
  {
  }

  lemma {:induction false} AfterTurn(w: World, p: Pass, breaching: set<Fp>, m: nat, k: nat, i: Id)
    requires m <= k <= |p.resolveOrder| && i !in p.resolveOrder[m..] && i in ResolveAll(w, p, breaching, m).rows
    ensures var a, w' := ResolveAll(w, p, breaching, m).rows[i], ResolveAll(w, p, breaching, k);
      && i in w'.rows && (w'.rows[i].Active() <==> a.Active()) && (!a.Active() ==> w'.rows[i] == a)
  {
    if m < k {
      AfterTurn(w, p, breaching, m, k - 1, i);
      assert p.resolveOrder[k - 1] in p.resolveOrder[m..];
      Settled(ResolveAll(w, p, breaching, k - 1), p, breaching, p.resolveOrder[k - 1], i);
    }
  }

  /** The whole loop, for an alert it meets. */
  lemma LoopResolves(w: World, p: Pass, breaching: set<Fp>, i: Id, m: nat)
    requires During(w, p, breaching) && i in w.rows && w.rows[i].Active()
    requires m < |p.resolveOrder| && p.resolveOrder[m] == i
    requires forall k, l :: 0 <= k < l < |p.resolveOrder| ==> p.resolveOrder[k] != p.resolveOrder[l]
    ensures var w' := ResolveAll(w, p, breaching, |p.resolveOrder|);
      && i in w'.rows
      && if w.rows[i].fp !in breaching && ClearLongEnough(w.clocks, p.rule, w.rows[i].fp, p.now)
         then w'.rows[i].status == Resolved && w'.rows[i].resolvedAt == Some(p.now)
         else w'.rows[i].Active() && (w.rows[i].fp !in breaching ==> ClockRuns(w, w', w.rows[i].fp, p.now))
  {
    var w1, w2 := ResolveAll(w, p, breaching, m), ResolveAll(w, p, breaching, m + 1);
    BeforeTurn(w, p, breaching, m, i);
    OwnTurn(w1, p, breaching, i);
    assert w2 == ResolveOne(w1, p, breaching, i);
    if w2.rows[i].Active() {
      StillWaits(w, p, breaching, m + 1, |p.resolveOrder|, i);
    } else {
      AfterTurn(w, p, breaching, m + 1, |p.resolveOrder|, i);
    }
  }

  /** A pass resolves an alert exactly if it is an active one of the rule, raised within ninety days,
      that is not breaching and whose clear clock, as it stood before the pass, has run for the rule's
      stability time and for a minute at least; any other active alert stays active, and if it is just
      not clear for long enough its clock runs on. */
  predicate ResolvedIfDue(w: World, w': World, p: Pass, i: Id)
    requires i in w.rows
  {
    var a := w.rows[i];
    var clear := a.fp.rule == p.rule.id && p.now - a.triggeredAt <= 90 * 86_400_000_000 && !Breaching(p, a.fp);
    && i in w'.rows
    && if clear && ClearLongEnough(w.clocks, p.rule, a.fp, p.now)
       then w'.rows[i].status == Resolved && w'.rows[i].resolvedAt == Some(p.now)
       else w'.rows[i].Active() && (clear ==> ClockRuns(w, w', a.fp, p.now))
  }

  ghost predicate ResolvesIfDue(w: World, w': World, p: Pass) {
    forall i :: i in w.rows && w.rows[i].Active() ==> ResolvedIfDue(w, w', p, i)
  }

  lemma PassResolves(w: World, p: Pass)
    requires Inv(w) && ValidPass(w, p) && p.anyDevice
    ensures ResolvesIfDue(w, RunPass(w, p), p)
  {
    forall i | i in w.rows && w.rows[i].Active()
      ensures ResolvedIfDue(w, RunPass(w, p), p, i)
    {
      PassResolvesExactly(w, p, i);
    }
  }

  lemma PassResolvesExactly(w: World, p: Pass, i: Id)
    requires Inv(w) && ValidPass(w, p) && p.anyDevice && i in w.rows && w.rows[i].Active()
    ensures ResolvedIfDue(w, RunPass(w, p), p, i)
  {
    var breaching, fp := Fps(p.rule, p.breaches), w.rows[i].fp;
    BreachingIsFps(p, fp);
    var w1 := LoopFinds(w, p, i);
    if i in p.resolveOrder {
      var m :| 0 <= m < |p.resolveOrder| && p.resolveOrder[m] == i;
      LoopResolves(w1, p, breaching, i, m);
    } else {
      assert p.resolveOrder[..|p.resolveOrder|] == p.resolveOrder;
      BeforeTurn(w1, p, breaching, |p.resolveOrder|, i);
    }
  }
}
