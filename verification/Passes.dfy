/** Passes that exist: for any state, a rule without escalation, at most one breach and any known
    suppression map there is a pass that acts on them.  The runs in which a promise fails are built
    from these. */
module Passes {
  import opened Basics
  import opened Suppression
  import opened Lifecycle
  import opened Invariants
  import opened Runs

  const NO_LINKS := Links(map[], map[], map[], map[])

  /** A rule with the default stability gate, no duration, renotification or escalation. */
  function PlainRule(id: RuleId): Rule {
    Rule(id, Tenant(0), OtherMetric("interface_down"), Major, 0, 120, 0, true, None)
  }

  /** Some of the ids, once each. */
  lemma Enumeration(rows: map<Id, Alert>, ids: iset<Id>) returns (order: seq<Id>)
    requires forall i :: i in ids ==> i in rows
    ensures Enumerates(order, ids)
  {
    order := [];
    var todo := rows.Keys;
    while todo != {}
      invariant todo <= rows.Keys
      invariant forall i :: i in order <==> i in ids && i !in todo
      invariant forall i, j :: 0 <= i < j < |order| ==> order[i] != order[j]
      decreases todo
    {
      var i :| i in todo;
      todo := todo - {i};
      if i in ids { order := order + [i]; }
    }
  }

  /** The state after the fire loop of a pass with at most one breach. */
  ghost function FiredOnce(w: World, p: Pass): World
    requires |p.breaches| <= 1
  {
    if p.breaches == [] then Gated(w, p)
    else FireOne(Gated(w, p), p, {Fingerprint(p.rule, p.breaches[0])}, p.breaches[0])
  }

  lemma GateOfOne(c: Clocks, rule: Rule, breaches: seq<Breach>, now: Time)
    requires |breaches| <= 1 && rule.durationSeconds <= 0
    ensures Fps(rule, breaches) == if breaches == [] then {} else {Fingerprint(rule, breaches[0])}
    ensures GateAll(c, rule, breaches, now).1 == Fps(rule, breaches)
  {
    if breaches != [] {
      assert breaches[..0] == [];
      FpsStep(rule, breaches);
    }
  }

  lemma FiredOfOne(w: World, p: Pass)
    requires |p.breaches| <= 1 && p.rule.durationSeconds <= 0
    ensures Fired(w, p) == FiredOnce(w, p)
  {
    GateOfOne(w.clocks, p.rule, p.breaches, p.now);
    if p.breaches != [] {
      var g, firing := Gated(w, p), Firing(w, p);
      assert FireAll(g, p, firing, 1) == FireOne(FireAll(g, p, firing, 0), p, firing, p.breaches[0]);
    }
  }

  lemma OrderExists(w: World, p0: Pass) returns (p: Pass)
    requires p0.rule.durationSeconds <= 0 && p0.rule.escalation.None? && |p0.breaches| <= 1
    requires p0.anyDevice && p0.now >= w.now && LinksKnown(p0.links, w.nextId)
    ensures p == p0.(resolveOrder := p.resolveOrder) && ValidPass(w, p)
    ensures Enumerates(p.resolveOrder, iset id | Resolvable(FiredOnce(w, p), p, id))
  {
    var f := FiredOnce(w, p0);
    var order := Enumeration(f.rows, iset id | Resolvable(f, p0, id));
    p := p0.(resolveOrder := order);
    FiredIgnoresOrder(w, p0, order);
    assert forall id :: Resolvable(f, p, id) <==> Resolvable(f, p0, id);
    FiredOfOne(w, p);
  }

  lemma FiredIgnoresOrder(w: World, p: Pass, order: seq<Id>)
    requires |p.breaches| <= 1
    ensures FiredOnce(w, p.(resolveOrder := order)) == FiredOnce(w, p)
  {
    if p.breaches != [] {
      FireIgnoresOrder(Gated(w, p), p, {Fingerprint(p.rule, p.breaches[0])}, p.breaches[0], order);
    }
  }

  lemma FireIgnoresOrder(g: World, p: Pass, firing: set<Fp>, b: Breach, order: seq<Id>)
    ensures FireOne(g, p.(resolveOrder := order), firing, b) == FireOne(g, p, firing, b)
  {
  }

  /** The pass, given all but the order in which the auto-resolve loop meets its alerts, as a run of
      one step. */
  lemma PassExists(w: World, rule: Rule, breaches: seq<Breach>, links: Links, now: Time)
      returns (p: Pass, es: seq<Event>, w': World)
    requires rule.durationSeconds <= 0 && rule.escalation.None? && |breaches| <= 1
    requires now >= w.now && LinksKnown(links, w.nextId)
    ensures p == Pass(rule, true, breaches, now, links, [], p.resolveOrder)
    ensures es == [Evaluate(p)] && ValidRun(w, es) && w' == Run(w, es)
    ensures forall i :: i in p.resolveOrder <==> Resolvable(FiredOnce(w, p), p, i)
    ensures forall i, j :: 0 <= i < j < |p.resolveOrder| ==> p.resolveOrder[i] != p.resolveOrder[j]
    ensures w' == ResolveAll(FiredOnce(w, p), p, Fps(rule, breaches), |p.resolveOrder|)
  {
    p := OrderExists(w, Pass(rule, true, breaches, now, links, [], []));
    FiredOfOne(w, p);
    OneStep(w, Evaluate(p));
    es, w' := [Evaluate(p)], RunPass(w, p);
  }

  /** A breach of a fingerprint the engine has never met opens an alert, or creates it suppressed. */
  lemma NewBreachCreates(w: World, p: Pass, fp: Fp, parent: Option<Id>)
    requires |p.breaches| == 1 && fp == Fingerprint(p.rule, p.breaches[0]) && parent == ParentOf(p, p.breaches[0])
    requires fp !in w.clocks.suppressUntilClear && forall i :: i in w.rows ==> w.rows[i].fp != fp
    ensures var f := FiredOnce(w, p);
      && f.rows == w.rows[Id(w.nextId) := NewAlert(p, fp, parent)] && f.nextId == w.nextId + 1
      && f.sent == (if parent.Some? then w.sent else w.sent + [Notification(Id(w.nextId), false)])
      && f.clocks == Gated(w, p).clocks && f.now == p.now
  {
    var g := Gated(w, p);
    GateKeeps(w.clocks, p.rule, p.breaches, p.now);
    assert forall j :: !Matches(g.rows, fp, j);
    assert FiredOnce(w, p) == Create(g, p, fp, parent);
  }

  lemma Singleton(order: seq<Id>, id: Id)
    requires forall i :: i in order <==> i == id
    requires forall i, j :: 0 <= i < j < |order| ==> order[i] != order[j]
    ensures order == [id]
  {
    assert |order| <= 1 || order[0] != order[1];
    assert id in order;
    forall k | 0 <= k < |order|
      ensures order[k] == id
    {
      assert order[k] in order;
    }
  }

  lemma ResolveSingle(w: World, p: Pass, breaching: set<Fp>, id: Id)
    requires p.resolveOrder == [id]
    ensures ResolveAll(w, p, breaching, 1) == ResolveOne(w, p, breaching, id)
  {
    assert ResolveAll(w, p, breaching, 1) == ResolveOne(ResolveAll(w, p, breaching, 0), p, breaching, id);
  }

  /** A breach of an active alert's fingerprint is matched with that alert. */
  lemma KnownBreach(w: World, p: Pass, i: Id)
    requires OneActive(w.rows) && i in w.rows && w.rows[i].Active()
    requires |p.breaches| == 1 && w.rows[i].fp == Fingerprint(p.rule, p.breaches[0])
    ensures FiredOnce(w, p) == Reconsider(Gated(w, p), p, i, ParentOf(p, p.breaches[0]))
  {
    var g := Gated(w, p);
    assert Matches(g.rows, w.rows[i].fp, i) && forall j :: Matches(g.rows, w.rows[i].fp, j) ==> j == i;
  }

  lemma ResolveOneSpares(w: World, p: Pass, breaching: set<Fp>, j: Id, i: Id)
    requires p.rule.renotifySeconds <= 0 && i in w.rows && (i == j ==> w.rows[i].fp in breaching)
    requires w.rows[i].status == Suppressed ==> w.rows[i].suppressedBy != Some(j)
    ensures i in ResolveOne(w, p, breaching, j).rows && ResolveOne(w, p, breaching, j).rows[i] == w.rows[i]
  {
  }

  /** The auto-resolve loop leaves alone an alert that is breaching or not its own, and is not a
      child of one it may resolve. */
  lemma {:induction false} ResolveAllSpares(w: World, p: Pass, breaching: set<Fp>, k: nat, i: Id)
    requires p.rule.renotifySeconds <= 0 && i in w.rows && k <= |p.resolveOrder|
    requires i in p.resolveOrder ==> w.rows[i].fp in breaching
    requires w.rows[i].status == Suppressed && w.rows[i].suppressedBy.Some? ==>
               w.rows[i].suppressedBy.value !in p.resolveOrder
    ensures i in ResolveAll(w, p, breaching, k).rows && ResolveAll(w, p, breaching, k).rows[i] == w.rows[i]
  {
    if k > 0 {
      ResolveAllSpares(w, p, breaching, k - 1, i);
      ResolveOneSpares(ResolveAll(w, p, breaching, k - 1), p, breaching, p.resolveOrder[k - 1], i);
    }
  }
}
