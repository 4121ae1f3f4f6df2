/** Escalation over a whole pass: which alerts change severity, and what is sent about them. */
module Escalation {
  import opened Basics
  import opened Lifecycle
  import opened Invariants

  /** An open alert of the rule, not yet escalated, still breaching and old enough. */
  predicate Due(w: World, p: Pass, breaching: set<Fp>, i: Id) {
    && p.rule.escalation.Some? && i in w.rows
    && w.rows[i].fp.rule == p.rule.id && w.rows[i].status == Open && w.rows[i].severity == p.rule.severity
    && w.rows[i].fp in breaching
    && p.rule.escalation.value.seconds * 1_000_000 <= p.now - w.rows[i].triggeredAt <= 90 * 86_400_000_000
  }

  function Raised(p: Pass, a: Alert): Alert {
    if p.rule.escalation.None? then a
    else a.(severity := p.rule.escalation.value.severity, lastNotified := Some(p.now))
  }

  /** One fire for each of the first `k` alerts that is due. */
  function DueFires(w: World, p: Pass, breaching: set<Fp>, k: nat): seq<Notification>
    requires k <= |p.escalationOrder|
  {
    if k == 0 then []
    else
      var id := p.escalationOrder[k - 1];
      DueFires(w, p, breaching, k - 1) + if Due(w, p, breaching, id) then [Notification(id, false)] else []
  }

  /** The rows with exactly the due ones among `ids` raised. */
  function RaisedRows(w: World, p: Pass, breaching: set<Fp>, ids: seq<Id>): map<Id, Alert> {
    map i | i in w.rows :: if i in ids && Due(w, p, breaching, i) then Raised(p, w.rows[i]) else w.rows[i]
  }

  /** The state with the first `k` due alerts raised, the rest untouched. */
  function RaisedTo(w: World, p: Pass, breaching: set<Fp>, k: nat): World
    requires k <= |p.escalationOrder|
  {
    w.(rows := RaisedRows(w, p, breaching, p.escalationOrder[..k]), sent := w.sent + DueFires(w, p, breaching, k))
  }

  lemma RaiseRow(w: World, p: Pass, breaching: set<Fp>, ids: seq<Id>, id: Id)
    requires id in w.rows && id !in ids
    ensures RaisedRows(w, p, breaching, ids)[id] == w.rows[id]
    ensures RaisedRows(w, p, breaching, ids + [id]) ==
      if Due(w, p, breaching, id) then RaisedRows(w, p, breaching, ids)[id := Raised(p, w.rows[id])]
      else RaisedRows(w, p, breaching, ids)
  {
  }

  lemma EscalateOneIs(w: World, w1: World, p: Pass, breaching: set<Fp>, id: Id)
    requires p.rule.escalation.Some? && Escalatable(w, p, id) && id in w1.rows && w1.rows[id] == w.rows[id]
    ensures EscalateOne(w1, p, breaching, id) ==
      if Due(w, p, breaching, id)
      then w1.(rows := w1.rows[id := Raised(p, w.rows[id])], sent := w1.sent + [Notification(id, false)])
      else w1
  {
  }

  lemma RaiseOne(w: World, p: Pass, breaching: set<Fp>, k: nat)
    requires p.rule.escalation.Some? && 0 < k <= |p.escalationOrder|
    requires Escalatable(w, p, p.escalationOrder[k - 1])
    requires p.escalationOrder[k - 1] !in p.escalationOrder[..k - 1]
    ensures EscalateOne(RaisedTo(w, p, breaching, k - 1), p, breaching, p.escalationOrder[k - 1]) ==
            RaisedTo(w, p, breaching, k)
  {
    var id := p.escalationOrder[k - 1];
    RaiseRow(w, p, breaching, p.escalationOrder[..k - 1], id);
    EscalateOneIs(w, RaisedTo(w, p, breaching, k - 1), p, breaching, id);
    assert p.escalationOrder[..k] == p.escalationOrder[..k - 1] + [id];
  }

  lemma NoneRaised(w: World, p: Pass, breaching: set<Fp>)
    ensures RaisedTo(w, p, breaching, 0) == w
  {
    assert RaisedRows(w, p, breaching, p.escalationOrder[..0]) == w.rows;
  }

  lemma RaiseNext(w: World, p: Pass, breaching: set<Fp>, k: nat)
    requires p.rule.escalation.Some? && 0 < k <= |p.escalationOrder|
    requires forall i :: i in p.escalationOrder ==> Escalatable(w, p, i)
    requires forall i, j :: 0 <= i < j < |p.escalationOrder| ==> p.escalationOrder[i] != p.escalationOrder[j]
    requires EscalateAll(w, p, breaching, k - 1) == RaisedTo(w, p, breaching, k - 1)
    ensures EscalateAll(w, p, breaching, k) == RaisedTo(w, p, breaching, k)
  {
    assert p.escalationOrder[k - 1] in p.escalationOrder;
    RaiseOne(w, p, breaching, k);
  }

  lemma {:induction false} EscalateAllRaises(w: World, p: Pass, breaching: set<Fp>, k: nat)
    requires p.rule.escalation.Some? && k <= |p.escalationOrder|
    requires forall i :: i in p.escalationOrder ==> Escalatable(w, p, i)
    requires forall i, j :: 0 <= i < j < |p.escalationOrder| ==> p.escalationOrder[i] != p.escalationOrder[j]
    ensures EscalateAll(w, p, breaching, k) == RaisedTo(w, p, breaching, k)
  {
    if k == 0 {
      NoneRaised(w, p, breaching);
    } else {
      EscalateAllRaises(w, p, breaching, k - 1);
      RaiseNext(w, p, breaching, k);
    }
  }

  /** Every due alert is in the list of fires, exactly once, and no other. */
  lemma {:induction false} DueFiresOnce(w: World, p: Pass, breaching: set<Fp>, k: nat)
    requires k <= |p.escalationOrder|
    requires forall i, j :: 0 <= i < j < |p.escalationOrder| ==> p.escalationOrder[i] != p.escalationOrder[j]
    ensures var fires := DueFires(w, p, breaching, k);
      && (forall n :: n in fires <==>
            !n.resolved && n.alert in p.escalationOrder[..k] && Due(w, p, breaching, n.alert))
      && (forall i, j :: 0 <= i < j < |fires| ==> fires[i] != fires[j])
  {
    if k > 0 {
      DueFiresOnce(w, p, breaching, k - 1);
      var id := p.escalationOrder[k - 1];
      assert p.escalationOrder[..k] == p.escalationOrder[..k - 1] + [id];
      assert id !in p.escalationOrder[..k - 1];
    }
  }

  /** The loop raises exactly the alerts that are due, and sends one fire for each. */
  lemma EscalationExact(w: World, p: Pass)
    requires ValidPass(w, p) && p.rule.escalation.Some?
    ensures var f, breaching := Fired(w, p), Fps(p.rule, p.breaches); var w' := Escalated(w, p);
      && w'.rows.Keys == f.rows.Keys
      && (forall i :: i in f.rows ==>
            w'.rows[i] == if Due(f, p, breaching, i) then Raised(p, f.rows[i]) else f.rows[i])
      && f.sent <= w'.sent
      && (forall i :: Notification(i, false) in w'.sent[|f.sent|..] <==> Due(f, p, breaching, i))
      && (forall i, j :: |f.sent| <= i < j < |w'.sent| ==> w'.sent[i] != w'.sent[j])
  {
    var f, breaching, n := Fired(w, p), Fps(p.rule, p.breaches), |p.escalationOrder|;
    EscalateAllRaises(f, p, breaching, n);
    DueFiresOnce(f, p, breaching, n);
    assert p.escalationOrder[..n] == p.escalationOrder;
    var fires := DueFires(f, p, breaching, n);
    assert (f.sent + fires)[|f.sent|..] == fires;
  }

  // ------------------------------------------------------------------ over a whole pass

  ghost predicate SameSeverity(w: World, w': World) {
    forall i :: i in w.rows ==> i in w'.rows && w'.rows[i].severity == w.rows[i].severity
  }

  lemma FireOneSeverity(w: World, p: Pass, firing: set<Fp>, b: Breach)
    requires forall i :: i in w.rows ==> i.n < w.nextId
    ensures SameSeverity(w, FireOne(w, p, firing, b))
  {
  }

  lemma {:induction false} FireAllSeverity(w: World, p: Pass, firing: set<Fp>, breaching: set<Fp>, k: nat)
    requires During(w, p, breaching) && firing <= breaching && k <= |p.breaches|
    ensures SameSeverity(w, FireAll(w, p, firing, k))
  {
    if k > 0 {
      FireAllSeverity(w, p, firing, breaching, k - 1);
      FireAllKeeps(w, p, firing, breaching, k - 1);
      FireOneSeverity(FireAll(w, p, firing, k - 1), p, firing, p.breaches[k - 1]);
    }
  }

  lemma ResolveOneSeverity(w: World, p: Pass, breaching: set<Fp>, id: Id)
    ensures SameSeverity(w, ResolveOne(w, p, breaching, id))
  {
  }

  lemma {:induction false} ResolveAllSeverity(w: World, p: Pass, breaching: set<Fp>, k: nat)
    requires k <= |p.resolveOrder|
    ensures SameSeverity(w, ResolveAll(w, p, breaching, k))
  {
    if k > 0 {
      ResolveAllSeverity(w, p, breaching, k - 1);
      ResolveOneSeverity(ResolveAll(w, p, breaching, k - 1), p, breaching, p.resolveOrder[k - 1]);
    }
  }

  /** Over a whole pass the severity of an alert changes only by escalation, and only if it is due
      once the breaches have been dealt with. */
  lemma PassEscalates(w: World, p: Pass, i: Id)
    requires Inv(w) && ValidPass(w, p) && p.anyDevice && i in w.rows
    ensures i in RunPass(w, p).rows
    ensures RunPass(w, p).rows[i].severity ==
      if Due(Fired(w, p), p, Fps(p.rule, p.breaches), i) then p.rule.escalation.value.severity else w.rows[i].severity
  {
    var breaching := Fps(p.rule, p.breaches);
    GatedKeeps(w, p);
    GateKeeps(w.clocks, p.rule, p.breaches, p.now);
    FireAllSeverity(Gated(w, p), p, Firing(w, p), breaching, |p.breaches|);
    if p.rule.escalation.Some? { EscalationExact(w, p); }
    ResolveAllSeverity(Escalated(w, p), p, breaching, |p.resolveOrder|);
  }
}
