/** What a lost resolve costs.  When a commit fails after its cycle resolved an alert, the rollback
    brings the alert back but not its resolve notification, and then some later run notifies about
    it again. */
module LostResolve {
  import opened Basics
  import opened Suppression
  import opened Lifecycle
  import opened Invariants
  import opened Runs
  import opened Notifications
  import opened Passes

  /** A rule id that no row and no remembered fingerprint uses. */
  lemma FreshRule(fps: set<Fp>) returns (r: RuleId)
    ensures forall fp :: fp in fps ==> fp.rule != r
  {
    r := 0;
    var todo := fps;
    while todo != {}
      invariant todo <= fps
      invariant forall fp :: fp in fps && fp !in todo ==> fp.rule < r
      decreases todo
    {
      var fp :| fp in todo;
      todo := todo - {fp};
      if fp.rule >= r { r := fp.rule + 1; }
    }
  }

  /** The breach an alert stands for. */
  function OwnBreach(a: Alert): Breach {
    Breach(a.fp.device, a.fp.iface, None)
  }

  const SOME_DEVICE := Breach(Device(0), None, None)

  lemma UnusedRule(w: World) returns (r: RuleId)
    ensures Fp(r, Device(0), None) !in w.clocks.suppressUntilClear
    ensures forall i :: i in w.rows ==> w.rows[i].fp.rule != r
  {
    var used := w.clocks.suppressUntilClear + set j | j in w.rows :: w.rows[j].fp;
    r := FreshRule(used);
    assert forall j :: j in w.rows ==> w.rows[j].fp in used;
  }

  /** The pass of an unused rule opens an alert and leaves an open or acknowledged one alone. */
  lemma AnotherOpened(w: World, p: Pass, i: Id, w': World)
    requires Inv(w) && i in w.rows && (w.rows[i].status == Open || w.rows[i].status == Acknowledged)
    requires p.breaches == [SOME_DEVICE] && p.rule == PlainRule(p.rule.id) && p.links == NO_LINKS
    requires Fp(p.rule.id, Device(0), None) !in w.clocks.suppressUntilClear
    requires forall j :: j in w.rows ==> w.rows[j].fp.rule != p.rule.id
    requires forall j :: j in p.resolveOrder <==> Resolvable(FiredOnce(w, p), p, j)
    requires w' == ResolveAll(FiredOnce(w, p), p, Fps(p.rule, p.breaches), |p.resolveOrder|)
    ensures i in w'.rows && w'.rows[i] == w.rows[i]
    ensures Id(w.nextId) in w'.rows && Id(w.nextId) != i && w'.rows[Id(w.nextId)].fp.rule == p.rule.id
  {
    GateOfOne(w.clocks, p.rule, p.breaches, p.now);
    NewBreachCreates(w, p, Fp(p.rule.id, Device(0), None), None);
    ResolveAllSpares(FiredOnce(w, p), p, Fps(p.rule, p.breaches), |p.resolveOrder|, i);
    ResolveAllSpares(FiredOnce(w, p), p, Fps(p.rule, p.breaches), |p.resolveOrder|, Id(w.nextId));
  }

  lemma AnotherOpens(w: World, i: Id) returns (es: seq<Event>, w': World, q: Id)
    requires Inv(w) && i in w.rows && (w.rows[i].status == Open || w.rows[i].status == Acknowledged)
    ensures ValidRun(w, es) && w' == Run(w, es) && forall e :: e in es ==> e.Evaluate?
    ensures i in w'.rows && w'.rows[i] == w.rows[i]
    ensures q in w'.rows && q != i && w'.rows[q].fp.rule != w.rows[i].fp.rule
  {
    var r := UnusedRule(w);
    var p;
    p, es, w' := PassExists(w, PlainRule(r), [SOME_DEVICE], NO_LINKS, w.now);
    AnotherOpened(w, p, i, w');
    q := Id(w.nextId);
  }

  lemma ReconsiderSuppresses(w: World, p: Pass, i: Id, q: Id)
    requires i in w.rows && (w.rows[i].status == Open || w.rows[i].status == Acknowledged) && q != i
    ensures var r := Reconsider(w, p, i, Some(q)).rows;
      i in r && r[i].status == Suppressed && r[i].suppressedBy == Some(q) && r[i].fp == w.rows[i].fp
  {
  }

  /** The pass whose suppression map blames `q` suppresses `i`. */
  lemma GetsSuppressed(w: World, p: Pass, i: Id, q: Id, w': World)
    requires Inv(w) && i in w.rows && (w.rows[i].status == Open || w.rows[i].status == Acknowledged)
    requires q in w.rows && q != i && w.rows[q].fp.rule != w.rows[i].fp.rule
    requires p.rule == PlainRule(w.rows[i].fp.rule) && p.breaches == [OwnBreach(w.rows[i])]
    requires p.links == Links(map[], map[w.rows[i].fp.device := q], map[], map[])
    requires forall j :: j in p.resolveOrder <==> Resolvable(FiredOnce(w, p), p, j)
    requires w' == ResolveAll(FiredOnce(w, p), p, Fps(p.rule, p.breaches), |p.resolveOrder|)
    ensures i in w'.rows && w'.rows[i].status == Suppressed
  {
    GateOfOne(w.clocks, p.rule, p.breaches, p.now);
    KnownBreach(w, p, i);
    assert ParentOf(p, p.breaches[0]) == Some(q);
    ReconsiderSuppresses(Gated(w, p), p, i, q);
    ResolveAllSpares(FiredOnce(w, p), p, Fps(p.rule, p.breaches), |p.resolveOrder|, i);
  }

  lemma Suppresses(w: World, i: Id, q: Id) returns (es: seq<Event>, w': World)
    requires Inv(w) && i in w.rows && (w.rows[i].status == Open || w.rows[i].status == Acknowledged)
    requires q in w.rows && q != i && w.rows[q].fp.rule != w.rows[i].fp.rule
    ensures ValidRun(w, es) && w' == Run(w, es) && forall e :: e in es ==> e.Evaluate?
    ensures i in w'.rows && w'.rows[i].status == Suppressed
  {
    var fp := w.rows[i].fp;
    var links := Links(map[], map[fp.device := q], map[], map[]);
    var p;
    p, es, w' := PassExists(w, PlainRule(fp.rule), [OwnBreach(w.rows[i])], links, w.now);
    GetsSuppressed(w, p, i, q, w');
  }

  /** The pass whose suppression map blames nobody brings `i` back, with a notification. */
  lemma GetsRevived(w: World, p: Pass, i: Id, w': World)
    requires Inv(w) && i in w.rows && w.rows[i].status == Suppressed
    requires p.rule == PlainRule(w.rows[i].fp.rule) && p.breaches == [OwnBreach(w.rows[i])] && p.links == NO_LINKS
    requires w' == ResolveAll(FiredOnce(w, p), p, Fps(p.rule, p.breaches), |p.resolveOrder|)
    ensures w.sent + [Notification(i, false)] <= w'.sent
  {
    KnownBreach(w, p, i);
    assert ParentOf(p, p.breaches[0]) == None;
    assert FiredOnce(w, p).sent == w.sent + [Notification(i, false)];
    ResolveAllEvolves(FiredOnce(w, p), p, Fps(p.rule, p.breaches), |p.resolveOrder|);
  }

  lemma Revives(w: World, i: Id) returns (es: seq<Event>, w': World)
    requires Inv(w) && i in w.rows && w.rows[i].status == Suppressed
    ensures ValidRun(w, es) && w' == Run(w, es) && forall e :: e in es ==> e.Evaluate?
    ensures w.sent + [Notification(i, false)] <= w'.sent
  {
    var p;
    p, es, w' := PassExists(w, PlainRule(w.rows[i].fp.rule), [OwnBreach(w.rows[i])], NO_LINKS, w.now);
    GetsRevived(w, p, i, w');
  }

  lemma {:induction false} PassesKeep(w: World, es: seq<Event>)
    requires Inv(w) && ValidRun(w, es) && forall e :: e in es ==> e.Evaluate?
    ensures LosesNoResolve(w, es) && Inv(Run(w, es)) && w.sent <= Run(w, es).sent
    decreases |es|
  {
    if es != [] {
      StepKeeps(w, es[0]);
      StepEvolves(w, es[0]);
      PassesKeep(Step(w, es[0]), es[1..]);
    }
  }

  lemma NotGrammar(sent: seq<Notification>, i: Id, later: seq<Notification>)
    requires Notification(i, true) in sent && sent + [Notification(i, false)] <= later
    ensures !Grammar(later)
  {
    var k :| 0 <= k < |sent| && sent[k] == Notification(i, true);
    assert later[k] == (sent + [Notification(i, false)])[k];
    assert later[|sent|] == (sent + [Notification(i, false)])[|sent|];
  }

  /** Once the log holds the resolve of an active alert, some run of passes breaks the grammar. */
  lemma SomeRunBreaks(w: World, i: Id) returns (es: seq<Event>)
    requires Inv(w) && i in w.rows && w.rows[i].Active() && Notification(i, true) in w.sent
    ensures ValidRun(w, es) && LosesNoResolve(w, es) && !Grammar(Run(w, es).sent)
  {
    var w1, before: seq<Event> := w, [];
    if w.rows[i].status != Suppressed {
      var es1, v, q := AnotherOpens(w, i);
      PassesKeep(w, es1);
      var es2;
      es2, w1 := Suppresses(v, i, q);
      PassesKeep(v, es2);
      RunOn(w, es1, es2);
      before := es1 + es2;
    }
    var last, w2 := Revives(w1, i);
    RunOn(w, before, last);
    es := before + last;
    PassesKeep(w, es);
    NotGrammar(w1.sent, i, Run(w, es).sent);
  }

  /** After a commit has failed, the grammar holds in every later run exactly if the failed cycle
      resolved no alert that the rollback brought back. */
  lemma GrammarSurvivesExactly(w: World, attempts: seq<Attempt>)
    requires Inv(w) && Logged(w) && ValidCycle(w, attempts)
    ensures var w' := RolledBack(w, attempts, true);
      (forall es :: ValidRun(w', es) && LosesNoResolve(w', es) ==> Grammar(Run(w', es).sent))
      <==> !ResolvesSome(w, attempts)
  {
    var w' := RolledBack(w, attempts, true);
    RollBackKeeps(w, attempts, true);
    RollBackLogs(w, attempts, true);
    if ResolvesSome(w, attempts) {
      var i :| i in w.rows && w.rows[i].status != Resolved && Notification(i, true) in Cycle(w, attempts).sent;
      var es := SomeRunBreaks(w', i);
    } else {
      forall es | ValidRun(w', es) && LosesNoResolve(w', es)
        ensures Grammar(Run(w', es).sent)
      {
        RunLogs(w', es);
      }
    }
  }
}
