/** The engine's housekeeping pass as it runs: per-tenant statements on the alerts table, then the
    pruning of the in-memory clocks. */
module Housekeeping {
  import opened Basics
  import opened Lifecycle
  import opened Invariants
  import opened Sweeping
  import opened Engine

  lemma ForgetOne(c: Clocks, fps: set<Fp>, fp: Fp)
    ensures Forget(c, fps + {fp}) == Forget(Forget(c, fps), {fp})
  {
    assert c.breachSince - (fps + {fp}) == c.breachSince - fps - {fp};
    assert c.clearSince - (fps + {fp}) == c.clearSince - fps - {fp};
    assert c.lastClear - (fps + {fp}) == c.lastClear - fps - {fp};
    assert c.suppressUntilClear - (fps + {fp}) == c.suppressUntilClear - fps - {fp};
    assert c.lastSeen - (fps + {fp}) == c.lastSeen - fps - {fp};
  }

  lemma ForgetNone(c: Clocks)
    ensures Forget(c, {}) == c
  {
    assert c.breachSince - {} == c.breachSince && c.clearSince - {} == c.clearSince;
    assert c.lastClear - {} == c.lastClear && c.lastSeen - {} == c.lastSeen;
  }

  /** Drop every trace of some fingerprints from the five structures. */
  method ForgetAll(engine: AlertEngine, fps: set<Fp>)
    modifies engine
    ensures engine.Snapshot() == Forget(old(engine.Snapshot()), fps)
  {
    ghost var c := engine.Snapshot();
    var todo := fps;
    ForgetNone(c);
    assert fps - todo == {};
    while todo != {}
      invariant todo <= fps
      invariant engine.Snapshot() == Forget(c, fps - todo)
      decreases todo
    {
      var fp :| fp in todo;
      ForgetOne(c, fps - todo, fp);
      assert fps - (todo - {fp}) == fps - todo + {fp};
      todo := todo - {fp};
      engine.breachSince := engine.breachSince - {fp};
      engine.clearSince := engine.clearSince - {fp};
      engine.lastClear := engine.lastClear - {fp};
      engine.suppressUntilClear := engine.suppressUntilClear - {fp};
      engine.fpLastSeen := engine.fpLastSeen - {fp};
    }
    assert fps - {} == fps;
  }

  /** `order` lists keys of `seen` without repetition, longest unseen first. */
  ghost predicate AgeOrder(order: seq<Fp>, seen: map<Fp, Time>) {
    && (forall i :: 0 <= i < |order| ==> order[i] in seen)
    && (forall i, j :: 0 <= i < j < |order| ==> order[i] != order[j] && Age(seen, order[i]) <= Age(seen, order[j]))
  }

  function Age(seen: map<Fp, Time>, fp: Fp): Time {
    if fp in seen then seen[fp] else 0
  }

  lemma InsertedAt(order: seq<Fp>, seen: map<Fp, Time>, fp: Fp, k: nat, r: seq<Fp>)
    requires AgeOrder(order, seen) && fp in seen && fp !in order && k <= |order|
    requires forall i :: k <= i < |order| ==> Age(seen, fp) <= Age(seen, order[i])
    requires k > 0 ==> Age(seen, order[k - 1]) <= Age(seen, fp)
    requires r == order[..k] + [fp] + order[k..]
    ensures AgeOrder(r, seen)
  {
    forall i, j | 0 <= i < j < |r|
      ensures r[i] != r[j] && Age(seen, r[i]) <= Age(seen, r[j])
    {
      var i', j' := if i < k then i else i - 1, if j < k then j else j - 1;
      assert i != k ==> r[i] == order[i'];
      assert j != k ==> r[j] == order[j'];
    }
  }

  lemma InsertedMembers(order: seq<Fp>, fp: Fp, k: nat)
    requires k <= |order|
    ensures forall f :: f in order[..k] + [fp] + order[k..] <==> f in order || f == fp
  {
    assert order == order[..k] + order[k..];
  }

  /** Insert a fingerprint behind those seen no later. */
  method Insert(order: seq<Fp>, seen: map<Fp, Time>, fp: Fp) returns (r: seq<Fp>)
    requires AgeOrder(order, seen) && fp in seen && fp !in order
    ensures AgeOrder(r, seen) && |r| == |order| + 1
    ensures forall f :: f in r <==> f in order || f == fp
  {
    var k := |order|;
    while k > 0 && Age(seen, order[k - 1]) > Age(seen, fp)
      invariant 0 <= k <= |order|
      invariant forall i :: k <= i < |order| ==> Age(seen, fp) <= Age(seen, order[i])
    {
      k := k - 1;
    }
    r := order[..k] + [fp] + order[k..];
    InsertedAt(order, seen, fp, k, r);
    InsertedMembers(order, fp, k);
  }

  method ByAge(seen: map<Fp, Time>) returns (order: seq<Fp>)
    ensures AgeOrder(order, seen) && |order| == |seen|
    ensures forall f :: f in order <==> f in seen
  {
    order := [];
    var todo := seen.Keys;
    while todo != {}
      invariant todo <= seen.Keys && AgeOrder(order, seen)
      invariant forall f :: f in order <==> f in seen && f !in todo
      invariant |order| + |todo| == |seen|
      decreases todo
    {
      var fp :| fp in todo;
      todo := todo - {fp};
      order := Insert(order, seen, fp);
    }
  }

  function Elements(order: seq<Fp>): set<Fp> {
    set f | f in order
  }

  lemma {:induction false} DistinctSize(order: seq<Fp>)
    requires forall i, j :: 0 <= i < j < |order| ==> order[i] != order[j]
    ensures |Elements(order)| == |order|
  {
    if order != [] {
      var front, last := order[..|order| - 1], order[|order| - 1];
      DistinctSize(front);
      assert order == front + [last];
      assert Elements(order) == Elements(front) + {last};
    }
  }

  /** The cap: sort by age and drop the oldest down to TRIM_TO. */
  method EvictOverCap(engine: AlertEngine) returns (evicted: set<Fp>)
    modifies engine
    ensures ValidEviction(old(engine.Snapshot()), evicted)
    ensures engine.Snapshot() == Forget(old(engine.Snapshot()), evicted)
  {
    evicted := {};
    if |engine.fpLastSeen| > MAX_FP {
      var order := ByAge(engine.fpLastSeen);
      var k := |order| - TRIM_TO;
      evicted := Elements(order[..k]);
      DistinctSize(order[..k]);
      forall f, g | f in evicted && g in engine.fpLastSeen && g !in evicted
        ensures engine.fpLastSeen[f] <= engine.fpLastSeen[g]
      {
        assert order == order[..k] + order[k..];
        assert g in order && g in order[k..];
        assert Age(engine.fpLastSeen, f) <= Age(engine.fpLastSeen, g);
      }
    }
    ForgetAll(engine, evicted);
  }

  /** Auto-close, one statement per tenant whose setting asks for it. */
  method AutoCloseStale(db: AlertsTable, h: Sweep)
    modifies db`rows
    ensures db.rows == AutoClose(old(db.rows), h)
  {
    ghost var rows0 := db.rows;
    var rows := db.rows;
    var tenants := h.settings.Keys;
    while tenants != {}
      invariant tenants <= h.settings.Keys && rows.Keys == rows0.Keys
      invariant forall i :: i in rows ==>
        rows[i] == if rows0[i].tenant in tenants then rows0[i] else AutoClose(rows0, h)[i]
      decreases tenants
    {
      var tid :| tid in tenants;
      tenants := tenants - {tid};
      if h.settings[tid].autoCloseDays > 0 {
        rows := map i | i in rows ::
          if rows[i].tenant == tid && AutoCloses(h, rows[i])
          then rows[i].(status := Resolved, resolvedAt := Some(h.now)) else rows[i];
      }
    }
    db.rows := rows;
  }

  /** A foreign key after the rows of `rows0` that `rows` lacks were deleted. */
  function Nulled(rows0: map<Id, Alert>, rows: map<Id, Alert>, parent: Option<Id>): Option<Id> {
    if parent.Some? && parent.value in rows0 && parent.value !in rows then None else parent
  }

  /** `rows` is `rows0` after the retention statements of every tenant but `tenants`. */
  ghost predicate PurgedFor(rows0: map<Id, Alert>, rows: map<Id, Alert>, h: Sweep, tenants: set<Tenant>) {
    && (forall i :: i in rows <==> i in rows0 && (rows0[i].tenant in tenants || !Purges(h, rows0[i])))
    && (forall i :: i in rows ==> rows[i] == rows0[i].(suppressedBy := Nulled(rows0, rows, rows0[i].suppressedBy)))
  }

  /** One tenant's DELETE, which nulls the pointers to the rows it deletes. */
  function PurgeTenant(rows: map<Id, Alert>, h: Sweep, tid: Tenant): map<Id, Alert>
    requires tid in h.settings
  {
    if h.settings[tid].retentionDays <= 0 then rows
    else
      var deleted := set i | i in rows && rows[i].tenant == tid && Purges(h, rows[i]);
      map i | i in rows && i !in deleted ::
        if rows[i].suppressedBy.Some? && rows[i].suppressedBy.value in deleted
        then rows[i].(suppressedBy := None) else rows[i]
  }

  lemma PurgeTenantStep(rows0: map<Id, Alert>, rows: map<Id, Alert>, h: Sweep, tenants: set<Tenant>, tid: Tenant)
    requires PurgedFor(rows0, rows, h, tenants) && tid in tenants && tid in h.settings
    ensures PurgedFor(rows0, PurgeTenant(rows, h, tid), h, tenants - {tid})
  {
  }

  lemma AllPurged(rows0: map<Id, Alert>, rows: map<Id, Alert>, h: Sweep)
    requires PurgedFor(rows0, rows, h, {})
    ensures rows == Purge(rows0, h)
  {
  }

  /** Retention, tenant by tenant. */
  method PurgeOld(db: AlertsTable, h: Sweep)
    modifies db`rows
    ensures db.rows == Purge(old(db.rows), h)
  {
    ghost var rows0 := db.rows;
    var rows := db.rows;
    var tenants := h.settings.Keys;
    while tenants != {}
      invariant tenants <= h.settings.Keys
      invariant PurgedFor(rows0, rows, h, tenants)
      decreases tenants
    {
      var tid :| tid in tenants;
      PurgeTenantStep(rows0, rows, h, tenants, tid);
      tenants := tenants - {tid};
      rows := PurgeTenant(rows, h, tid);
    }
    AllPurged(rows0, rows, h);
    db.rows := rows;
  }

  /** A housekeeping pass whose recovery statement succeeds or, with `recovers` false, fails.  It keeps
      the invariant and bounds the engine's memory, and if recovery succeeds every suppressed alert
      has a live parent afterwards. */
  method RunHousekeeping(engine: AlertEngine, db: AlertsTable, now: Time, settings: map<Tenant, Settings>,
                         recovers: bool, ghost w: World) returns (h: Sweep)
    requires engine.View(db, w.sent, w.seen, w.now) == w && Inv(w) && now >= w.now
    modifies engine, db`rows
    ensures h.now == now && h.settings == settings && h.recovers == recovers && ValidSweep(w, h)
    ensures engine.View(db, w.sent, w.seen, now) == Housekeep(w, h) && Inv(Housekeep(w, h))
    ensures forall i :: i in db.rows ==> i in old(db.rows)
    ensures forall i :: i in old(db.rows) ==> SweptAlert(old(db.rows), db.rows, i, now, settings, recovers)
    ensures recovers && PointersSet(w.rows) ==> AllParented(db.rows)
    ensures |engine.fpLastSeen| <= 50_000
  {
    h := Sweep(now, settings, recovers, {});
    AutoCloseStale(db, h);
    if recovers { db.rows := RecoverOrphans(db.rows); }
    PurgeOld(db, h);
    ForgetAll(engine, Stale(engine.Snapshot(), now));
    var evicted := EvictOverCap(engine);
    h := Sweep(now, settings, recovers, evicted);
    SettingsOnly(w.rows, Sweep(now, settings, recovers, {}), h);
    ghost var w' := Swept(w, h);
  }

  /** What a sweep leaves. */
  lemma Swept(w: World, h: Sweep) returns (w': World)
    requires Inv(w) && h.now >= w.now && ValidSweep(w, h)
    ensures w' == Housekeep(w, h) && Inv(w')
    ensures h.recovers && PointersSet(w.rows) ==> AllParented(w'.rows)
    ensures |w'.clocks.lastSeen| <= 50_000
    ensures forall i :: i in w'.rows ==> i in w.rows
    ensures forall i :: i in w.rows ==> SweptAlert(w.rows, w'.rows, i, h.now, h.settings, h.recovers)
  {
    w' := Housekeep(w, h);
    HousekeepKeeps(w, h);
    MemoryBound(w, h);
    SweptOnly(w.rows, h);
    forall i | i in w.rows
      ensures SweptAlert(w.rows, w'.rows, i, h.now, h.settings, h.recovers)
    {
      SweepMeans(w.rows, h, i);
    }
    if h.recovers && PointersSet(w.rows) { SweptAreParented(w.rows, h); }
  }

  /** The table stages do not depend on the evicted set. */
  lemma SettingsOnly(rows: map<Id, Alert>, h: Sweep, h': Sweep)
    requires h.now == h'.now && h.settings == h'.settings && h.recovers == h'.recovers
    ensures SweptRows(rows, h) == SweptRows(rows, h')
  {
    assert AutoClose(rows, h) == AutoClose(rows, h');
    var closed := AutoClose(rows, h);
    var r := if h.recovers then RecoverOrphans(closed) else closed;
    assert Purge(r, h) == Purge(r, h');
  }
}
