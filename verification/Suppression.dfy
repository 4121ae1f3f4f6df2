/** Rules 0 to 2 of the per-cycle suppression map, as the source runs them: loops that fill the
    map in place.  `Cascade.dfy` says what Rule 2 means. */
module Suppression {
  import opened Basics
  import opened Cascade
  import opened CascadeSearch
  import opened OutageRows

  datatype Metric =
    | DeviceDown | InterfaceFlap | OspfState | IsisState | BgpSessionDown
    | OtherMetric(name: string)

  /** The contents of a suppression map, as a value. */
  datatype Links = Links(
    deviceDown: map<Device, Id>,
    other: map<Device, Id>,
    peerMetric: map<(Device, Metric), Id>,
    peerSession: map<(Device, Metric, string), Id>)
  {
    /** The alert that should suppress a breach of `metric` on `reporter`, if any. */
    function ParentFor(reporter: Option<Device>, metric: Metric, peerIp: Option<string>): Option<Id> {
      if reporter.None? then None else
      var device := reporter.value;
      if metric == DeviceDown then
        if device in deviceDown then Some(deviceDown[device]) else None
      else if device in other then Some(other[device])
      else if metric == OspfState || metric == IsisState then
        if (device, metric) in peerMetric then Some(peerMetric[(device, metric)]) else None
      else if metric == BgpSessionDown && peerIp.Some? && peerIp.value != "" then
        if (device, metric, peerIp.value) in peerSession
        then Some(peerSession[(device, metric, peerIp.value)]) else None
      else None
    }
  }

  datatype CollectorAlert = CollectorAlert(id: Id, collector: Option<string>)

  /** The last active collector_offline alert whose collector manages `d`. */
  function Holder(alerts: seq<CollectorAlert>, managed: map<string, seq<Device>>, d: Device): Option<Id> {
    if alerts == [] then None
    else
      var r := alerts[|alerts| - 1];
      if r.collector.Some? && r.collector.value != "" && r.collector.value in managed
         && d in managed[r.collector.value]
      then Some(r.id)
      else Holder(alerts[..|alerts| - 1], managed, d)
  }

  /** Alert `k` is a collector's that manages `d`. */
  predicate Manages(alerts: seq<CollectorAlert>, managed: map<string, seq<Device>>, k: int, d: Device) {
    && 0 <= k < |alerts| && alerts[k].collector.Some? && alerts[k].collector.value != ""
    && alerts[k].collector.value in managed && d in managed[alerts[k].collector.value]
  }

  ghost predicate LastManager(alerts: seq<CollectorAlert>, managed: map<string, seq<Device>>, k: int, d: Device) {
    Manages(alerts, managed, k, d) && forall l :: k < l ==> !Manages(alerts, managed, l, d)
  }

  /** The last alert of a collector that manages `d` holds it. */
  lemma {:induction false} HolderIsLast(alerts: seq<CollectorAlert>, managed: map<string, seq<Device>>, d: Device)
    ensures Holder(alerts, managed, d).Some? <==> exists k :: Manages(alerts, managed, k, d)
    ensures forall k :: LastManager(alerts, managed, k, d) ==> Holder(alerts, managed, d) == Some(alerts[k].id)
  {
    if alerts != [] {
      var front := alerts[..|alerts| - 1];
      HolderIsLast(front, managed, d);
      assert forall k :: Manages(front, managed, k, d) <==> k < |front| && Manages(alerts, managed, k, d);
      if Manages(alerts, managed, |front|, d) {
        assert LastManager(alerts, managed, |front|, d);
      } else {
        assert forall k :: LastManager(alerts, managed, k, d) ==> LastManager(front, managed, k, d);
      }
    }
  }

  /** `held` is exactly what Rule 0 attributes. */
  ghost predicate Holds(alerts: seq<CollectorAlert>, managed: map<string, seq<Device>>, held: map<Device, Id>) {
    forall d :: Get(held, d) == Holder(alerts, managed, d)
  }

  /** What Rules 0 to 2 leave in the two device maps. */
  ghost predicate Explains(n: Net, held: map<Device, Id>, deviceDown: map<Device, Id>, other: map<Device, Id>)
    requires Valid(n)
  {
    forall d ::
      && Get(deviceDown, d) == OrElse(Attribution(n, d), Get(held, d))
      && Get(other, d) == OrElse(Attribution(n, d), OrElse(Get(held, d), OwnAlert(n.down, d)))
  }

  function OwnAlert(down: map<Device, DownAlert>, d: Device): Option<Id> {
    if d in down then Some(down[d].id) else None
  }

  lemma NothingDown(n: Net, held: map<Device, Id>)
    requires Valid(n) && n.down == map[]
    ensures Explains(n, held, held, held)
  {
    assert forall d :: !Core(n, d);
  }

  lemma Assemble(n: Net, held: map<Device, Id>, other1: map<Device, Id>,
                 deviceDown: map<Device, Id>, other: map<Device, Id>)
    requires Valid(n) && n.held == held.Keys
    requires forall d :: Get(other1, d) == OrElse(if d in held then None else OwnAlert(n.down, d), Get(held, d))
    requires Overlays(n, held, deviceDown) && Overlays(n, other1, other)
    ensures Explains(n, held, deviceDown, other)
  {
    forall d
      ensures Get(other1, d) == OrElse(Get(held, d), OwnAlert(n.down, d))
    {
      assert Get(other1, d) == OrElse(if d in held then None else OwnAlert(n.down, d), Get(held, d));
    }
  }

  /** After Rules 0 to 2 attribution is a forest of depth one rooted in genuine failures: the
      parent of a device no collector explains is another down device's own device_down alert,
      that device failed no later and is not itself explained away. */
  lemma ParentIsRoot(n: Net, held: map<Device, Id>, deviceDown: map<Device, Id>, other: map<Device, Id>, d: Device)
      returns (e: Device)
    requires Valid(n) && n.held == held.Keys && Explains(n, held, deviceDown, other)
    requires d in deviceDown && d !in held
    ensures d in n.down && e in n.down && e != d
    ensures deviceDown[d] == n.down[e].id && n.down[e].id != n.down[d].id
    ensures n.down[e].at <= n.down[d].at
    ensures e !in deviceDown && Get(other, e) == Some(n.down[e].id)
  {
    assert Get(deviceDown, d) == OrElse(Attribution(n, d), Get(held, d));
    RootIsRoot(n, d);
    e := Root(n, d);
    assert Get(deviceDown, e) == OrElse(Attribution(n, e), Get(held, e));
    assert Get(other, e) == OrElse(Attribution(n, e), OrElse(Get(held, e), OwnAlert(n.down, e)));
  }

  /** What suppresses a breach: an attributed or held device's alerts all have the same parent; those
      of another down device have its own outage, which itself has none; and only the session alerts
      of a device that is up have a peer's. */
  lemma WhatSuppresses(n: Net, held: map<Device, Id>, l: Links, d: Device, metric: Metric, peerIp: Option<string>)
    requires Valid(n) && n.held == held.Keys && Explains(n, held, l.deviceDown, l.other)
    ensures var p := l.ParentFor(Some(d), metric, peerIp);
      && l.ParentFor(None, metric, peerIp) == None
      && (d in l.deviceDown ==> p == Some(l.deviceDown[d]))
      && (d !in l.deviceDown && d in n.down ==> p == if metric == DeviceDown then None else Some(n.down[d].id))
      && (d !in l.deviceDown && d !in n.down ==>
            p == match metric
                 case OspfState => Get(l.peerMetric, (d, OspfState))
                 case IsisState => Get(l.peerMetric, (d, IsisState))
                 case BgpSessionDown =>
                   if peerIp == None || peerIp == Some("") then None
                   else Get(l.peerSession, (d, BgpSessionDown, peerIp.value))
                 case _ => None)
  {
    MapsAgree(n, held, l.deviceDown, l.other, d);
  }

  /** The two device maps agree: what explains a device's outage explains its other alerts, a
      collector's claim is never overridden, and an unexplained down device explains itself. */
  lemma MapsAgree(n: Net, held: map<Device, Id>, deviceDown: map<Device, Id>, other: map<Device, Id>, d: Device)
    requires Valid(n) && n.held == held.Keys && Explains(n, held, deviceDown, other)
    ensures d in deviceDown ==> Get(other, d) == Get(deviceDown, d)
    ensures d in held ==> Get(deviceDown, d) == Get(held, d)
    ensures d in n.down && d !in deviceDown ==> Get(other, d) == Some(n.down[d].id)
    ensures d !in n.down && d !in held ==> d !in deviceDown && d !in other
  {
    assert Get(deviceDown, d) == OrElse(Attribution(n, d), Get(held, d));
    assert Get(other, d) == OrElse(Attribution(n, d), OrElse(Get(held, d), OwnAlert(n.down, d)));
  }

  /** Index the active device_down alerts: a device keeps its earliest one. */
  method LoadDown(rows: seq<DownRow>) returns (order: seq<Device>, down: map<Device, DownAlert>)
    requires DownRows(rows)
    ensures InFailureOrder(order, down) && DistinctAlerts(down)
    ensures Loads(rows, down) && ByFirstRow(rows, order)
  {
    order, down := [], map[];
    ghost var first: map<Device, int> := map[];
    for i := 0 to |rows|
      invariant Indexed(rows, i, order, down, first)
    {
      var r := rows[i];
      IndexOne(rows, i, order, down, first);
      if r.device !in down {
        order, down := order + [r.device], down[r.device := DownAlert(r.id, r.at)];
        first := first[r.device := i];
      }
    }
    InOrder(rows, order, down, first);
  }

  /** The state of `LoadDown` after `i` rows; `first` remembers each device's row. */
  ghost predicate Indexed(rows: seq<DownRow>, i: int, order: seq<Device>, down: map<Device, DownAlert>,
                          first: map<Device, int>)
    requires 0 <= i <= |rows|
  {
    && (forall d :: d in order <==> d in down)
    && first.Keys == down.Keys
    && (forall d :: d in down ==> first[d] < i && EarliestRow(rows, first[d], d, down[d]))
    && (forall k, l :: 0 <= k < l < |order| ==>
          order[k] in first && order[l] in first && first[order[k]] < first[order[l]])
    && (forall j :: 0 <= j < i ==> rows[j].device in down)
  }

  /** The next row is the earliest of its device, or changes nothing. */
  lemma IndexOne(rows: seq<DownRow>, i: int, order: seq<Device>, down: map<Device, DownAlert>, first: map<Device, int>)
    requires 0 <= i < |rows| && Indexed(rows, i, order, down, first)
    ensures var r := rows[i];
      if r.device in down then Indexed(rows, i + 1, order, down, first)
      else Indexed(rows, i + 1, order + [r.device], down[r.device := DownAlert(r.id, r.at)], first[r.device := i])
  {
    if rows[i].device !in down {
      assert EarliestRow(rows, i, rows[i].device, DownAlert(rows[i].id, rows[i].at));
    }
  }

  lemma InOrder(rows: seq<DownRow>, order: seq<Device>, down: map<Device, DownAlert>, first: map<Device, int>)
    requires DownRows(rows) && Indexed(rows, |rows|, order, down, first)
    ensures InFailureOrder(order, down) && DistinctAlerts(down) && Loads(rows, down) && ByFirstRow(rows, order)
  {
    forall k, l | 0 <= k < l < |order|
      ensures Precedes(rows, order[k], order[l])
    {
      assert EarliestRow(rows, first[order[k]], order[k], down[order[k]]);
      assert EarliestRow(rows, first[order[l]], order[l], down[order[l]]);
    }
    forall i, j | 0 <= i < j < |order|
      ensures order[i] != order[j] && down[order[i]].at <= down[order[j]].at
    {
      assert EarliestRow(rows, first[order[i]], order[i], down[order[i]]);
      assert EarliestRow(rows, first[order[j]], order[j], down[order[j]]);
    }
    forall a, b | a in down && b in down && a != b
      ensures down[a].id != down[b].id
    {
      assert EarliestRow(rows, first[a], a, down[a]);
      assert EarliestRow(rows, first[b], b, down[b]);
      assert first[a] != first[b];
    }
  }

  /** The undirected topology of the tenant's links. */
  method BuildAdjacency(edges: seq<(Device, Device)>) returns (adj: map<Device, set<Device>>)
    ensures Joins(edges, adj) && Symmetric(adj)
  {
    adj := map[];
    for i := 0 to |edges|
      invariant Joins(edges[..i], adj)
    {
      var (a, b) := edges[i];
      assert edges[..i + 1] == edges[..i] + [(a, b)];
      adj := adj[a := Neighbours(adj, a) + {b}];
      adj := adj[b := Neighbours(adj, b) + {a}];
    }
    assert edges[..|edges|] == edges;
  }

  /** The two maps in terms of the rows. */
  lemma ExplainedFromRows(n: Net, rows: seq<DownRow>, edges: seq<(Device, Device)>, held: map<Device, Id>,
                          deviceDown: map<Device, Id>, other: map<Device, Id>)
    requires Loaded(n, rows, edges) && n.held == held.Keys && Explains(n, held, deviceDown, other)
    ensures forall d :: d in held ==> Get(deviceDown, d) == Get(other, d) == Some(held[d])
    ensures forall d :: d !in held ==>
      (d in deviceDown <==> exists i :: ExplainedBy(rows, edges, held.Keys, i, d))
    ensures forall d, i :: d !in held && ExplainedBy(rows, edges, held.Keys, i, d) ==>
      Get(deviceDown, d) == Get(other, d) == Some(rows[i].id)
    ensures forall d :: d !in deviceDown ==> (d in other <==> exists r :: r in rows && r.device == d)
  {
    forall d
      ensures d in held ==> Get(deviceDown, d) == Get(other, d) == Some(held[d])
      ensures d !in held ==> (d in deviceDown <==> exists i :: ExplainedBy(rows, edges, held.Keys, i, d))
      ensures d !in deviceDown ==> (d in other <==> exists r :: r in rows && r.device == d)
    {
      AttributedFromRows(n, rows, edges, d);
      DownHasRow(rows, n.down, d);
      assert HasRow(rows, d) <==> exists r :: r in rows && r.device == d;
      assert Get(deviceDown, d) == OrElse(Attribution(n, d), Get(held, d));
      assert Get(other, d) == OrElse(Attribution(n, d), OrElse(Get(held, d), OwnAlert(n.down, d)));
    }
    forall d, i | d !in held && ExplainedBy(rows, edges, held.Keys, i, d)
      ensures Get(deviceDown, d) == Get(other, d) == Some(rows[i].id)
    {
      AttributedFromRows(n, rows, edges, d);
      assert Get(deviceDown, d) == OrElse(Attribution(n, d), Get(held, d));
      assert Get(other, d) == OrElse(Attribution(n, d), OrElse(Get(held, d), OwnAlert(n.down, d)));
    }
  }

  /** And what that means for a device's neighbours. */
  lemma NoneSurvives(n: Net, rows: seq<DownRow>, edges: seq<(Device, Device)>, held: map<Device, Id>,
                     deviceDown: map<Device, Id>, other: map<Device, Id>)
    requires Loaded(n, rows, edges) && n.held == held.Keys && Explains(n, held, deviceDown, other)
    ensures forall d :: d in deviceDown && d !in held ==> Isolated(rows, edges, d)
    ensures forall d, x: DownRow :: Isolated(rows, edges, d) && FailedBefore(rows, edges, held.Keys, x, d) ==>
      d in held || d in deviceDown
  {
    forall d | d !in held
      ensures d in deviceDown <==> Attributed(n, d)
      ensures d in deviceDown ==> Isolated(rows, edges, d)
    {
      assert Get(deviceDown, d) == OrElse(Attribution(n, d), Get(held, d));
      if Attributed(n, d) { AttributedIsIsolated(n, rows, edges, d); }
    }
    forall d, x: DownRow | d !in held && Isolated(rows, edges, d) && FailedBefore(rows, edges, held.Keys, x, d)
      ensures d in deviceDown
    {
      EarlierNeighbour(n, rows, edges, d, x);
    }
  }

  class SuppressionMap {
    var deviceDownParent: map<Device, Id>
    var otherAlertsParent: map<Device, Id>
    var peerMetricParent: map<(Device, Metric), Id>
    var peerSessionParent: map<(Device, Metric, string), Id>

    constructor ()
      ensures View() == Links(map[], map[], map[], map[])
    {
      deviceDownParent, otherAlertsParent := map[], map[];
      peerMetricParent, peerSessionParent := map[], map[];
    }

    function View(): Links
      reads this
    {
      Links(deviceDownParent, otherAlertsParent, peerMetricParent, peerSessionParent)
    }

    /** Rule 0: an offline collector explains every device it manages. */
    method ApplyCollectorOffline(alerts: seq<CollectorAlert>, managed: map<string, seq<Device>>)
      requires View() == Links(map[], map[], map[], map[])
      modifies this
      ensures Holds(alerts, managed, deviceDownParent)
      ensures View() == Links(deviceDownParent, deviceDownParent, map[], map[])
    {
      for i := 0 to |alerts|
        invariant forall d :: Get(deviceDownParent, d) == Holder(alerts[..i], managed, d)
        invariant View() == Links(deviceDownParent, deviceDownParent, map[], map[])
      {
        assert alerts[..i + 1][..i] == alerts[..i];
        var r := alerts[i];
        if r.collector.Some? && r.collector.value != "" && r.collector.value in managed {
          var siblings := managed[r.collector.value];
          ghost var before := deviceDownParent;
          for j := 0 to |siblings|
            invariant forall d :: Get(deviceDownParent, d) == if d in siblings[..j] then Some(r.id) else Get(before, d)
            invariant View() == Links(deviceDownParent, deviceDownParent, map[], map[])
          {
            assert siblings[..j + 1] == siblings[..j] + [siblings[j]];
            deviceDownParent := deviceDownParent[siblings[j] := r.id];
            otherAlertsParent := otherAlertsParent[siblings[j] := r.id];
          }
          assert siblings[..|siblings|] == siblings;
        }
      }
      assert alerts[..|alerts|] == alerts;
    }

    /** Rule 1: a device that is down explains every other alert of its own. */
    method ApplyOwnDevice(order: seq<Device>, down: map<Device, DownAlert>)
      requires InFailureOrder(order, down)
      modifies this`otherAlertsParent
      ensures forall d ::
        Get(otherAlertsParent, d)
        == OrElse(if d in deviceDownParent then None else OwnAlert(down, d), old(Get(otherAlertsParent, d)))
    {
      for i := 0 to |order|
        invariant forall d :: Get(otherAlertsParent, d) ==
                              OrElse(if d in deviceDownParent || d !in order[..i] then None else OwnAlert(down, d),
                                     old(Get(otherAlertsParent, d)))
      {
        assert order[i] in order;
        if order[i] !in deviceDownParent {
          otherAlertsParent := otherAlertsParent[order[i] := down[order[i]].id];
        }
      }
      assert order[..|order|] == order;
    }

    /** Rule 2: breadth-first from every down device, earliest failure first.  Neighbours are taken
        in an arbitrary order, and `guardFired` records whether the failure-time guard ever
        rejected one. */
    method ApplyCascade(order: seq<Device>, down: map<Device, DownAlert>, adj: map<Device, set<Device>>,
                        ghost n: Net)
        returns (guardFired: bool)
      requires n == Net(order, down, adj, deviceDownParent.Keys) && Valid(n)
      modifies this`deviceDownParent, this`otherAlertsParent
      ensures Overlays(n, old(deviceDownParent), deviceDownParent)
      ensures Overlays(n, old(otherAlertsParent), otherAlertsParent)
      ensures !guardFired
    {
      ghost var deviceDown0, other0 := deviceDownParent, otherAlertsParent;
      CausesAreSound(n);
      deviceDownParent, otherAlertsParent, guardFired :=
        Cascaded(order, down, adj, deviceDownParent, otherAlertsParent, Causes(n));
      AllWritten(n, deviceDown0, deviceDownParent);
      AllWritten(n, other0, otherAlertsParent);
    }

    /** Rules 0 to 2 for one tenant.  The result is a function of the loaded rows alone: it does
        not depend on the order in which neighbours are visited.  Of the devices no collector
        explains, exactly those are attributed to which another device's failure spread first,
        and the parent is that device's first row; so an attributed device has no surviving
        neighbour, and one without a surviving neighbour is attributed if a neighbour failed before
        it. */
    method Compute(collectorAlerts: seq<CollectorAlert>, managed: map<string, seq<Device>>,
                   rows: seq<DownRow>, edges: seq<(Device, Device)>)
        returns (ghost n: Net, ghost held: map<Device, Id>, down: map<Device, DownAlert>)
      requires View() == Links(map[], map[], map[], map[])
      requires DownRows(rows)
      modifies this
      ensures Valid(n) && Symmetric(n.adj) && n.down == down && n.held == held.Keys
      ensures Holds(collectorAlerts, managed, held) && Loads(rows, down) && Joins(edges, n.adj)
      ensures forall d :: d in held <==> exists k :: Manages(collectorAlerts, managed, k, d)
      ensures forall d, k :: LastManager(collectorAlerts, managed, k, d) ==> Get(held, d) == Some(collectorAlerts[k].id)
      ensures Explains(n, held, deviceDownParent, otherAlertsParent)
      ensures forall d :: d in held ==> Get(deviceDownParent, d) == Get(otherAlertsParent, d) == Some(held[d])
      ensures forall d :: d !in held ==>
        (d in deviceDownParent <==> exists i :: ExplainedBy(rows, edges, held.Keys, i, d))
      ensures forall d, i :: d !in held && ExplainedBy(rows, edges, held.Keys, i, d) ==>
        Get(deviceDownParent, d) == Get(otherAlertsParent, d) == Some(rows[i].id)
      ensures forall d :: d !in deviceDownParent ==>
        (d in otherAlertsParent <==> exists r :: r in rows && r.device == d)
      ensures forall d :: d in deviceDownParent && d !in held ==> Isolated(rows, edges, d)
      ensures forall d, x: DownRow :: Isolated(rows, edges, d) && FailedBefore(rows, edges, held.Keys, x, d) ==>
        d in held || d in deviceDownParent
      ensures peerMetricParent == map[] && peerSessionParent == map[]
    {
      n, held, down := ApplyRules(collectorAlerts, managed, rows, edges);
      forall d
        ensures d in held <==> exists k :: Manages(collectorAlerts, managed, k, d)
        ensures forall k :: LastManager(collectorAlerts, managed, k, d) ==> Get(held, d) == Some(collectorAlerts[k].id)
      {
        HolderIsLast(collectorAlerts, managed, d);
        assert Get(held, d) == Holder(collectorAlerts, managed, d);
      }
      ExplainedFromRows(n, rows, edges, held, deviceDownParent, otherAlertsParent);
      NoneSurvives(n, rows, edges, held, deviceDownParent, otherAlertsParent);
    }

    /** The rules one after another. */
    method ApplyRules(collectorAlerts: seq<CollectorAlert>, managed: map<string, seq<Device>>,
                      rows: seq<DownRow>, edges: seq<(Device, Device)>)
        returns (ghost n: Net, ghost held: map<Device, Id>, down: map<Device, DownAlert>)
      requires View() == Links(map[], map[], map[], map[])
      requires DownRows(rows)
      modifies this
      ensures Loaded(n, rows, edges) && Symmetric(n.adj) && n.down == down && n.held == held.Keys
      ensures Holds(collectorAlerts, managed, held)
      ensures Explains(n, held, deviceDownParent, otherAlertsParent)
      ensures peerMetricParent == map[] && peerSessionParent == map[]
    {
      ApplyCollectorOffline(collectorAlerts, managed);
      held := deviceDownParent;
      var order;
      order, down := LoadDown(rows);
      var adj := BuildAdjacency(edges);
      n := Net(order, down, adj, held.Keys);
      if down == map[] {
        NothingDown(n, held);
      } else {
        ApplyOwnDevice(order, down);
        ghost var other1 := otherAlertsParent;
        var guardFired := ApplyCascade(order, down, adj, n);
        Assemble(n, held, other1, deviceDownParent, otherAlertsParent);
      }
    }
  }

  /** The roots in failure order; the two maps are updated as the search goes. */
  method Cascaded(order: seq<Device>, down: map<Device, DownAlert>, adj: map<Device, set<Device>>,
                  deviceDown0: map<Device, Id>, other0: map<Device, Id>, ghost cause: map<Device, nat>)
      returns (deviceDown: map<Device, Id>, other: map<Device, Id>, guardFired: bool)
    requires InFailureOrder(order, down)
    requires Sound(Net(order, down, adj, deviceDown0.Keys), cause)
    ensures var n := Net(order, down, adj, deviceDown0.Keys);
      Written(n, cause, |order|, deviceDown0, deviceDown) && Written(n, cause, |order|, other0, other)
    ensures !guardFired
  {
    ghost var n := Net(order, down, adj, deviceDown0.Keys);
    deviceDown, other, guardFired := deviceDown0, other0, false;
    var visited := deviceDown.Keys;
    Untouched(n, cause, deviceDown0);
    Untouched(n, cause, other0);
    for i := 0 to |order|
      invariant !guardFired
      invariant Visited(n, cause, i, visited)
      invariant Written(n, cause, i, deviceDown0, deviceDown)
      invariant Written(n, cause, i, other0, other)
    {
      assert order[i] in order;
      if order[i] in visited {
        SkipVisited(n, cause, i, visited);
      } else {
        ghost var start, deviceDown1, other1 := visited, deviceDown, other;
        visited, deviceDown, other, guardFired :=
          SearchFrom(n, cause, i, visited, order, down, adj, deviceDown, other);
        FinishSearch(n, cause, i, start, visited);
        WrittenMore(n, cause, i, visited - start, deviceDown0, deviceDown1, deviceDown);
        WrittenMore(n, cause, i, visited - start, other0, other1, other);
      }
    }
  }

  /** The search from one root. */
  method SearchFrom(ghost n: Net, ghost cause: map<Device, nat>, i: nat, start: set<Device>,
                    order: seq<Device>, down: map<Device, DownAlert>, adj: map<Device, set<Device>>,
                    deviceDown0: map<Device, Id>, other0: map<Device, Id>)
      returns (visited: set<Device>, deviceDown: map<Device, Id>, other: map<Device, Id>, guardFired: bool)
    requires n.order == order && n.down == down && n.adj == adj
    requires InFailureOrder(order, down) && Sound(n, cause)
    requires i < |order| && order[i] in down && order[i] !in start && Visited(n, cause, i, start)
    ensures Search(n, cause, i, start, visited, [])
    ensures Records(down, order[i], visited - start, deviceDown0, deviceDown)
    ensures Records(down, order[i], visited - start, other0, other)
    ensures !guardFired
  {
    StartSearch(n, cause, i, start);
    RecordNone(down, order[i], start, deviceDown0);
    RecordNone(down, order[i], start, other0);
    deviceDown, other, guardFired := deviceDown0, other0, false;
    visited := start + {order[i]};
    var queue := [order[i]];
    while queue != []
      invariant !guardFired
      invariant Search(n, cause, i, start, visited, queue)
      invariant Records(down, order[i], visited - start, deviceDown0, deviceDown)
      invariant Records(down, order[i], visited - start, other0, other)
      decreases down.Keys - visited, |queue|
    {
      visited, queue, deviceDown, other, guardFired :=
        Expand(n, cause, i, start, deviceDown0, other0, order, down, adj, visited, queue, deviceDown, other);
    }
  }

  /** One dequeued device: look at each of its neighbours once. */
  method Expand(ghost n: Net, ghost cause: map<Device, nat>, i: nat, ghost start: set<Device>,
                ghost deviceDown0: map<Device, Id>, ghost other0: map<Device, Id>,
                order: seq<Device>, down: map<Device, DownAlert>, adj: map<Device, set<Device>>,
                visited1: set<Device>, queue1: seq<Device>,
                deviceDown1: map<Device, Id>, other1: map<Device, Id>)
      returns (visited: set<Device>, queue: seq<Device>,
               deviceDown: map<Device, Id>, other: map<Device, Id>, guardFired: bool)
    requires n.order == order && n.down == down && n.adj == adj
    requires InFailureOrder(order, down) && Sound(n, cause)
    requires queue1 != [] && Search(n, cause, i, start, visited1, queue1)
    requires Records(down, order[i], visited1 - start, deviceDown0, deviceDown1)
    requires Records(down, order[i], visited1 - start, other0, other1)
    ensures Search(n, cause, i, start, visited, queue)
    ensures Records(down, order[i], visited - start, deviceDown0, deviceDown)
    ensures Records(down, order[i], visited - start, other0, other)
    ensures (queue == queue1[1..] && visited == visited1) || down.Keys - visited < down.Keys - visited1
    ensures !guardFired
  {
    var root, cur := order[i], queue1[0];
    Dequeue(n, cause, i, start, visited1, queue1);
    visited, queue, deviceDown, other, guardFired := visited1, queue1[1..], deviceDown1, other1, false;
    var pending := Neighbours(adj, cur);
    while pending != {}
      invariant !guardFired
      invariant pending <= Neighbours(adj, cur)
      invariant (queue == queue1[1..] && visited == visited1) || down.Keys - visited < down.Keys - visited1
      invariant SearchAt(n, cause, i, start, visited, queue, cur, pending)
      invariant Records(down, order[i], visited - start, deviceDown0, deviceDown)
      invariant Records(down, order[i], visited - start, other0, other)
      decreases pending
    {
      var nb :| nb in pending;
      if nb in visited || nb !in down {
        PassOver(n, cause, i, start, visited, queue, cur, pending, nb);
      } else if down[nb].at < down[root].at {
        UnvisitedFailedLater(n, cause, i, start, nb);
        guardFired := true;
      } else if exists x :: x in Neighbours(adj, nb) && x !in down {
        PassOver(n, cause, i, start, visited, queue, cur, pending, nb);
      } else {
        Reach(n, cause, i, start, visited, cur, nb);
        Enqueue(n, cause, i, start, visited, queue, cur, pending, nb);
        RecordOne(down, root, visited - start, deviceDown0, deviceDown, nb);
        RecordOne(down, root, visited - start, other0, other, nb);
        visited := visited + {nb};
        deviceDown, other := deviceDown[nb := down[root].id], other[nb := down[root].id];
        queue := queue + [nb];
      }
      pending := pending - {nb};
    }
  }
}
