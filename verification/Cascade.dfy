/** The meaning of Rule 2, the topology cascade: which down device is explained by which.

    Nothing here mentions a queue or a visited set.  `Suppression.dfy` proves that the
    breadth-first search computes exactly the attribution defined in this module. */
module Cascade {
  import opened Basics

  /** The down devices of one tenant in one cycle.
      `order` lists them by failure time, `down` gives each one its own device_down alert,
      `adj` is the topology and `held` holds the devices Rule 0 has already attributed. */
  datatype Net = Net(
    order: seq<Device>,
    down: map<Device, DownAlert>,
    adj: map<Device, set<Device>>,
    held: set<Device>)

  datatype DownAlert = DownAlert(id: Id, at: Time)

  function Neighbours(adj: map<Device, set<Device>>, d: Device): set<Device> {
    if d in adj then adj[d] else {}
  }

  ghost predicate Symmetric(adj: map<Device, set<Device>>) {
    forall a, b :: b in Neighbours(adj, a) ==> a in Neighbours(adj, b)
  }

  /** `order` enumerates the keys of `down` without repetition, by non-decreasing failure time. */
  ghost predicate InFailureOrder(order: seq<Device>, down: map<Device, DownAlert>) {
    && (forall d :: d in order <==> d in down)
    && (forall i, j :: 0 <= i < j < |order| ==> order[i] != order[j])
    && (forall i, j :: 0 <= i < j < |order| && order[i] in down && order[j] in down ==>
          down[order[i]].at <= down[order[j]].at)
  }

  ghost predicate DistinctAlerts(down: map<Device, DownAlert>) {
    forall a, b :: a in down && b in down && a != b ==> down[a].id != down[b].id
  }

  ghost predicate Valid(n: Net) {
    InFailureOrder(n.order, n.down) && DistinctAlerts(n.down)
  }

  /** A down device none of whose neighbours survives. */
  predicate Closed(n: Net, d: Device) {
    d in n.down && forall x :: x in Neighbours(n.adj, d) ==> x in n.down
  }

  /** The devices Rule 2 may attribute. */
  predicate Core(n: Net, d: Device) {
    Closed(n, d) && d !in n.held
  }

  /** A walk in the topology whose devices after the first are all core devices. */
  ghost predicate Chain(n: Net, p: seq<Device>) {
    && |p| > 0
    && forall k :: 0 < k < |p| ==> Core(n, p[k]) && p[k] in Neighbours(n.adj, p[k - 1])
  }

  /** The failure of `x` can have propagated to `d`. */
  ghost predicate Feeds(n: Net, x: Device, d: Device) {
    && x in n.down && x !in n.held
    && exists p :: Chain(n, p) && p[0] == x && p[|p| - 1] == d
  }

  lemma FeedsSelf(n: Net, d: Device)
    requires d in n.down && d !in n.held
    ensures Feeds(n, d, d)
  {
    assert Chain(n, [d]);
  }

  lemma FeedsStep(n: Net, x: Device, c: Device, d: Device)
    requires Feeds(n, x, c)
    requires d in Neighbours(n.adj, c) && Core(n, d)
    ensures Feeds(n, x, d)
  {
    var p :| Chain(n, p) && p[0] == x && p[|p| - 1] == c;
    assert Chain(n, p + [d]);
  }

  lemma FeedsTrans(n: Net, x: Device, c: Device, d: Device)
    requires Feeds(n, x, c) && Feeds(n, c, d)
    ensures Feeds(n, x, d)
  {
    var p :| Chain(n, p) && p[0] == x && p[|p| - 1] == c;
    var q :| Chain(n, q) && q[0] == c && q[|q| - 1] == d;
    var r := p + q[1..];
    forall k | 0 < k < |r|
      ensures Core(n, r[k]) && r[k] in Neighbours(n.adj, r[k - 1])
    {
      if k >= |p| {
        assert r[k] == q[k - |p| + 1] && r[k - 1] == q[k - |p|];
      }
    }
    assert Chain(n, r) && r[0] == x && r[|r| - 1] == d;
  }

  /** Index of the earliest failure that feeds the core device `d`. */
  ghost function RootIndex(n: Net, d: Device): (i: nat)
    requires Valid(n) && Core(n, d)
    ensures i < |n.order| && Feeds(n, n.order[i], d)
    ensures forall j :: 0 <= j < i ==> !Feeds(n, n.order[j], d)
  {
    FeedsSelf(n, d);
    assert d in n.order;
    FirstFeeder(n, d, 0)
  }

  ghost function FirstFeeder(n: Net, d: Device, from: nat): (i: nat)
    requires exists j :: from <= j < |n.order| && Feeds(n, n.order[j], d)
    ensures from <= i < |n.order| && Feeds(n, n.order[i], d)
    ensures forall j :: from <= j < i ==> !Feeds(n, n.order[j], d)
    decreases |n.order| - from
  {
    if Feeds(n, n.order[from], d) then from else FirstFeeder(n, d, from + 1)
  }

  ghost function Root(n: Net, d: Device): Device
    requires Valid(n) && Core(n, d)
  {
    n.order[RootIndex(n, d)]
  }

  /** Rule 2 explains `d` by the failure of some other device. */
  ghost predicate Attributed(n: Net, d: Device)
    requires Valid(n)
  {
    Core(n, d) && Root(n, d) != d
  }

  /** Rule 2's whole contribution: the alert of the root that explains `d`, if any. */
  ghost function Attribution(n: Net, d: Device): Option<Id>
    requires Valid(n)
  {
    if Attributed(n, d) then Some(n.down[Root(n, d)].id) else None
  }

  /** `m` is `base` with Rule 2's attributions written over it, and nothing else. */
  ghost predicate Overlays(n: Net, base: map<Device, Id>, m: map<Device, Id>)
    requires Valid(n)
  {
    forall d :: Get(m, d) == OrElse(Attribution(n, d), Get(base, d))
  }

  /** Feeding a core device's feeder means feeding the device, so roots only move earlier. */
  lemma RootMonotone(n: Net, c: Device, d: Device)
    requires Valid(n) && Core(n, c) && Core(n, d) && Feeds(n, c, d)
    ensures RootIndex(n, d) <= RootIndex(n, c)
  {
    FeedsTrans(n, n.order[RootIndex(n, c)], c, d);
  }

  /** No explanation rests on a device that is itself explained away, and a root failed no later. */
  lemma RootIsRoot(n: Net, d: Device)
    requires Valid(n) && Core(n, d)
    ensures Root(n, d) in n.down && Root(n, d) !in n.held
    ensures !Attributed(n, Root(n, d))
    ensures n.down[Root(n, d)].at <= n.down[d].at
  {
    var e := Root(n, d);
    assert d in n.order;
    var k :| 0 <= k < |n.order| && n.order[k] == d;
    FeedsSelf(n, d);
    assert RootIndex(n, d) <= k;
    if Core(n, e) {
      RootMonotone(n, e, d);
      FeedsSelf(n, e);
      assert RootIndex(n, e) == RootIndex(n, d);
    }
  }

  // ---------------------------------------------------------------- components

  /** `x` and `d` lie in one connected component of core devices. */
  ghost predicate SameComponent(n: Net, x: Device, d: Device) {
    exists p :: Chain(n, p) && Core(n, p[0]) && p[0] == x && p[|p| - 1] == d
  }

  /** `x` borders the component of `d`: a down device outside it, not held by Rule 0. */
  ghost predicate Borders(n: Net, x: Device, d: Device) {
    && x in n.down && x !in n.held
    && exists y :: SameComponent(n, y, d) && y in Neighbours(n.adj, x)
  }

  function Reversed(p: seq<Device>): (r: seq<Device>)
    ensures |r| == |p| && forall k :: 0 <= k < |p| ==> r[k] == p[|p| - 1 - k]
  {
    seq(|p|, k requires 0 <= k < |p| => p[|p| - 1 - k])
  }

  lemma SameComponentSymmetric(n: Net, x: Device, d: Device)
    requires Symmetric(n.adj) && SameComponent(n, x, d)
    ensures SameComponent(n, d, x)
  {
    var p :| Chain(n, p) && Core(n, p[0]) && p[0] == x && p[|p| - 1] == d;
    var r := Reversed(p);
    forall k | 0 < k < |r|
      ensures Core(n, r[k]) && r[k] in Neighbours(n.adj, r[k - 1])
    {
      var m := |p| - k;
      assert r[k] == p[m - 1] && r[k - 1] == p[m];
    }
    assert Chain(n, r);
  }

  /** The feeders of a core device are its component together with the devices bordering it. */
  lemma FeedersAreComponentAndBorder(n: Net, x: Device, d: Device)
    requires Core(n, d)
    ensures Feeds(n, x, d) <==> SameComponent(n, x, d) || Borders(n, x, d)
  {
    if Feeds(n, x, d) {
      var p :| Chain(n, p) && p[0] == x && p[|p| - 1] == d;
      if |p| > 1 {
        var q := p[1..];
        forall k | 0 < k < |q|
          ensures Core(n, q[k]) && q[k] in Neighbours(n.adj, q[k - 1])
        {
          assert q[k] == p[k + 1] && q[k - 1] == p[k];
        }
        assert Chain(n, q) && Core(n, q[0]) && q[|q| - 1] == d;
        assert SameComponent(n, p[1], d);
      } else {
        assert SameComponent(n, x, d);
      }
    }
    if Borders(n, x, d) {
      var y :| SameComponent(n, y, d) && y in Neighbours(n.adj, x);
      var p :| Chain(n, p) && Core(n, p[0]) && p[0] == y && p[|p| - 1] == d;
      var q := [x] + p;
      forall k | 0 < k < |q|
        ensures Core(n, q[k]) && q[k] in Neighbours(n.adj, q[k - 1])
      {
        if k > 1 { assert q[k] == p[k - 1] && q[k - 1] == p[k - 2]; }
      }
      assert Chain(n, q) && q[0] == x && q[|q| - 1] == d;
    }
  }

  /** One component, one root: every member has the same feeders, hence the same root. */
  lemma ComponentSharesRoot(n: Net, c: Device, d: Device)
    requires Valid(n) && Symmetric(n.adj) && Core(n, c) && Core(n, d)
    requires SameComponent(n, c, d)
    ensures Root(n, c) == Root(n, d)
  {
    SameComponentSymmetric(n, c, d);
    RootMonotone(n, c, d);
    RootMonotone(n, d, c);
  }

  lemma RootIsEarliest(n: Net, d: Device, x: Device)
    requires Valid(n) && Core(n, d)
    requires x in n.down && (SameComponent(n, x, d) || Borders(n, x, d))
    ensures n.down[Root(n, d)].at <= n.down[x].at
  {
    FeedersAreComponentAndBorder(n, x, d);
    assert x in n.order;
    var k :| 0 <= k < |n.order| && n.order[k] == x;
    assert RootIndex(n, d) <= k;
  }

  lemma MemberAttribution(n: Net, c: Device, d: Device)
    requires Valid(n) && Symmetric(n.adj) && Core(n, d)
    requires SameComponent(n, c, d) && c != Root(n, d)
    ensures Root(n, d) in n.down && Attribution(n, c) == Some(n.down[Root(n, d)].id)
  {
    RootIsRoot(n, d);
    ComponentSharesRoot(n, c, d);
  }

  lemma RootIsNear(n: Net, d: Device)
    requires Valid(n) && Core(n, d)
    ensures SameComponent(n, Root(n, d), d) || Borders(n, Root(n, d), d)
    ensures Root(n, d) in n.down && Attribution(n, Root(n, d)) == None
  {
    RootIsRoot(n, d);
    FeedersAreComponentAndBorder(n, Root(n, d), d);
  }

  /** Rule 2 in words: a component is attributed to the earliest failure `e` among its members and
      the devices bordering it, and that device alone of them, if a member, is spared. */
  lemma ComponentAttribution(n: Net, d: Device) returns (e: Device)
    requires Valid(n) && Symmetric(n.adj) && Core(n, d)
    ensures e == Root(n, d) && e in n.down && (SameComponent(n, e, d) || Borders(n, e, d))
    ensures forall x :: x in n.down && (SameComponent(n, x, d) || Borders(n, x, d)) ==> n.down[e].at <= n.down[x].at
    ensures forall c :: SameComponent(n, c, d) && c != e ==> Attribution(n, c) == Some(n.down[e].id)
    ensures Attribution(n, e) == None
  {
    e := Root(n, d);
    RootIsNear(n, d);
    forall x | x in n.down && (SameComponent(n, x, d) || Borders(n, x, d))
      ensures n.down[e].at <= n.down[x].at
    {
      RootIsEarliest(n, d, x);
    }
    forall c | SameComponent(n, c, d) && c != e
      ensures Attribution(n, c) == Some(n.down[e].id)
    {
      MemberAttribution(n, c, d);
    }
  }
}
