/** Rule 2 read off its inputs: which rows of the alerts and links tables make the cascade explain a
    device, in terms of those rows alone. */
module OutageRows {
  import opened Basics
  import opened Cascade

  /** An active device_down alert. */
  datatype DownRow = DownRow(id: Id, device: Device, at: Time)

  /** Rows come from a primary-keyed table, ordered by failure time. */
  ghost predicate DownRows(rows: seq<DownRow>) {
    && (forall i, j :: 0 <= i < j < |rows| ==> rows[i].id != rows[j].id)
    && (forall i, j :: 0 <= i < j < |rows| ==> rows[i].at <= rows[j].at)
  }

  /** Every device with a row is down, known by its earliest row. */
  ghost predicate Loads(rows: seq<DownRow>, down: map<Device, DownAlert>) {
    && (forall r :: r in rows ==> r.device in down)
    && (forall d :: d in down ==> exists i :: EarliestRow(rows, i, d, down[d]))
  }

  ghost predicate EarliestRow(rows: seq<DownRow>, i: int, d: Device, a: DownAlert) {
    && 0 <= i < |rows| && rows[i] == DownRow(a.id, d, a.at)
    && forall j :: 0 <= j < i ==> rows[j].device != d
  }

  /** Some row of `a` comes before every row of `b`. */
  ghost predicate Precedes(rows: seq<DownRow>, a: Device, b: Device) {
    exists i :: 0 <= i < |rows| && rows[i].device == a && forall j :: 0 <= j <= i ==> rows[j].device != b
  }

  ghost predicate ByFirstRow(rows: seq<DownRow>, order: seq<Device>) {
    forall k, l :: 0 <= k < l < |order| ==> Precedes(rows, order[k], order[l])
  }

  /** `adj` is the undirected graph of the links. */
  ghost predicate Joins(edges: seq<(Device, Device)>, adj: map<Device, set<Device>>) {
    forall a, b :: b in Neighbours(adj, a) <==> (a, b) in edges || (b, a) in edges
  }

  // ------------------------------------------------------------------ spreading failures

  ghost predicate HasRow(rows: seq<DownRow>, d: Device) {
    exists r :: r in rows && r.device == d
  }

  predicate Linked(edges: seq<(Device, Device)>, a: Device, b: Device) {
    (a, b) in edges || (b, a) in edges
  }

  /** A failure that spread from `p[0]` along links: nobody on the way is held by Rule 0 or lacks a
      row, and behind `p[0]` nobody has a linked device without one. */
  ghost predicate Spreads(rows: seq<DownRow>, edges: seq<(Device, Device)>, held: set<Device>, p: seq<Device>) {
    && |p| > 0 && HasRow(rows, p[0]) && p[0] !in held
    && forall k :: 0 < k < |p| ==>
         && Linked(edges, p[k - 1], p[k]) && HasRow(rows, p[k]) && p[k] !in held
         && forall x :: Linked(edges, p[k], x) ==> HasRow(rows, x)
  }

  /** A failure spread to `d` from the device of row `i`. */
  ghost predicate SpreadsFrom(rows: seq<DownRow>, edges: seq<(Device, Device)>, held: set<Device>, i: int, d: Device)
  {
    0 <= i < |rows| && exists p :: Spreads(rows, edges, held, p) && p[0] == rows[i].device && p[|p| - 1] == d
  }

  /** Row `i` is the first from whose device a failure spread to `d`. */
  ghost predicate FirstSpread(rows: seq<DownRow>, edges: seq<(Device, Device)>, held: set<Device>, i: int, d: Device)
  {
    SpreadsFrom(rows, edges, held, i, d) && forall j :: 0 <= j < i ==> !SpreadsFrom(rows, edges, held, j, d)
  }

  /** Rule 2 explains `d` by row `i`: the first failure to have spread to it was another device's. */
  ghost predicate ExplainedBy(rows: seq<DownRow>, edges: seq<(Device, Device)>, held: set<Device>, i: int, d: Device)
  {
    FirstSpread(rows, edges, held, i, d) && rows[i].device != d
  }

  /** `n` was loaded from these rows. */
  ghost predicate Loaded(n: Net, rows: seq<DownRow>, edges: seq<(Device, Device)>) {
    && Valid(n) && DownRows(rows) && Loads(rows, n.down) && ByFirstRow(rows, n.order) && Joins(edges, n.adj)
  }

  lemma DownHasRow(rows: seq<DownRow>, down: map<Device, DownAlert>, d: Device)
    requires Loads(rows, down)
    ensures d in down <==> HasRow(rows, d)
  {
    if d in down {
      var i :| EarliestRow(rows, i, d, down[d]);
      assert rows[i] in rows;
    }
  }

  lemma CoreFromRows(n: Net, rows: seq<DownRow>, edges: seq<(Device, Device)>, d: Device)
    requires Loads(rows, n.down) && Joins(edges, n.adj)
    ensures Core(n, d) <==> HasRow(rows, d) && d !in n.held && forall x :: Linked(edges, d, x) ==> HasRow(rows, x)
  {
    DownHasRow(rows, n.down, d);
    forall x
      ensures x in n.down <==> HasRow(rows, x)
      ensures x in Neighbours(n.adj, d) <==> Linked(edges, d, x)
    {
      DownHasRow(rows, n.down, x);
    }
  }

  /** A spreading failure is a chain from a down device that Rule 0 does not hold. */
  lemma SpreadsIsChain(n: Net, rows: seq<DownRow>, edges: seq<(Device, Device)>, p: seq<Device>)
    requires Loads(rows, n.down) && Joins(edges, n.adj)
    ensures Spreads(rows, edges, n.held, p) <==> Chain(n, p) && p[0] in n.down && p[0] !in n.held
  {
    if |p| > 0 {
      DownHasRow(rows, n.down, p[0]);
      forall k | 0 < k < |p|
        ensures Core(n, p[k]) <==> HasRow(rows, p[k]) && p[k] !in n.held
                                   && forall x :: Linked(edges, p[k], x) ==> HasRow(rows, x)
        ensures p[k] in Neighbours(n.adj, p[k - 1]) <==> Linked(edges, p[k - 1], p[k])
      {
        CoreFromRows(n, rows, edges, p[k]);
      }
    }
  }

  /** To have spread from a row is to feed, for a core device. */
  lemma SpreadFeeds(n: Net, rows: seq<DownRow>, edges: seq<(Device, Device)>, i: int, d: Device)
    requires Loads(rows, n.down) && Joins(edges, n.adj) && 0 <= i < |rows|
    ensures SpreadsFrom(rows, edges, n.held, i, d) <==> Feeds(n, rows[i].device, d)
    ensures SpreadsFrom(rows, edges, n.held, i, d) ==> d == rows[i].device || Core(n, d)
  {
    if p :| Spreads(rows, edges, n.held, p) && p[0] == rows[i].device && p[|p| - 1] == d {
      SpreadsIsChain(n, rows, edges, p);
    }
    if Feeds(n, rows[i].device, d) {
      var p :| Chain(n, p) && p[0] == rows[i].device && p[|p| - 1] == d;
      SpreadsIsChain(n, rows, edges, p);
    }
  }

  /** No feeder has a row before the root's first. */
  lemma RootIsFirst(n: Net, rows: seq<DownRow>, d: Device, i: int, j: int)
    requires Valid(n) && ByFirstRow(rows, n.order) && Core(n, d)
    requires 0 <= i < |rows| && forall k :: 0 <= k < i ==> rows[k].device != Root(n, d)
    requires 0 <= j < |rows| && Feeds(n, rows[j].device, d)
    ensures i <= j
  {
    assert rows[j].device in n.order;
    var k :| 0 <= k < |n.order| && n.order[k] == rows[j].device;
    var m := RootIndex(n, d);
    assert m <= k;
    assert m == k || Precedes(rows, n.order[m], n.order[k]);
  }

  /** The first row from which a failure spread to a core device is its root's first. */
  lemma RootRow(n: Net, rows: seq<DownRow>, edges: seq<(Device, Device)>, d: Device) returns (i: int)
    requires Loaded(n, rows, edges) && Core(n, d)
    ensures FirstSpread(rows, edges, n.held, i, d)
    ensures rows[i].device == Root(n, d) && rows[i].id == n.down[Root(n, d)].id
  {
    var e := Root(n, d);
    i :| EarliestRow(rows, i, e, n.down[e]);
    SpreadFeeds(n, rows, edges, i, d);
    forall j | 0 <= j < i
      ensures !SpreadsFrom(rows, edges, n.held, j, d)
    {
      SpreadFeeds(n, rows, edges, j, d);
      if Feeds(n, rows[j].device, d) { RootIsFirst(n, rows, d, i, j); }
    }
  }

  /** Rule 2's attribution, from the rows. */
  lemma AttributedFromRows(n: Net, rows: seq<DownRow>, edges: seq<(Device, Device)>, d: Device)
    requires Loaded(n, rows, edges)
    ensures Attributed(n, d) <==> exists i :: ExplainedBy(rows, edges, n.held, i, d)
    ensures forall i :: ExplainedBy(rows, edges, n.held, i, d) ==> Attribution(n, d) == Some(rows[i].id)
  {
    if Core(n, d) {
      var k := RootRow(n, rows, edges, d);
      assert Attributed(n, d) <==> ExplainedBy(rows, edges, n.held, k, d);
      forall i | ExplainedBy(rows, edges, n.held, i, d)
        ensures i == k
      {
        assert i < k || k <= i;
      }
    } else {
      forall i
        ensures !ExplainedBy(rows, edges, n.held, i, d)
      {
        if 0 <= i < |rows| { SpreadFeeds(n, rows, edges, i, d); }
      }
    }
  }

  // ------------------------------------------------------------------ neighbours

  /** `d` and every device linked to it has a row. */
  ghost predicate Isolated(rows: seq<DownRow>, edges: seq<(Device, Device)>, d: Device) {
    && (exists r :: r in rows && r.device == d)
    && (forall y :: (d, y) in edges || (y, d) in edges ==> exists r :: r in rows && r.device == y)
  }

  /** `x` is the row of a device linked to `d`, not held, that failed strictly earlier. */
  ghost predicate FailedBefore(rows: seq<DownRow>, edges: seq<(Device, Device)>, held: set<Device>, x: DownRow,
                               d: Device)
  {
    && x in rows && x.device !in held && ((d, x.device) in edges || (x.device, d) in edges)
    && (forall r :: r in rows && r.device == d ==> x.at < r.at)
  }

  /** Nobody linked to an attributed device survives. */
  lemma AttributedIsIsolated(n: Net, rows: seq<DownRow>, edges: seq<(Device, Device)>, d: Device)
    requires Loaded(n, rows, edges) && Attributed(n, d)
    ensures Isolated(rows, edges, d)
  {
    CoreFromRows(n, rows, edges, d);
    assert forall y :: (d, y) in edges || (y, d) in edges ==> Linked(edges, d, y) && HasRow(rows, y);
  }

  lemma IsolatedIsCore(n: Net, rows: seq<DownRow>, edges: seq<(Device, Device)>, d: Device)
    requires Loads(rows, n.down) && Joins(edges, n.adj) && Isolated(rows, edges, d) && d !in n.held
    ensures Core(n, d)
  {
    assert HasRow(rows, d);
    assert forall y :: Linked(edges, d, y) ==> HasRow(rows, y);
    CoreFromRows(n, rows, edges, d);
  }

  lemma NeighbourSpreads(n: Net, rows: seq<DownRow>, edges: seq<(Device, Device)>, d: Device, x: DownRow)
      returns (i: int)
    requires Loads(rows, n.down) && Joins(edges, n.adj) && Core(n, d)
    requires x in rows && x.device !in n.held && ((d, x.device) in edges || (x.device, d) in edges)
    ensures 0 <= i < |rows| && rows[i] == x && SpreadsFrom(rows, edges, n.held, i, d)
  {
    i :| 0 <= i < |rows| && rows[i] == x;
    DownHasRow(rows, n.down, x.device);
    assert HasRow(rows, x.device);
    FeedsSelf(n, x.device);
    FeedsStep(n, x.device, x.device, d);
    SpreadFeeds(n, rows, edges, i, d);
  }

  /** A device without surviving neighbours, one of which failed strictly earlier, is attributed. */
  lemma EarlierNeighbour(n: Net, rows: seq<DownRow>, edges: seq<(Device, Device)>, d: Device, x: DownRow)
    requires Loaded(n, rows, edges) && d !in n.held
    requires Isolated(rows, edges, d) && FailedBefore(rows, edges, n.held, x, d)
    ensures Attributed(n, d)
  {
    IsolatedIsCore(n, rows, edges, d);
    var i := NeighbourSpreads(n, rows, edges, d, x);
    var k := RootRow(n, rows, edges, d);
    assert k <= i && rows[k] in rows;
  }
}
