/** Rule 4: neighbour-side session alerts explained by the outage of the peer they name. */
module PeerCorrelation {
  import opened Basics
  import opened Cascade
  import opened Suppression

  /** An address (or lower-cased hostname) some device of the tenant answers to. */
  datatype Claim = Claim(name: Option<string>, device: Device)

  /** A neighbour row in trouble: an OSPF or BGP neighbour by address and router id, an IS-IS one
      by its two addresses and its hostname. */
  datatype NeighbourRow = NeighbourRow(device: Device, first: Option<string>, second: Option<string>,
                                       hostname: Option<string>)

  predicate Truthy(s: Option<string>) {
    s.Some? && s.value != ""
  }

  ghost predicate Claims(rows: seq<Claim>, name: string, d: Device) {
    Claim(Some(name), d) in rows
  }

  /** `name` is claimed, and by `d` alone. */
  ghost predicate Belongs(rows: seq<Claim>, name: string, d: Device) {
    Claims(rows, name, d) && forall e :: Claims(rows, name, e) ==> e == d
  }

  /** A name resolves to a device exactly if it is that device's alone. */
  ghost predicate Resolves(index: map<string, Option<Device>>, rows: seq<Claim>) {
    forall name, d :: name != "" ==> (name in index && index[name] == Some(d) <==> Belongs(rows, name, d))
  }

  /** Build the name index; a name claimed by two devices resolves to nobody from then on. */
  method BuildIndex(rows: seq<Claim>) returns (index: map<string, Option<Device>>)
    ensures Resolves(index, rows)
    ensures forall name, d :: name != "" ==>
      (name in index && index[name] == Some(d) <==>
       Claim(Some(name), d) in rows && forall e :: Claim(Some(name), e) in rows ==> e == d)
  {
    index := map[];
    for i := 0 to |rows|
      invariant forall name :: name in index ==> name != "" && exists d :: Claims(rows[..i], name, d)
      invariant forall name, d :: name != "" && Claims(rows[..i], name, d) ==>
        name in index && (index[name].Some? ==> index[name].value == d)
      invariant forall name :: name in index && index[name].None? ==>
        exists d, e :: Claims(rows[..i], name, d) && Claims(rows[..i], name, e) && d != e
    {
      assert rows[..i + 1] == rows[..i] + [rows[i]];
      assert forall name, d :: Claims(rows[..i + 1], name, d) <==>
        Claims(rows[..i], name, d) || rows[i] == Claim(Some(name), d);
      var r := rows[i];
      if Truthy(r.name) {
        var name := r.name.value;
        if name in index && index[name] != Some(r.device) {
          index := index[name := None];
        } else {
          index := index[name := Some(r.device)];
        }
      }
    }
    assert rows[..|rows|] == rows;
    assert forall name, d :: Claims(rows, name, d) <==> Claim(Some(name), d) in rows;
  }

  // ------------------------------------------------------------------ what a row means

  /** `name` is given and belongs to the down device `e` alone. */
  ghost predicate Names(claims: seq<Claim>, down: map<Device, DownAlert>, name: Option<string>, e: Device) {
    name.Some? && name.value != "" && Belongs(claims, name.value, e) && e in down
  }

  /** Rule 4's inputs. */
  datatype Inventory = Inventory(addresses: seq<Claim>, hosts: seq<Claim>, down: map<Device, DownAlert>)

  /** The row gives a name of the down device `e`. */
  ghost predicate Mentions(v: Inventory, r: NeighbourRow, e: Device) {
    || Names(v.addresses, v.down, r.first, e) || Names(v.addresses, v.down, r.second, e)
    || Names(v.hosts, v.down, r.hostname, e)
  }

  /** Of the down devices the row names, `e` is the one that counts: a first address comes before a
      second, and a hostname last. */
  ghost predicate Blames(v: Inventory, r: NeighbourRow, e: Device) {
    || Names(v.addresses, v.down, r.first, e)
    || (Names(v.addresses, v.down, r.second, e) && forall x :: !Names(v.addresses, v.down, r.first, x))
    || (Names(v.hosts, v.down, r.hostname, e)
        && forall x :: !Names(v.addresses, v.down, r.first, x) && !Names(v.addresses, v.down, r.second, x))
  }

  predicate Reports(r: NeighbourRow, d: Device, peer: Option<string>) {
    r.device == d && (peer.None? || r.first == peer)
  }

  /** Row `i` is the last report of `d` that blames anyone, and it blames `e`. */
  ghost predicate LastBlame(v: Inventory, rows: seq<NeighbourRow>, d: Device, peer: Option<string>, i: int, e: Device) {
    && 0 <= i < |rows| && Reports(rows[i], d, peer) && Blames(v, rows[i], e)
    && forall j, x :: i < j < |rows| && Reports(rows[j], d, peer) ==> !Mentions(v, rows[j], x)
  }

  // ------------------------------------------------------------------ as the loops see it

  /** The device_down alert of the device `name` resolves to, if that device is down. */
  function DownParent(index: map<string, Option<Device>>, down: map<Device, DownAlert>,
                      name: Option<string>): Option<Id>
  {
    if !Truthy(name) || name.value !in index then None
    else
      var d := index[name.value];
      if d.Some? && d.value in down then Some(down[d.value].id) else None
  }

  /** What one troubled row contributes: nothing if its own device is down. */
  function RowParent(addresses: map<string, Option<Device>>, hosts: map<string, Option<Device>>,
                     down: map<Device, DownAlert>, r: NeighbourRow): Option<Id> {
    if r.device in down then None
    else OrElse(OrElse(DownParent(addresses, down, r.first), DownParent(addresses, down, r.second)),
                DownParent(hosts, down, r.hostname))
  }

  /** The contribution of the last row of `d` (and, for BGP, of peer `peer`) that has one. */
  function Latest(addresses: map<string, Option<Device>>, hosts: map<string, Option<Device>>,
                  down: map<Device, DownAlert>, rows: seq<NeighbourRow>,
                  d: Device, peer: Option<string>): (p: Option<Id>)
    ensures p.Some? ==> exists r :: r in rows && r.device == d && (peer.None? || r.first == peer)
                                  && RowParent(addresses, hosts, down, r) == p
    ensures p.None? ==> forall r :: r in rows && r.device == d && (peer.None? || r.first == peer) ==>
                          RowParent(addresses, hosts, down, r).None?
  {
    if rows == [] then None
    else
      var r := rows[|rows| - 1];
      var p := RowParent(addresses, hosts, down, r);
      assert rows == rows[..|rows| - 1] + [r];
      if r.device == d && (peer.None? || r.first == peer) && p.Some? then p
      else Latest(addresses, hosts, down, rows[..|rows| - 1], d, peer)
  }

  /** The indexes hold what the inventory says. */
  ghost predicate Indexes(v: Inventory, addresses: map<string, Option<Device>>, hosts: map<string, Option<Device>>,
                          down: map<Device, DownAlert>)
  {
    Resolves(addresses, v.addresses) && Resolves(hosts, v.hosts) && v.down == down
  }

  lemma DownParentMeans(index: map<string, Option<Device>>, claims: seq<Claim>, down: map<Device, DownAlert>,
                        name: Option<string>)
    requires Resolves(index, claims)
    ensures DownParent(index, down, name).Some? <==> exists e :: Names(claims, down, name, e)
    ensures forall e :: Names(claims, down, name, e) ==> DownParent(index, down, name) == Some(down[e].id)
  {
    if DownParent(index, down, name).Some? {
      assert Names(claims, down, name, index[name.value].value);
    }
  }

  lemma RowParentMeans(v: Inventory, addresses: map<string, Option<Device>>, hosts: map<string, Option<Device>>,
                       down: map<Device, DownAlert>, r: NeighbourRow)
    requires Indexes(v, addresses, hosts, down)
    ensures r.device in down ==> RowParent(addresses, hosts, down, r).None?
    ensures r.device !in down ==>
      (RowParent(addresses, hosts, down, r).Some? <==> exists e :: Mentions(v, r, e))
    ensures r.device !in down ==> forall e :: Blames(v, r, e) ==>
      RowParent(addresses, hosts, down, r) == Some(down[e].id)
  {
    DownParentMeans(addresses, v.addresses, down, r.first);
    DownParentMeans(addresses, v.addresses, down, r.second);
    DownParentMeans(hosts, v.hosts, down, r.hostname);
    if RowParent(addresses, hosts, down, r).Some? {
      var e :| || Names(v.addresses, down, r.first, e) || Names(v.addresses, down, r.second, e)
               || Names(v.hosts, down, r.hostname, e);
      assert Mentions(v, r, e);
    }
  }

  /** A row that mentions a down device blames one. */
  lemma SomeoneBlamed(v: Inventory, r: NeighbourRow, e: Device) returns (x: Device)
    requires Mentions(v, r, e)
    ensures Blames(v, r, x)
  {
    if y :| Names(v.addresses, v.down, r.first, y) {
      x := y;
    } else if y :| Names(v.addresses, v.down, r.second, y) {
      x := y;
    } else {
      x := e;
    }
  }

  /** A device that is up has a parent exactly if a row of it mentions a down device, and then the one
      the last such row blames. */
  lemma {:induction false} LatestMeans(v: Inventory, addresses: map<string, Option<Device>>,
                                       hosts: map<string, Option<Device>>, down: map<Device, DownAlert>,
                                       rows: seq<NeighbourRow>, d: Device, peer: Option<string>)
    requires Indexes(v, addresses, hosts, down)
    ensures var p := Latest(addresses, hosts, down, rows, d, peer);
      && (p.Some? <==> d !in down && exists r, e :: r in rows && Reports(r, d, peer) && Mentions(v, r, e))
      && forall i, e :: d !in down && LastBlame(v, rows, d, peer, i, e) ==> p == Some(down[e].id)
  {
    var p := Latest(addresses, hosts, down, rows, d, peer);
    if rows != [] {
      var front, r := rows[..|rows| - 1], rows[|rows| - 1];
      assert rows == front + [r];
      LatestMeans(v, addresses, hosts, down, front, d, peer);
      RowParentMeans(v, addresses, hosts, down, r);
      forall i, e | d !in down && LastBlame(v, rows, d, peer, i, e)
        ensures p == Some(down[e].id)
      {
        if i < |front| {
          assert rows[|front|] == r && forall x :: Reports(r, d, peer) ==> !Mentions(v, r, x);
          assert LastBlame(v, front, d, peer, i, e);
        }
      }
    }
  }

  /** OSPF and IS-IS: one entry per device and metric.  A device that is down gets none; one that is
      up gets one exactly if a row of it names a down device, and then that blamed by the last. */
  method CorrelateMetric(sm: SuppressionMap, metric: Metric, addresses: map<string, Option<Device>>,
                         hosts: map<string, Option<Device>>, down: map<Device, DownAlert>, rows: seq<NeighbourRow>,
                         ghost v: Inventory)
    requires forall d :: (d, metric) !in sm.peerMetricParent
    requires Indexes(v, addresses, hosts, down)
    modifies sm`peerMetricParent
    ensures forall d :: Get(sm.peerMetricParent, (d, metric)) == Latest(addresses, hosts, down, rows, d, None)
    ensures forall d :: (d, metric) in sm.peerMetricParent <==>
      d !in down && exists r, e :: r in rows && Reports(r, d, None) && Mentions(v, r, e)
    ensures forall d, i, e :: d !in down && LastBlame(v, rows, d, None, i, e) ==>
      Get(sm.peerMetricParent, (d, metric)) == Some(down[e].id)
    ensures forall d, m :: m != metric ==> Get(sm.peerMetricParent, (d, m)) == old(Get(sm.peerMetricParent, (d, m)))
  {
    var entries := sm.peerMetricParent;
    for i := 0 to |rows|
      invariant forall d :: Get(entries, (d, metric)) == Latest(addresses, hosts, down, rows[..i], d, None)
      invariant forall d, m :: m != metric ==> Get(entries, (d, m)) == old(Get(sm.peerMetricParent, (d, m)))
    {
      assert rows[..i + 1][..i] == rows[..i];
      var parent := RowParent(addresses, hosts, down, rows[i]);
      if parent.Some? {
        entries := entries[(rows[i].device, metric) := parent.value];
      }
    }
    assert rows[..|rows|] == rows;
    sm.peerMetricParent := entries;
    forall d
      ensures (d, metric) in entries <==>
        d !in down && exists r, e :: r in rows && Reports(r, d, None) && Mentions(v, r, e)
      ensures forall i, e :: d !in down && LastBlame(v, rows, d, None, i, e) ==>
        Get(entries, (d, metric)) == Some(down[e].id)
    {
      LatestMeans(v, addresses, hosts, down, rows, d, None);
      assert Get(entries, (d, metric)) == Latest(addresses, hosts, down, rows, d, None);
    }
  }

  /** BGP: one entry per device and peer address. */
  method CorrelateSessions(sm: SuppressionMap, addresses: map<string, Option<Device>>,
                           down: map<Device, DownAlert>, rows: seq<NeighbourRow>, ghost v: Inventory)
    requires sm.peerSessionParent == map[]
    requires Indexes(v, addresses, map[], down)
    requires forall r :: r in rows ==> r.first.Some? && r.hostname.None?
    modifies sm`peerSessionParent
    ensures forall d, peer :: Get(sm.peerSessionParent, (d, BgpSessionDown, peer)) ==
                              Latest(addresses, map[], down, rows, d, Some(peer))
    ensures forall d, peer :: (d, BgpSessionDown, peer) in sm.peerSessionParent <==>
      d !in down && exists r, e :: r in rows && Reports(r, d, Some(peer)) && Mentions(v, r, e)
    ensures forall d, peer, i, e :: d !in down && LastBlame(v, rows, d, Some(peer), i, e) ==>
      Get(sm.peerSessionParent, (d, BgpSessionDown, peer)) == Some(down[e].id)
  {
    var entries := SessionEntries(addresses, down, rows);
    forall d, peer
      ensures (d, BgpSessionDown, peer) in entries <==>
        d !in down && exists r, e :: r in rows && Reports(r, d, Some(peer)) && Mentions(v, r, e)
      ensures forall i, e :: d !in down && LastBlame(v, rows, d, Some(peer), i, e) ==>
        Get(entries, (d, BgpSessionDown, peer)) == Some(down[e].id)
    {
      LatestMeans(v, addresses, map[], down, rows, d, Some(peer));
      assert Get(entries, (d, BgpSessionDown, peer)) == Latest(addresses, map[], down, rows, d, Some(peer));
    }
    sm.peerSessionParent := entries;
  }

  method SessionEntries(addresses: map<string, Option<Device>>, down: map<Device, DownAlert>, rows: seq<NeighbourRow>)
      returns (entries: map<(Device, Metric, string), Id>)
    requires forall r :: r in rows ==> r.first.Some? && r.hostname.None?
    ensures forall d, peer :: Get(entries, (d, BgpSessionDown, peer)) ==
                              Latest(addresses, map[], down, rows, d, Some(peer))
  {
    entries := map[];
    for i := 0 to |rows|
      invariant forall d, peer :: Get(entries, (d, BgpSessionDown, peer)) ==
                                  Latest(addresses, map[], down, rows[..i], d, Some(peer))
    {
      assert rows[..i + 1][..i] == rows[..i];
      var parent := RowParent(addresses, map[], down, rows[i]);
      if parent.Some? {
        entries := entries[(rows[i].device, BgpSessionDown, rows[i].first.value) := parent.value];
      }
    }
    assert rows[..|rows|] == rows;
  }

  /** Every Rule 4 parent is the device_down alert of a device that is down, differs from the
      reporting device (which is up) and alone answers to a name the reporting row gives. */
  lemma PeerParentIsDown(addressClaims: seq<Claim>, addresses: map<string, Option<Device>>,
                         hostClaims: seq<Claim>, hosts: map<string, Option<Device>>,
                         down: map<Device, DownAlert>, rows: seq<NeighbourRow>, d: Device, peer: Option<string>)
      returns (r: NeighbourRow, e: Device)
    requires Resolves(addresses, addressClaims) && Resolves(hosts, hostClaims)
    requires Latest(addresses, hosts, down, rows, d, peer).Some?
    ensures r in rows && r.device == d && d !in down
    ensures e in down && e != d && Latest(addresses, hosts, down, rows, d, peer) == Some(down[e].id)
    ensures || (Truthy(r.first) && Belongs(addressClaims, r.first.value, e))
            || (Truthy(r.second) && Belongs(addressClaims, r.second.value, e))
            || (Truthy(r.hostname) && Belongs(hostClaims, r.hostname.value, e))
  {
    var p := Latest(addresses, hosts, down, rows, d, peer);
    r :| r in rows && r.device == d && (peer.None? || r.first == peer) && RowParent(addresses, hosts, down, r) == p;
    if DownParent(addresses, down, r.first).Some? {
      e := addresses[r.first.value].value;
    } else if DownParent(addresses, down, r.second).Some? {
      e := addresses[r.second.value].value;
    } else {
      e := hosts[r.hostname.value].value;
    }
  }
}
