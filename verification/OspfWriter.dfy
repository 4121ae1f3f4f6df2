/** The OSPF neighbour writer: upsert what the poll reports, mark what it omits as down. */
module OspfWriter {
  import opened Basics

  datatype NeighbourState = Down | Attempt | Init | TwoWay | ExStart | Exchange | Loading | Full | Unknown

  /** The unique key of one device's neighbour rows. */
  datatype Key = Key(vrf: string, routerId: string, iface: string)

  datatype Row = Row(state: NeighbourState, lastStateChange: Option<Time>, ip: string, area: Option<string>)

  datatype Polled = Polled(key: Key, state: NeighbourState, ip: string, area: Option<string>)

  // ------------------------------------------------------------------ polled, else down

  function Count(polled: seq<Polled>, k: Key): nat {
    if polled == [] then 0
    else Count(polled[..|polled| - 1], k) + if polled[|polled| - 1].key == k then 1 else 0
  }

  /** The last report about a key counts. */
  function Last(polled: seq<Polled>, k: Key): (p: Option<Polled>)
    ensures p.Some? <==> Count(polled, k) > 0
    ensures p.Some? ==> p.value.key == k && p.value in polled
  {
    if polled == [] then None
    else if polled[|polled| - 1].key == k then Some(polled[|polled| - 1])
    else Last(polled[..|polled| - 1], k)
  }

  /** A row seen for the first time has no stamp yet. */
  function InsertedRow(p: Polled): Row {
    Row(p.state, None, p.ip, p.area)
  }

  /** A change since before the poll is stamped now, no change keeps the stamp there was. */
  function UpdatedRow(prev: Option<Row>, p: Polled, now: Time): Row {
    Row(p.state,
        if prev.Some? && prev.value.state == p.state then OrElse(prev.value.lastStateChange, Some(now)) else Some(now),
        p.ip, p.area)
  }

  /** The row of a reported key: a second report about a new key updates the row the first inserted. */
  function PolledRow(prev: Option<Row>, p: Polled, reports: nat, now: Time): Row {
    if prev.None? && reports == 1 then InsertedRow(p) else UpdatedRow(prev, p, now)
  }

  function OmittedRow(r: Row, now: Time): Row {
    if r.state == Down then r else r.(state := Down, lastStateChange := Some(now))
  }

  /** The table after a poll, key by key. */
  function After(rows: map<Key, Row>, polled: seq<Polled>, now: Time, k: Key): Option<Row> {
    if polled == [] then Get(rows, k)
    else match Last(polled, k)
      case Some(p) => Some(PolledRow(Get(rows, k), p, Count(polled, k), now))
      case None => if k in rows then Some(OmittedRow(rows[k], now)) else None
  }

  class NeighbourTable {
    var rows: map<Key, Row>

    constructor ()
      ensures rows == map[]
    {
      rows := map[];
    }

    /** One upsert, given the snapshot taken before the first. */
    method Upsert(prev: map<Key, Row>, p: Polled, now: Time)
      modifies this
      ensures rows == old(rows)[p.key :=
        if p.key !in old(rows) then InsertedRow(p) else UpdatedRow(Get(prev, p.key), p, now)]
    {
      if p.key !in rows {
        rows := rows[p.key := Row(p.state, None, p.ip, p.area)];
      } else {
        var stamp := Some(now);
        if p.key in prev && prev[p.key].state == p.state && prev[p.key].lastStateChange.Some? {
          stamp := prev[p.key].lastStateChange;
        }
        rows := rows[p.key := Row(p.state, stamp, p.ip, p.area)];
      }
    }

    /** The writer: an empty poll is ignored; otherwise upserts first, then the omitted rows. */
    method WriteOspf(polled: seq<Polled>, now: Time)
      modifies this
      ensures forall k :: Get(rows, k) == After(old(rows), polled, now, k)
    {
      if polled == [] { return; }
      var prev := rows;
      for i := 0 to |polled|
        invariant forall k :: Get(rows, k) == Upserted(prev, polled[..i], now, k)
      {
        assert polled[..i + 1][..i] == polled[..i];
        var p := polled[i];
        assert Get(rows, p.key) == Upserted(prev, polled[..i], now, p.key);
        ghost var rows0 := rows;
        Upsert(prev, p, now);
        forall k
          ensures Get(rows, k) == Upserted(prev, polled[..i + 1], now, k)
        {
          assert Get(rows0, k) == Upserted(prev, polled[..i], now, k);
          UpsertedStep(prev, polled[..i], p, now, k);
          assert polled[..i + 1] == polled[..i] + [p];
        }
      }
      assert polled[..|polled|] == polled;
      var todo := prev.Keys;
      while todo != {}
        invariant todo <= prev.Keys
        invariant forall k :: k in todo ==> Get(rows, k) == Upserted(prev, polled, now, k)
        invariant forall k :: k !in todo ==> Get(rows, k) == After(prev, polled, now, k)
        decreases todo
      {
        var k :| k in todo;
        todo := todo - {k};
        assert Get(rows, k) == Upserted(prev, polled, now, k);
        if Last(polled, k).None? && prev[k].state != Down {
          rows := rows[k := rows[k].(state := Down, lastStateChange := Some(now))];
        }
      }
    }
  }

  /** The table after the upserts alone. */
  function Upserted(prev: map<Key, Row>, polled: seq<Polled>, now: Time, k: Key): Option<Row> {
    match Last(polled, k)
    case Some(p) => Some(PolledRow(Get(prev, k), p, Count(polled, k), now))
    case None => Get(prev, k)
  }

  lemma ReportAppended(front: seq<Polled>, p: Polled, k: Key)
    ensures Count(front + [p], k) == Count(front, k) + if p.key == k then 1 else 0
    ensures Last(front + [p], k) == if p.key == k then Some(p) else Last(front, k)
  {
    assert (front + [p])[..|front|] == front && (front + [p])[|front|] == p;
  }

  lemma UpsertedStep(prev: map<Key, Row>, front: seq<Polled>, p: Polled, now: Time, k: Key)
    ensures Upserted(prev, front + [p], now, k) ==
      if p.key != k then Upserted(prev, front, now, k)
      else Some(PolledRow(Get(prev, k), p, Count(front, k) + 1, now))
  {
    ReportAppended(front, p, k);
  }

  // ------------------------------------------------------------------ what that means

  /** An empty poll changes nothing. */
  lemma EmptyPollIgnored(rows: map<Key, Row>, now: Time, k: Key)
    ensures After(rows, [], now, k) == Get(rows, k)
  {
  }

  /** The state of every row is what the poll last said, else down; no row disappears. */
  lemma PolledElseDown(rows: map<Key, Row>, polled: seq<Polled>, now: Time, k: Key)
    requires polled != []
    ensures After(rows, polled, now, k).Some? <==> k in rows || exists p :: p in polled && p.key == k
    ensures After(rows, polled, now, k).Some? ==>
      After(rows, polled, now, k).value.state ==
      if Last(polled, k).Some? then Last(polled, k).value.state else Down
    ensures k in rows && rows[k].state == Down && (forall p :: p in polled ==> p.key != k) ==>
      After(rows, polled, now, k) == Some(rows[k])
  {
    CountsReports(polled, k);
  }

  lemma {:induction false} CountsReports(polled: seq<Polled>, k: Key)
    ensures Count(polled, k) > 0 <==> exists p :: p in polled && p.key == k
  {
    if polled != [] {
      var front, last := polled[..|polled| - 1], polled[|polled| - 1];
      assert polled == front + [last];
      CountsReports(front, k);
      assert last in polled;
      if Count(polled, k) > 0 && last.key != k {
        var p :| p in front && p.key == k;
        assert p in polled;
      }
    }
  }

  /** A stamp moves exactly when the state does; only a missing stamp is filled in besides. */
  lemma StampMovesWithState(rows: map<Key, Row>, polled: seq<Polled>, now: Time, k: Key)
    requires k in rows && rows[k].lastStateChange.Some? && rows[k].lastStateChange.value < now
    ensures var r := After(rows, polled, now, k);
      && r.Some? && r.value.lastStateChange.Some?
      && (r.value.lastStateChange != rows[k].lastStateChange <==> r.value.state != rows[k].state)
  {
  }

  /** Report `i` is the last about `k`. */
  predicate IsLast(polled: seq<Polled>, k: Key, i: int) {
    && 0 <= i < |polled| && polled[i].key == k
    && forall j :: i < j < |polled| ==> polled[j].key != k
  }

  /** A reported row takes address, area and state from the last report, and its stamp, if it moves, is
      the poll's time; an omitted row keeps address and area. */
  lemma RowsFollowThePoll(rows: map<Key, Row>, polled: seq<Polled>, now: Time, k: Key)
    requires polled != [] && After(rows, polled, now, k).Some?
    ensures var r := After(rows, polled, now, k).value;
      && (k in rows ==> r.lastStateChange == rows[k].lastStateChange || r.lastStateChange == Some(now))
      && (k in rows && r.state != rows[k].state ==> r.lastStateChange == Some(now))
      && (forall i :: IsLast(polled, k, i) ==>
            r.state == polled[i].state && r.ip == polled[i].ip && r.area == polled[i].area)
      && ((forall i :: 0 <= i < |polled| ==> polled[i].key != k) ==>
            k in rows && r.ip == rows[k].ip && r.area == rows[k].area && r.state == Down)
  {
    LastReport(polled, k);
  }

  lemma {:induction false} LastReport(polled: seq<Polled>, k: Key)
    ensures forall i :: IsLast(polled, k, i) ==> Last(polled, k) == Some(polled[i])
    ensures (forall i :: 0 <= i < |polled| ==> polled[i].key != k) ==> Last(polled, k) == None
  {
    if polled != [] {
      var front, last := polled[..|polled| - 1], polled[|polled| - 1];
      LastReport(front, k);
      forall i | IsLast(polled, k, i)
        ensures Last(polled, k) == Some(polled[i])
      {
        if i < |front| { assert polled[|front|].key != k && IsLast(front, k, i); }
      }
    }
  }

  /** Repeating a poll changes no state and no stamp that was set; it fills in exactly the missing
      stamps of the rows it reports. */
  lemma RepeatedPoll(rows: map<Key, Row>, polled: seq<Polled>, once: map<Key, Row>, now: Time, later: Time, k: Key)
    requires polled != [] && forall k :: Get(once, k) == After(rows, polled, now, k)
    ensures var twice := After(once, polled, later, k);
      && (twice.Some? <==> k in once)
      && (k in once ==> twice.value.state == once[k].state)
      && (k in once ==>
            twice.value.lastStateChange
            == if once[k].lastStateChange.None? && Last(polled, k).Some? then Some(later) else once[k].lastStateChange)
  {
    assert Get(once, k) == After(rows, polled, now, k);
  }
}
