/** The backup tables of all devices, and what every run of collections and prunes keeps of each. */
module ConfigStores {
  import opened Basics
  import opened ConfigHistory

  /** Every device's rows; identifiers are drawn across devices. */
  datatype Tables = Tables(shelves: map<Device, Shelf>, nextId: nat)

  const EMPTY := Tables(map[], 0)

  function ShelfOf(shelves: map<Device, Shelf>, d: Device): Shelf {
    if d in shelves then shelves[d] else Shelf([], [])
  }

  datatype Action = Put(device: Device, known: bool, config: Config, now: Time) | PruneAll(keep: int)

  predicate Writes(t: Tables, a: Action)
    requires a.Put?
  {
    a.known && Stores(ShelfOf(t.shelves, a.device), a.config)
  }

  function Act(t: Tables, a: Action): Tables {
    match a
    case Put(d, _, config, now) =>
      if Writes(t, a)
      then Tables(t.shelves[d := Store(ShelfOf(t.shelves, d), Id(t.nextId), config, now)], t.nextId + 1)
      else t
    case PruneAll(keep) => t.(shelves := map d | d in t.shelves :: Prune(t.shelves[d], keep))
  }

  class ConfigStore {
    var shelves: map<Device, Shelf>
    var nextId: nat

    constructor ()
      ensures View() == EMPTY
    {
      shelves, nextId := map[], 0;
    }

    function View(): Tables
      reads this
    {
      Tables(shelves, nextId)
    }

    /** Store a normalised configuration; false if nothing was written. */
    method StoreConfigBackup(d: Device, known: bool, config: Config, now: Time) returns (stored: bool)
      modifies this
      ensures stored == Writes(old(View()), Put(d, known, config, now))
      ensures View() == Act(old(View()), Put(d, known, config, now))
    {
      if config.text == "" { return false; }
      if !known { return false; }
      var s := ShelfOf(shelves, d);
      var prev := Latest(s.backups);
      if prev.Some? && s.backups[prev.value].config == config { return false; }
      var id := Id(nextId);
      nextId := nextId + 1;
      var backups, diffs := s.backups, s.diffs;
      if prev.Some? {
        backups := backups[prev.value := backups[prev.value].(latest := false)];
      }
      backups := backups + [Backup(id, now, config, true)];
      if prev.Some? {
        diffs := diffs + [Diff(Some(s.backups[prev.value].id), id)];
      }
      shelves := shelves[d := Shelf(backups, diffs)];
      stored := true;
    }

    /** Housekeeping's prune, partitioned by device. */
    method PruneBackups(keep: int)
      modifies this
      ensures View() == Act(old(View()), PruneAll(keep))
    {
      var result := shelves;
      var todo := shelves.Keys;
      while todo != {}
        invariant todo <= shelves.Keys == result.Keys
        invariant forall d :: d in shelves ==>
          result[d] == if d in todo then shelves[d] else Prune(shelves[d], keep)
        decreases todo
      {
        var d :| d in todo;
        todo := todo - {d};
        result := result[d := Prune(result[d], keep)];
      }
      shelves := result;
    }
  }

  // ------------------------------------------------------------------ runs

  /** A device's backups are collected one after another, and at least one is kept. */
  predicate ValidAction(t: Tables, a: Action) {
    match a
    case Put(d, _, _, now) => forall b :: b in ShelfOf(t.shelves, d).backups ==> b.at < now
    case PruneAll(keep) => keep >= 1
  }

  predicate ValidRun(t: Tables, acts: seq<Action>)
    decreases |acts|
  {
    acts == [] || (ValidAction(t, acts[0]) && ValidRun(Act(t, acts[0]), acts[1..]))
  }

  function Run(t: Tables, acts: seq<Action>): Tables
    decreases |acts|
  {
    if acts == [] then t else Run(Act(t, acts[0]), acts[1..])
  }

  /** What an action is to one device. */
  function Seen(t: Tables, h: History, a: Action, d: Device): History {
    match a
    case Put(d', known, config, now) => if d' == d && known then Step(h, Collect(t.nextId, config, now)) else h
    case PruneAll(keep) => Step(h, PruneTo(keep))
  }

  /** One device's history along a run. */
  function HistoryOf(t: Tables, h: History, acts: seq<Action>, d: Device): History
    decreases |acts|
  {
    if acts == [] then h else HistoryOf(Act(t, acts[0]), Seen(t, h, acts[0], d), acts[1..], d)
  }

  /** The tables hold what is left of the device's history. */
  ghost predicate Tracks(t: Tables, h: History, d: Device) {
    ShelfOf(t.shelves, d) == h.shelf && h.nextId <= t.nextId && Kept(h)
  }

  lemma PutIsValid(t: Tables, h: History, d: Device, known: bool, config: Config, now: Time)
    requires Tracks(t, h, d) && ValidAction(t, Put(d, known, config, now))
    ensures ValidEvent(h, Collect(t.nextId, config, now))
  {
    if h.ever != [] {
      LastIsThere(h);
      assert h.shelf.backups[|h.shelf.backups| - 1] in ShelfOf(t.shelves, d).backups;
    }
  }

  lemma SeenTracks(t: Tables, h: History, a: Action, d: Device)
    requires Tracks(t, h, d) && ValidAction(t, a)
    ensures Tracks(Act(t, a), Seen(t, h, a, d), d)
  {
    match a
    case Put(d', known, config, now) =>
      if d' == d && known {
        PutIsValid(t, h, d, known, config, now);
        CollectKeeps(h, t.nextId, config, now);
      }
    case PruneAll(keep) => var _ := PruneKeeps(h, keep);
  }

  lemma {:induction false} RunTracks(t: Tables, h: History, acts: seq<Action>, d: Device)
    requires Tracks(t, h, d) && ValidRun(t, acts)
    ensures Tracks(Run(t, acts), HistoryOf(t, h, acts, d), d)
    decreases |acts|
  {
    if acts != [] {
      SeenTracks(t, h, acts[0], d);
      RunTracks(Act(t, acts[0]), Seen(t, h, acts[0], d), acts[1..], d);
    }
  }

  /** Over any run over all devices, each device's rows are the newest part of its whole history. */
  lemma HistoryIsKept(acts: seq<Action>, d: Device) returns (h: History)
    requires ValidRun(EMPTY, acts)
    ensures h == HistoryOf(EMPTY, NEW_DEVICE, acts, d)
    ensures ShelfOf(Run(EMPTY, acts).shelves, d) == h.shelf && Kept(h)
  {
    h := HistoryOf(EMPTY, NEW_DEVICE, acts, d);
    NewDeviceIsKept();
    RunTracks(EMPTY, NEW_DEVICE, acts, d);
  }

  /** What that means for a reader of the tables: exactly one backup of a device is latest, neighbours
      differ, and every backup but the first ever has a diff naming its predecessor if that survives. */
  lemma OneLatestAndLinked(acts: seq<Action>, d: Device, i: nat)
    requires ValidRun(EMPTY, acts) && i < |ShelfOf(Run(EMPTY, acts).shelves, d).backups|
    ensures var s := ShelfOf(Run(EMPTY, acts).shelves, d); var bs := s.backups;
      var ever := HistoryOf(EMPTY, NEW_DEVICE, acts, d).ever;
      && (bs[i].latest <==> i == |bs| - 1)
      && (i > 0 ==> bs[i - 1].config != bs[i].config && bs[i - 1].at < bs[i].at)
      && ever != []
      && (bs[i].id != ever[0].id ==> Diff(if i > 0 then Some(bs[i - 1].id) else None, bs[i].id) in s.diffs)
  {
    var h := HistoryIsKept(acts, d);
    KeptRow(h, i);
  }

  // ------------------------------------------------------------------ the latest backup

  /** What an action collects of a known device, if not empty. */
  function Collected(was: Option<Config>, a: Action, d: Device): Option<Config> {
    if a.Put? && a.device == d && a.known && a.config.text != "" then Some(a.config) else was
  }

  function LastCollected(was: Option<Config>, acts: seq<Action>, d: Device): Option<Config>
    decreases |acts|
  {
    if acts == [] then was else LastCollected(Collected(was, acts[0], d), acts[1..], d)
  }

  /** The newest backup holds the configuration `c`. */
  predicate Shows(s: Shelf, c: Option<Config>) {
    match c
    case None => s.backups == []
    case Some(config) => s.backups != [] && s.backups[|s.backups| - 1].config == config
  }

  lemma StoreShows(s: Shelf, c: Option<Config>, id: Id, config: Config, now: Time)
    requires Shows(s, c) && (s.backups != [] ==> Latest(s.backups) == Some(|s.backups| - 1))
    ensures Shows(if Stores(s, config) then Store(s, id, config, now) else s,
                  if config.text != "" then Some(config) else c)
  {
  }

  lemma RestShows(s: Shelf, t: Shelf, cut: nat, c: Option<Config>)
    requires Shows(s, c) && cut <= |s.backups| && t.backups == s.backups[cut..]
    requires s.backups != [] ==> cut < |s.backups|
    ensures Shows(t, c)
  {
  }

  lemma LatestOfKept(h: History)
    requires Kept(h) && h.shelf.backups != []
    ensures Latest(h.shelf.backups) == Some(|h.shelf.backups| - 1)
  {
    var dropped: seq<Backup>, present: seq<Backup> :| Splits(h, dropped, present);
    assert h.ever != [];
    LastIsThere(h);
  }

  lemma PruneShows(h: History, keep: int, c: Option<Config>) returns (h': History)
    requires Kept(h) && keep >= 1 && Shows(h.shelf, c)
    ensures h' == Step(h, PruneTo(keep)) && Shows(h'.shelf, c)
  {
    h' := PruneKeeps(h, keep);
    var bs := h.shelf.backups;
    RestShows(h.shelf, h'.shelf, if |bs| <= keep then 0 else |bs| - keep, c);
  }

  lemma SeenShows(t: Tables, h: History, c: Option<Config>, a: Action, d: Device) returns (h': History)
    requires Tracks(t, h, d) && ValidAction(t, a) && Shows(h.shelf, c)
    ensures h' == Seen(t, h, a, d) && Shows(h'.shelf, Collected(c, a, d))
  {
    match a
    case Put(d', known, config, now) =>
      h' := Seen(t, h, a, d);
      if h.shelf.backups != [] { LatestOfKept(h); }
      StoreShows(h.shelf, c, Id(t.nextId), config, now);
    case PruneAll(keep) =>
      h' := PruneShows(h, keep, c);
  }

  lemma {:induction false} RunShows(t: Tables, h: History, c: Option<Config>, acts: seq<Action>, d: Device)
    requires Tracks(t, h, d) && ValidRun(t, acts) && Shows(h.shelf, c)
    ensures Shows(HistoryOf(t, h, acts, d).shelf, LastCollected(c, acts, d))
    decreases |acts|
  {
    if acts != [] {
      SeenTracks(t, h, acts[0], d);
      var h' := SeenShows(t, h, c, acts[0], d);
      RunShows(Act(t, acts[0]), h', Collected(c, acts[0], d), acts[1..], d);
    }
  }

  /** Whatever was stored or skipped and pruned in between, a device's latest backup is the
      configuration last collected of it. */
  lemma LatestIsLastCollected(acts: seq<Action>, d: Device)
    requires ValidRun(EMPTY, acts)
    ensures Shows(ShelfOf(Run(EMPTY, acts).shelves, d), LastCollected(None, acts, d))
  {
    var h := HistoryIsKept(acts, d);
    NewDeviceIsKept();
    RunShows(EMPTY, NEW_DEVICE, None, acts, d);
  }
}
