/** Configuration backups of one device: storing a changed configuration, linking it to its
    predecessor, and pruning to the newest few. */
module ConfigHistory {
  import opened Basics

  /** A normalised configuration; hashes are compared as the texts they stand for. */
  datatype Config = Config(text: string)

  datatype Backup = Backup(id: Id, at: Time, config: Config, latest: bool)

  datatype Diff = Diff(prev: Option<Id>, curr: Id)

  /** One device's rows of the two tables, in order of insertion. */
  datatype Shelf = Shelf(backups: seq<Backup>, diffs: seq<Diff>)

  // ------------------------------------------------------------------ storing

  /** The backup flagged latest. */
  function Latest(backups: seq<Backup>): (r: Option<nat>)
    ensures r.Some? ==> r.value < |backups| && backups[r.value].latest
    ensures r.None? ==> forall b :: b in backups ==> !b.latest
  {
    if backups == [] then None
    else if backups[|backups| - 1].latest then Some(|backups| - 1)
    else Latest(backups[..|backups| - 1])
  }

  /** A configuration is stored unless it is empty or equals the latest one. */
  predicate Stores(s: Shelf, config: Config) {
    config.text != "" && match Latest(s.backups) case Some(i) => s.backups[i].config != config case None => true
  }

  function Store(s: Shelf, id: Id, config: Config, now: Time): Shelf {
    var b := Backup(id, now, config, true);
    match Latest(s.backups)
    case Some(i) =>
      Shelf(s.backups[i := s.backups[i].(latest := false)] + [b], s.diffs + [Diff(Some(s.backups[i].id), id)])
    case None => Shelf(s.backups + [b], s.diffs)
  }

  // ------------------------------------------------------------------ pruning

  /** How many backups of the device were collected after `t`: the row number, less one. */
  function Later(backups: seq<Backup>, t: Time): nat {
    if backups == [] then 0
    else Later(backups[..|backups| - 1], t) + if backups[|backups| - 1].at > t then 1 else 0
  }

  predicate Pruned(backups: seq<Backup>, keep: int, b: Backup) {
    Later(backups, b.at) + 1 > keep
  }

  function Survivors(all: seq<Backup>, keep: int, backups: seq<Backup>): seq<Backup> {
    if backups == [] then []
    else
      var b := backups[|backups| - 1];
      Survivors(all, keep, backups[..|backups| - 1]) + if Pruned(all, keep, b) then [] else [b]
  }

  function Gone(s: Shelf, keep: int): set<Id> {
    set b | b in s.backups && Pruned(s.backups, keep, b) :: b.id
  }

  /** Foreign keys: a diff goes with its current backup and forgets a deleted predecessor. */
  function CascadeDiffs(diffs: seq<Diff>, gone: set<Id>): seq<Diff> {
    if diffs == [] then []
    else
      var d := diffs[|diffs| - 1];
      CascadeDiffs(diffs[..|diffs| - 1], gone)
      + if d.curr in gone then []
        else [Diff(if d.prev.Some? && d.prev.value in gone then None else d.prev, d.curr)]
  }

  function Prune(s: Shelf, keep: int): Shelf {
    Shelf(Survivors(s.backups, keep, s.backups), CascadeDiffs(s.diffs, Gone(s, keep)))
  }

  // ------------------------------------------------------------------ the history of one device

  /** `ever` lists every backup the device has had, without the latest flag. */
  datatype History = History(shelf: Shelf, ever: seq<Backup>, nextId: nat)

  /** A collection draws an identifier of its own, though not the next one: other devices draw too. */
  datatype Event = Collect(id: nat, config: Config, now: Time) | PruneTo(keep: int)

  const NEW_DEVICE := History(Shelf([], []), [], 0)

  /** Identifiers and times increase and at least one backup is kept. */
  predicate ValidEvent(h: History, e: Event) {
    match e
    case Collect(id, _, now) => id >= h.nextId && (h.ever == [] || h.ever[|h.ever| - 1].at < now)
    case PruneTo(keep) => keep >= 1
  }

  function Step(h: History, e: Event): History {
    match e
    case Collect(id, config, now) =>
      if Stores(h.shelf, config)
      then History(Store(h.shelf, Id(id), config, now), h.ever + [Backup(Id(id), now, config, false)], id + 1)
      else h
    case PruneTo(keep) => h.(shelf := Prune(h.shelf, keep))
  }

  /** The diffs of a run of consecutive backups of which `missing` predecessors were pruned: one per
      backup but the first ever, naming its predecessor if that is still there. */
  function Chain(backups: seq<Backup>, missing: nat): seq<Diff> {
    if backups == [] then []
    else
      var last := backups[|backups| - 1];
      if |backups| == 1 then (if missing == 0 then [] else [Diff(None, last.id)])
      else Chain(backups[..|backups| - 1], missing) + [Diff(Some(backups[|backups| - 2].id), last.id)]
  }

  predicate Increasing(backups: seq<Backup>) {
    forall i, j :: 0 <= i < j < |backups| ==> backups[i].at < backups[j].at && backups[i].id.n < backups[j].id.n
  }

  /** The latest flag on the last backup alone. */
  function Flag(s: seq<Backup>): seq<Backup> {
    if s == [] then [] else s[|s| - 1 := s[|s| - 1].(latest := true)]
  }

  /** Times and ids increase and consecutive configurations differ. */
  ghost predicate Alternating(ever: seq<Backup>, nextId: nat) {
    && Increasing(ever)
    && (forall i, j :: 0 <= i < j < |ever| && j == i + 1 ==> ever[i].config != ever[j].config)
    && (forall i :: 0 <= i < |ever| ==> ever[i].id.n < nextId)
  }

  predicate Plain(s: seq<Backup>) {
    forall i :: 0 <= i < |s| ==> !s[i].latest
  }

  /** The shelf holds the backups `present`, the last of them latest, and exactly the diffs that link
      them; `missing` earlier backups have been pruned. */
  ghost predicate Holds(s: Shelf, missing: nat, present: seq<Backup>) {
    && s.backups == Flag(present)
    && s.diffs == Chain(present, missing)
    && (present == [] ==> missing == 0)
    && Plain(present)
  }

  /** The shelf holds the newest part of the history. */
  ghost predicate Splits(h: History, dropped: seq<Backup>, present: seq<Backup>) {
    h.ever == dropped + present && Holds(h.shelf, |dropped|, present)
  }

  ghost predicate Kept(h: History) {
    && Alternating(h.ever, h.nextId)
    && exists dropped, present :: Splits(h, dropped, present)
  }

  lemma LatestIsLast(s: seq<Backup>)
    requires Plain(s)
    ensures Latest(Flag(s)) == if s == [] then None else Some(|s| - 1)
  {
  }

  /** Chains depend on ids only. */
  lemma {:induction false} ChainOfIds(a: seq<Backup>, b: seq<Backup>, missing: nat)
    requires |a| == |b| && forall i :: 0 <= i < |a| ==> a[i].id == b[i].id
    ensures Chain(a, missing) == Chain(b, missing)
  {
    if |a| > 1 { ChainOfIds(a[..|a| - 1], b[..|b| - 1], missing); }
  }

  lemma AlternatingGrows(ever: seq<Backup>, nextId: nat, b: Backup)
    requires Alternating(ever, nextId) && b.id.n >= nextId
    requires ever != [] ==> ever[|ever| - 1].at < b.at && ever[|ever| - 1].config != b.config
    ensures Alternating(ever + [b], b.id.n + 1)
  {
  }

  /** Storing moves the flag and extends the chain. */
  lemma StoreShape(s: seq<Backup>, missing: nat, id: Id, config: Config, now: Time)
    requires Plain(s)
    requires s == [] ==> missing == 0
    ensures var s' := s + [Backup(id, now, config, false)];
      Store(Shelf(Flag(s), Chain(s, missing)), id, config, now) == Shelf(Flag(s'), Chain(s', missing))
  {
    LatestIsLast(s);
    var s' := s + [Backup(id, now, config, false)];
    assert s'[..|s|] == s;
    if s != [] {
      assert Flag(s)[|s| - 1 := Flag(s)[|s| - 1].(latest := false)] == s;
    }
    assert Flag(s') == s + [Backup(id, now, config, true)];
  }

  /** What is compared against is the last configuration ever stored. */
  lemma ComparesWithLast(h: History, dropped: seq<Backup>, present: seq<Backup>, config: Config)
    requires Splits(h, dropped, present) && h.ever != [] && Stores(h.shelf, config)
    ensures h.ever[|h.ever| - 1].config != config
  {
    LatestIsLast(present);
    assert h.ever[|h.ever| - 1] == present[|present| - 1];
  }

  lemma CollectSplits(h: History, dropped: seq<Backup>, present: seq<Backup>, id: nat, config: Config, now: Time)
    requires Splits(h, dropped, present) && Stores(h.shelf, config)
    ensures var b := Backup(Id(id), now, config, false);
      Splits(Step(h, Collect(id, config, now)), dropped, present + [b])
  {
    var b := Backup(Id(id), now, config, false);
    StoreShape(present, |dropped|, b.id, config, now);
    assert h.ever + [b] == dropped + (present + [b]);
  }

  lemma CollectKeeps(h: History, id: nat, config: Config, now: Time)
    requires Kept(h) && ValidEvent(h, Collect(id, config, now))
    ensures Kept(Step(h, Collect(id, config, now)))
  {
    if Stores(h.shelf, config) {
      var dropped, present :| Splits(h, dropped, present);
      if h.ever != [] { ComparesWithLast(h, dropped, present, config); }
      AlternatingGrows(h.ever, h.nextId, Backup(Id(id), now, config, false));
      CollectSplits(h, dropped, present, id, config, now);
    }
  }

  /** With increasing times the row number counts from the end. */
  lemma {:induction false} LaterCounts(backups: seq<Backup>, i: nat, t: Time)
    requires Increasing(backups) && i <= |backups|
    requires forall j :: 0 <= j < |backups| ==> (backups[j].at > t <==> j >= i)
    ensures Later(backups, t) == |backups| - i
  {
    if backups != [] {
      var front := backups[..|backups| - 1];
      if i < |backups| {
        LaterCounts(front, i, t);
      } else {
        LaterCounts(front, |front|, t);
      }
    }
  }

  lemma {:induction false} SurvivorsAreNewest(all: seq<Backup>, keep: int, k: nat)
    requires Increasing(all) && keep >= 1 && k <= |all|
    ensures Survivors(all, keep, all[..k]) == if k <= |all| - keep then [] else all[Cut(all, keep)..k]
  {
    if k > 0 {
      assert all[..k][..k - 1] == all[..k - 1];
      SurvivorsAreNewest(all, keep, k - 1);
      LaterCounts(all, k, all[k - 1].at);
      assert Pruned(all, keep, all[k - 1]) <==> k <= |all| - keep;
    }
  }

  function Cut(all: seq<Backup>, keep: int): nat
    requires keep >= 1
  {
    if |all| <= keep then 0 else |all| - keep
  }

  lemma GoneIsPrefix(s: Shelf, keep: int)
    requires Increasing(s.backups) && keep >= 1
    ensures forall i :: 0 <= i < |s.backups| ==> (s.backups[i].id in Gone(s, keep) <==> i < Cut(s.backups, keep))
  {
    forall i | 0 <= i < |s.backups|
      ensures Pruned(s.backups, keep, s.backups[i]) <==> i < Cut(s.backups, keep)
    {
      LaterCounts(s.backups, i + 1, s.backups[i].at);
    }
    forall i | 0 <= i < |s.backups|
      ensures s.backups[i].id in Gone(s, keep) <==> i < Cut(s.backups, keep)
    {
      if s.backups[i].id in Gone(s, keep) {
        var b :| b in s.backups && Pruned(s.backups, keep, b) && b.id == s.backups[i].id;
        var j :| 0 <= j < |s.backups| && s.backups[j] == b;
        assert j == i;
      }
    }
  }

  /** Deleting a prefix of the backups leaves the chain of the rest. */
  lemma {:induction false} CascadeLeavesChain(backups: seq<Backup>, missing: nat, cut: nat, gone: set<Id>)
    requires cut < |backups|
    requires forall i :: 0 <= i < |backups| ==> (backups[i].id in gone <==> i < cut)
    ensures CascadeDiffs(Chain(backups, missing), gone) == Chain(backups[cut..], missing + cut)
  {
    var n := |backups|;
    var front := backups[..n - 1];
    if n > 1 {
      assert Chain(backups, missing)[..|Chain(backups, missing)| - 1] == Chain(front, missing);
      if cut < n - 1 {
        CascadeLeavesChain(front, missing, cut, gone);
        assert backups[cut..][..n - cut - 1] == front[cut..];
      } else {
        CascadeOfGone(front, missing, gone);
      }
    }
  }

  lemma {:induction false} CascadeOfGone(backups: seq<Backup>, missing: nat, gone: set<Id>)
    requires forall i :: 0 <= i < |backups| ==> backups[i].id in gone
    ensures CascadeDiffs(Chain(backups, missing), gone) == []
  {
    if |backups| > 1 {
      assert Chain(backups, missing)[..|Chain(backups, missing)| - 1] == Chain(backups[..|backups| - 1], missing);
      CascadeOfGone(backups[..|backups| - 1], missing, gone);
    }
  }

  /** Pruning a shelf in order leaves its newest backups and the chain that links them. */
  lemma PruneShape(s: Shelf, missing: nat, keep: int)
    requires Increasing(s.backups) && keep >= 1 && s.diffs == Chain(s.backups, missing)
    ensures IsRest(Prune(s, keep), s, missing, Cut(s.backups, keep))
  {
    NewestSurvive(s.backups, keep);
    DiffsSurvive(s, missing, keep);
  }

  lemma NewestSurvive(backups: seq<Backup>, keep: int)
    requires Increasing(backups) && keep >= 1
    ensures Survivors(backups, keep, backups) == backups[Cut(backups, keep)..]
  {
    SurvivorsAreNewest(backups, keep, |backups|);
    assert backups[..|backups|] == backups;
  }

  lemma DiffsSurvive(s: Shelf, missing: nat, keep: int)
    requires Increasing(s.backups) && keep >= 1 && s.diffs == Chain(s.backups, missing)
    ensures var cut := Cut(s.backups, keep);
      CascadeDiffs(s.diffs, Gone(s, keep)) == Chain(s.backups[cut..], missing + cut)
  {
    if s.backups != [] {
      GoneIsPrefix(s, keep);
      CascadeLeavesChain(s.backups, missing, Cut(s.backups, keep), Gone(s, keep));
    }
  }

  /** `t` is `s` without its first `cut` backups. */
  ghost predicate IsRest(t: Shelf, s: Shelf, missing: nat, cut: nat) {
    && cut <= |s.backups| && (s.backups != [] ==> cut < |s.backups|)
    && t.backups == s.backups[cut..]
    && t.diffs == Chain(s.backups[cut..], missing + cut)
  }

  lemma FlagOfRest(s: seq<Backup>, cut: nat)
    requires cut <= |s| && (s != [] ==> cut < |s|)
    ensures Flag(s)[cut..] == Flag(s[cut..])
  {
  }

  lemma IncreasingPresent(dropped: seq<Backup>, present: seq<Backup>)
    requires Increasing(dropped + present)
    ensures Increasing(Flag(present))
  {
    var ever := dropped + present;
    forall i, j | 0 <= i < j < |present|
      ensures present[i].at < present[j].at && present[i].id.n < present[j].id.n
    {
      assert present[i] == ever[|dropped| + i] && present[j] == ever[|dropped| + j];
    }
  }

  lemma RestHolds(s: Shelf, t: Shelf, missing: nat, present: seq<Backup>, cut: nat)
    requires Holds(s, missing, present) && IsRest(t, s, missing, cut)
    ensures Holds(t, missing + cut, present[cut..])
  {
    FlagOfRest(present, cut);
    ChainOfFlag(present[cut..], missing + cut);
  }

  lemma ChainOfFlag(s: seq<Backup>, missing: nat)
    ensures Chain(Flag(s), missing) == Chain(s, missing)
  {
    ChainOfIds(s, Flag(s), missing);
  }

  lemma PrunedIsRest(s: Shelf, missing: nat, present: seq<Backup>, keep: int) returns (t: Shelf)
    requires Holds(s, missing, present) && Increasing(Flag(present)) && keep >= 1
    ensures t == Prune(s, keep) && IsRest(t, s, missing, Cut(present, keep))
  {
    t := Prune(s, keep);
    ChainOfFlag(present, missing);
    PruneShape(s, missing, keep);
  }

  lemma RestSplits(h: History, t: Shelf, dropped: seq<Backup>, present: seq<Backup>, cut: nat)
    requires Splits(h, dropped, present) && IsRest(t, h.shelf, |dropped|, cut)
    ensures Splits(h.(shelf := t), dropped + present[..cut], present[cut..])
  {
    RestHolds(h.shelf, t, |dropped|, present, cut);
    assert dropped + present == (dropped + present[..cut]) + present[cut..];
  }

  lemma PruneSplits(h: History, dropped: seq<Backup>, present: seq<Backup>, keep: int) returns (t: Shelf)
    requires Splits(h, dropped, present) && Increasing(h.ever) && keep >= 1
    ensures t == Prune(h.shelf, keep) && t.backups == h.shelf.backups[Cut(present, keep)..]
    ensures Splits(h.(shelf := t), dropped + present[..Cut(present, keep)], present[Cut(present, keep)..])
  {
    IncreasingPresent(dropped, present);
    t := PrunedIsRest(h.shelf, |dropped|, present, keep);
    RestSplits(h, t, dropped, present, Cut(present, keep));
  }

  lemma KeptBy(h: History, dropped: seq<Backup>, present: seq<Backup>)
    requires Alternating(h.ever, h.nextId) && Splits(h, dropped, present)
    ensures Kept(h) && |h.shelf.backups| == |present|
  {
  }

  /** Pruning keeps exactly the newest min(keep, n) backups, the latest among them. */
  lemma PruneKeeps(h: History, keep: int) returns (h': History)
    requires Kept(h) && keep >= 1
    ensures h' == Step(h, PruneTo(keep)) && Kept(h')
    ensures h'.shelf.backups ==
      if |h.shelf.backups| <= keep then h.shelf.backups else h.shelf.backups[|h.shelf.backups| - keep..]
  {
    var dropped: seq<Backup>, present: seq<Backup> :| Splits(h, dropped, present);
    KeptBy(h, dropped, present);
    var cut := Cut(present, keep);
    var t := PruneSplits(h, dropped, present, keep);
    h' := h.(shelf := t);
    KeptBy(h', dropped + present[..cut], present[cut..]);
  }

  lemma NewDeviceIsKept()
    ensures Kept(NEW_DEVICE)
  {
    assert Splits(NEW_DEVICE, [], []);
  }

  lemma RowOfSplit(h: History, dropped: seq<Backup>, present: seq<Backup>, i: nat)
    requires Splits(h, dropped, present) && Alternating(h.ever, h.nextId) && i < |present|
    ensures |h.shelf.backups| == |present| && (h.shelf.backups[i].latest <==> i == |present| - 1)
    ensures i > 0 ==> present[i - 1].config != present[i].config && present[i - 1].at < present[i].at
  {
    assert present[i] == h.ever[|dropped| + i];
    assert i > 0 ==> present[i - 1] == h.ever[|dropped| + i - 1];
  }

  lemma LinkOfSplit(h: History, dropped: seq<Backup>, present: seq<Backup>, i: nat)
    requires Splits(h, dropped, present) && i < |present| && present[i].id != h.ever[0].id
    ensures Diff(if i > 0 then Some(present[i - 1].id) else None, present[i].id) in h.shelf.diffs
  {
    ChainLinks(present, |dropped|, i);
  }

  lemma SameRow(s: Shelf, missing: nat, present: seq<Backup>, i: nat)
    requires Holds(s, missing, present) && i < |present|
    ensures |s.backups| == |present| && s.backups[i].(latest := false) == present[i]
  {
  }

  /** Exactly one backup is latest, neighbours differ, and every backup but the first ever has a
      diff naming its predecessor if that survives. */
  lemma KeptRow(h: History, i: nat)
    requires Kept(h) && i < |h.shelf.backups|
    ensures var bs := h.shelf.backups;
      && (bs[i].latest <==> i == |bs| - 1)
      && (i > 0 ==> bs[i - 1].config != bs[i].config && bs[i - 1].at < bs[i].at)
      && h.ever != []
      && (bs[i].id != h.ever[0].id ==> Diff(if i > 0 then Some(bs[i - 1].id) else None, bs[i].id) in h.shelf.diffs)
  {
    var dropped: seq<Backup>, present: seq<Backup> :| Splits(h, dropped, present);
    SameRow(h.shelf, |dropped|, present, i);
    if i > 0 { SameRow(h.shelf, |dropped|, present, i - 1); }
    RowOfSplit(h, dropped, present, i);
    if present[i].id != h.ever[0].id { LinkOfSplit(h, dropped, present, i); }
  }

  /** The last backup ever stored is still there, and it is the one compared against. */
  lemma LastIsThere(h: History)
    requires Kept(h) && h.ever != []
    ensures var bs := h.shelf.backups; bs != [] && Latest(bs) == Some(|bs| - 1)
    ensures var bs := h.shelf.backups; bs[|bs| - 1].(latest := false) == h.ever[|h.ever| - 1]
  {
    var dropped: seq<Backup>, present: seq<Backup> :| Splits(h, dropped, present);
    LatestIsLast(present);
  }

  lemma {:induction false} ChainLinks(backups: seq<Backup>, missing: nat, i: nat)
    requires i < |backups| && (i > 0 || missing > 0)
    ensures Diff(if i > 0 then Some(backups[i - 1].id) else None, backups[i].id) in Chain(backups, missing)
  {
    if i < |backups| - 1 { ChainLinks(backups[..|backups| - 1], missing, i); }
  }
}
