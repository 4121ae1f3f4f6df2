/** The incremental baseline of BGP prefix counts (Welford's online variance), over exact reals. */
module Baselines {
  import opened Basics

  /** A stored baseline: the variance is kept as a standard deviation. */
  datatype Baseline = Baseline(mean: real, stddev: real, count: nat)

  ghost predicate IsSqrt(sqrt: real -> real) {
    forall v :: v >= 0.0 ==> sqrt(v) >= 0.0 && sqrt(v) * sqrt(v) == v
  }

  function Max(a: real, b: real): real {
    if a > b then a else b
  }

  /** The mean after one more sample. */
  function NewMean(b: Baseline, x: real): real {
    b.mean + (x - b.mean) / (b.count + 1) as real
  }

  /** The variance after one more sample, before the clamp. */
  function NewVar(b: Baseline, x: real): real {
    (b.stddev * b.stddev * b.count as real + (x - b.mean) * (x - NewMean(b, x))) / (b.count + 1) as real
  }

  function Update(b: Option<Baseline>, x: real, sqrt: real -> real): Baseline {
    if b.Some? && b.value.count > 0
    then Baseline(NewMean(b.value, x), sqrt(Max(NewVar(b.value, x), 0.0)), b.value.count + 1)
    else Baseline(x, 0.0, 1)
  }

  /** Peers are told apart by their address. */
  type Peer = string

  datatype Sample = Sample(peer: Peer, prefixes: real)

  /** A device's one stored row: the conflict key has no label, so the row keeps the first peer as its owner. */
  datatype Row = Row(owner: Peer, baseline: Baseline)

  /** The lookup, by device and label. */
  function Found(row: Option<Row>, peer: Peer): Option<Baseline> {
    if row.Some? && row.value.owner == peer then Some(row.value.baseline) else None
  }

  function Upsert(row: Option<Row>, s: Sample, sqrt: real -> real): Row {
    Row(if row.Some? then row.value.owner else s.peer, Update(Found(row, s.peer), s.prefixes, sqrt))
  }

  /** A device's row after a sequence of samples. */
  function Stored(row: Option<Row>, samples: seq<Sample>, sqrt: real -> real): Option<Row> {
    if samples == [] then row
    else Some(Upsert(Stored(row, samples[..|samples| - 1], sqrt), samples[|samples| - 1], sqrt))
  }

  // ------------------------------------------------------------------ the batch definitions

  function Sum(xs: seq<real>): real {
    if xs == [] then 0.0 else Sum(xs[..|xs| - 1]) + xs[|xs| - 1]
  }

  function SumOfSquares(xs: seq<real>): real {
    if xs == [] then 0.0 else SumOfSquares(xs[..|xs| - 1]) + xs[|xs| - 1] * xs[|xs| - 1]
  }

  /** The deviations of the samples from `m`. */
  function Centred(xs: seq<real>, m: real): (ds: seq<real>)
    ensures |ds| == |xs| && forall i :: 0 <= i < |xs| ==> ds[i] == xs[i] - m
  {
    seq(|xs|, i requires 0 <= i < |xs| => xs[i] - m)
  }

  function Mean(xs: seq<real>): real
    requires xs != []
  {
    Sum(xs) / |xs| as real
  }

  /** Population variance. */
  function Variance(xs: seq<real>): real
    requires xs != []
  {
    SumOfSquares(Centred(xs, Mean(xs))) / |xs| as real
  }

  lemma OneMore(n: real, m: real)
    ensures (n + 1.0) * m == n * m + m
  {
  }

  lemma ShiftOne(q: real, r: real, n: real, d: real, e: real, d': real, r': real)
    requires d' == d - e && r' == r + d
    ensures q - 2.0 * (e * r) + n * (e * e) + d' * d' == q + d * d - 2.0 * (e * r') + (n + 1.0) * (e * e)
  {
    OneMore(n, e * e);
    assert e * r' == e * r + e * d;
    assert d' * d' == d * d - 2.0 * (e * d) + e * e;
  }

  /** Taking `e` off every number: the parallel-axis rule. */
  lemma {:induction false} Shift(xs: seq<real>, ys: seq<real>, e: real, n: real)
    requires |ys| == |xs| && forall i :: 0 <= i < |xs| ==> ys[i] == xs[i] - e
    requires n == |xs| as real
    ensures Sum(ys) == Sum(xs) - n * e
    ensures SumOfSquares(ys) == SumOfSquares(xs) - 2.0 * (e * Sum(xs)) + n * (e * e)
  {
    if xs != [] {
      var k := |xs| - 1;
      Shift(xs[..k], ys[..k], e, k as real);
      OneMore(k as real, e);
      ShiftOne(SumOfSquares(xs[..k]), Sum(xs[..k]), k as real, xs[k], e, ys[k], Sum(xs));
    }
  }

  lemma Append(xs: seq<real>, x: real)
    ensures Sum(xs + [x]) == Sum(xs) + x
    ensures SumOfSquares(xs + [x]) == SumOfSquares(xs) + x * x
  {
    assert (xs + [x])[..|xs|] == xs;
  }

  /** One more number, `n * e + e` off numbers that sum to zero, moves their mean by `e`. */
  lemma Recentre(ds: seq<real>, ds': seq<real>, e: real, n: real, d': real)
    requires n == |ds| as real && Sum(ds) == 0.0 && d' == n * e
    requires |ds'| == |ds| && forall i :: 0 <= i < |ds| ==> ds'[i] == ds[i] - e
    ensures Sum(ds' + [d']) == 0.0
    ensures SumOfSquares(ds' + [d']) == SumOfSquares(ds) + n * (e * e) + d' * d'
  {
    Shift(ds, ds', e, n);
    Append(ds', d');
  }

  // ------------------------------------------------------------------ refinement

  /** `b` stands for the samples `xs`: count, mean and variance, multiplied out. */
  ghost predicate Represents(b: Baseline, xs: seq<real>) {
    && b.count == |xs| > 0 && b.stddev >= 0.0
    && Sum(Centred(xs, b.mean)) == 0.0
    && SumOfSquares(Centred(xs, b.mean)) == b.count as real * (b.stddev * b.stddev)
  }

  lemma DivideBack(a: real, b: real)
    requires b != 0.0
    ensures b * (a / b) == a
  {
  }

  /** The change of the mean. */
  function Change(b: Baseline, x: real): real {
    (x - b.mean) / (b.count + 1) as real
  }

  lemma ChangeIsShare(b: Baseline, x: real, n: real)
    requires n == b.count as real
    ensures x - b.mean == n * Change(b, x) + Change(b, x)
    ensures NewMean(b, x) == b.mean + Change(b, x)
  {
    assert (b.count + 1) as real == n + 1.0;
    DivideBack(x - b.mean, n + 1.0);
    OneMore(n, Change(b, x));
  }

  lemma Collect(n: real, e: real)
    ensures (n * e + e) * (n * e) == (n * e) * (n * e) + n * (e * e)
  {
    assert e * (n * e) == n * (e * e);
  }

  lemma NewVarMultiplied(b: Baseline, x: real, n: real, e: real)
    requires n == b.count as real && e == Change(b, x)
    ensures (b.count + 1) as real * NewVar(b, x)
         == n * (b.stddev * b.stddev) + n * (e * e) + (n * e) * (n * e)
  {
    ChangeIsShare(b, x, n);
    Collect(n, e);
    var total := b.stddev * b.stddev * n + (x - b.mean) * (x - NewMean(b, x));
    assert x - NewMean(b, x) == n * e;
    DivideBack(total, (b.count + 1) as real);
    assert NewVar(b, x) == total / (b.count + 1) as real;
  }

  /** The deviations of one more sample from the moved mean. */
  lemma CentredMore(xs: seq<real>, x: real, m: real, e: real, n: real, m': real)
    requires n == |xs| as real && Sum(Centred(xs, m)) == 0.0 && x - m == n * e + e && m' == m + e
    ensures Sum(Centred(xs + [x], m')) == 0.0
    ensures SumOfSquares(Centred(xs + [x], m')) == SumOfSquares(Centred(xs, m)) + n * (e * e) + (n * e) * (n * e)
  {
    assert x - m' == n * e;
    assert Centred(xs + [x], m') == Centred(xs, m') + [x - m'];
    Recentre(Centred(xs, m), Centred(xs, m'), e, n, x - m');
  }

  /** One step, before the clamp and the square root. */
  lemma StepRepresents(b: Baseline, xs: seq<real>, x: real, m': real, total: real)
    requires Represents(b, xs) && m' == NewMean(b, x) && total == (b.count + 1) as real * NewVar(b, x)
    ensures Sum(Centred(xs + [x], m')) == 0.0
    ensures SumOfSquares(Centred(xs + [x], m')) == total
  {
    ChangeIsShare(b, x, b.count as real);
    NewVarMultiplied(b, x, b.count as real, Change(b, x));
    CentredMore(xs, x, b.mean, Change(b, x), b.count as real, m');
  }

  lemma Positive(n: real, v: real, total: real)
    requires n > 0.0 && total == n * v && total >= 0.0
    ensures v >= 0.0
  {
  }

  lemma NonNegativeTerms(n: real, s: real, e: real)
    requires n >= 0.0
    ensures n * (s * s) + n * (e * e) + (n * e) * (n * e) >= 0.0
  {
    assert s * s >= 0.0;
    assert e * e >= 0.0;
  }

  lemma NewVarNonNegative(b: Baseline, x: real)
    ensures NewVar(b, x) >= 0.0
  {
    var total := (b.count + 1) as real * NewVar(b, x);
    NewVarMultiplied(b, x, b.count as real, Change(b, x));
    NonNegativeTerms(b.count as real, b.stddev, Change(b, x));
    Positive((b.count + 1) as real, NewVar(b, x), total);
  }

  /** The clamp at zero never changes the variance about to be stored, whatever row it updates. */
  lemma ClampIsIdle(b: Baseline, x: real)
    ensures Max(NewVar(b, x), 0.0) == NewVar(b, x)
  {
    NewVarNonNegative(b, x);
  }

  lemma UpdateRepresents(b: Baseline, xs: seq<real>, x: real, sqrt: real -> real)
    requires IsSqrt(sqrt) && Represents(b, xs)
    ensures Represents(Update(Some(b), x, sqrt), xs + [x])
  {
    ClampIsIdle(b, x);
    StepRepresents(b, xs, x, NewMean(b, x), (b.count + 1) as real * NewVar(b, x));
    assert sqrt(NewVar(b, x)) * sqrt(NewVar(b, x)) == NewVar(b, x);
  }

  lemma ZeroOnly()
    ensures Sum([0.0]) == 0.0 && SumOfSquares([0.0]) == 0.0
  {
    Append([], 0.0);
    assert [0.0] == [] + [0.0];
  }

  lemma SingleSample(xs: seq<real>)
    requires |xs| == 1
    ensures Represents(Baseline(xs[0], 0.0, 1), xs)
  {
    assert Centred(xs, xs[0]) == [0.0];
    ZeroOnly();
  }

  /** The deviations from `m` sum to zero exactly when `m` is the mean. */
  lemma ZeroSumIsMean(xs: seq<real>, m: real, n: real)
    requires xs != [] && n == |xs| as real
    ensures Sum(Centred(xs, m)) == 0.0 <==> m == Mean(xs)
  {
    Shift(xs, Centred(xs, m), m, n);
    DivideBack(Sum(xs), n);
    Cancel(n, m, Mean(xs));
  }

  lemma Cancel(n: real, a: real, b: real)
    requires n > 0.0
    ensures n * a == n * b <==> a == b
  {
    if n * a == n * b {
      assert n * (a - b) == 0.0;
    }
  }

  lemma DivideOut(n: real, a: real, v: real)
    requires n > 0.0
    ensures a == n * v <==> v == a / n
  {
  }

  /** `b` holds the number, the mean and the population variance of the samples. */
  ghost predicate IsBatch(b: Baseline, xs: seq<real>) {
    && b.count == |xs| > 0 && b.mean == Mean(xs)
    && b.stddev >= 0.0 && b.stddev * b.stddev == Variance(xs)
  }

  lemma RepresentsBatch(b: Baseline, xs: seq<real>)
    requires b.count == |xs| > 0
    ensures Represents(b, xs) <==> IsBatch(b, xs)
  {
    ZeroSumIsMean(xs, b.mean, b.count as real);
    if b.mean == Mean(xs) {
      DivideOut(b.count as real, SumOfSquares(Centred(xs, b.mean)), b.stddev * b.stddev);
    }
  }

  lemma UpdateIsBatch(b: Baseline, xs: seq<real>, x: real, sqrt: real -> real)
    requires IsSqrt(sqrt) && IsBatch(b, xs)
    ensures IsBatch(Update(Some(b), x, sqrt), xs + [x])
  {
    RepresentsBatch(b, xs);
    UpdateRepresents(b, xs, x, sqrt);
    RepresentsBatch(Update(Some(b), x, sqrt), xs + [x]);
  }

  lemma FirstIsBatch(xs: seq<real>)
    requires |xs| == 1
    ensures IsBatch(Baseline(xs[0], 0.0, 1), xs)
  {
    SingleSample(xs);
    RepresentsBatch(Baseline(xs[0], 0.0, 1), xs);
  }

  // ------------------------------------------------------------------ several peers on one device

  /** Where the samples that still count begin: at the last one of another peer than the first. */
  function Start(samples: seq<Sample>): (k: nat)
    ensures samples != [] ==> k < |samples|
    ensures forall i :: k < i < |samples| ==> samples[i].peer == samples[0].peer
    ensures k > 0 ==> k < |samples| && samples[k].peer != samples[0].peer
  {
    if |samples| <= 1 then 0
    else if samples[|samples| - 1].peer != samples[0].peer then |samples| - 1
    else Start(samples[..|samples| - 1])
  }

  function Values(samples: seq<Sample>): (xs: seq<real>)
    ensures |xs| == |samples| && forall i :: 0 <= i < |xs| ==> xs[i] == samples[i].prefixes
  {
    seq(|samples|, i requires 0 <= i < |samples| => samples[i].prefixes)
  }

  /** The samples that still count. */
  function Counting(samples: seq<Sample>): seq<real> {
    Values(samples[Start(samples)..])
  }

  lemma CountingMore(front: seq<Sample>, last: Sample)
    requires front != []
    ensures Counting(front + [last]) ==
      if last.peer == front[0].peer then Counting(front) + [last.prefixes] else [last.prefixes]
  {
    assert (front + [last])[..|front|] == front;
  }

  lemma StoredMore(row: Option<Row>, samples: seq<Sample>, s: Sample, sqrt: real -> real)
    ensures Stored(row, samples + [s], sqrt) == Some(Upsert(Stored(row, samples, sqrt), s, sqrt))
  {
    assert (samples + [s])[..|samples|] == samples;
  }

  lemma UpsertIsBatch(row: Row, xs: seq<real>, s: Sample, xs': seq<real>, sqrt: real -> real) returns (row': Row)
    requires IsSqrt(sqrt) && IsBatch(row.baseline, xs)
    requires xs' == if s.peer == row.owner then xs + [s.prefixes] else [s.prefixes]
    ensures row' == Upsert(Some(row), s, sqrt) && row'.owner == row.owner
    ensures IsBatch(row'.baseline, xs')
  {
    row' := Upsert(Some(row), s, sqrt);
    if s.peer == row.owner {
      UpdateIsBatch(row.baseline, xs, s.prefixes, sqrt);
    } else {
      FirstIsBatch([s.prefixes]);
    }
  }

  lemma FirstStored(s: Sample, sqrt: real -> real) returns (row: Row)
    ensures Stored(None, [s], sqrt) == Some(row) && row.owner == s.peer
    ensures IsBatch(row.baseline, Counting([s]))
  {
    row := Upsert(None, s, sqrt);
    assert Counting([s]) == [s.prefixes];
    FirstIsBatch([s.prefixes]);
    StoredMore(None, [], s, sqrt);
    assert [] + [s] == [s];
  }

  /** After any samples of any peers the row is the first peer's, with the batch mean and population
      variance of the samples since another peer was last stored. */
  lemma {:induction false} WelfordIsBatch(samples: seq<Sample>, sqrt: real -> real) returns (row: Row)
    requires IsSqrt(sqrt) && samples != []
    ensures Stored(None, samples, sqrt) == Some(row) && row.owner == samples[0].peer
    ensures IsBatch(row.baseline, Counting(samples))
  {
    var front, last := samples[..|samples| - 1], samples[|samples| - 1];
    assert samples == front + [last];
    if front == [] {
      assert samples == [last];
      row := FirstStored(last, sqrt);
    } else {
      var before := WelfordIsBatch(front, sqrt);
      CountingMore(front, last);
      row := UpsertIsBatch(before, Counting(front), last, Counting(samples), sqrt);
      StoredMore(None, front, last, sqrt);
    }
  }

  /** The count grows with every sample exactly if all of them are of one peer. */
  lemma CountGrowsExactly(samples: seq<Sample>, sqrt: real -> real) returns (row: Row)
    requires IsSqrt(sqrt) && samples != []
    ensures Stored(None, samples, sqrt) == Some(row) && row.baseline.count <= |samples|
    ensures row.baseline.count == |samples| <==> forall s :: s in samples ==> s.peer == samples[0].peer
  {
    row := WelfordIsBatch(samples, sqrt);
    assert row.baseline.count == |samples| - Start(samples);
    if Start(samples) > 0 {
      assert samples[Start(samples)] in samples;
    }
  }

  /** One of the `n` samples from `k` on is of another peer than the first. */
  predicate Interrupts(samples: seq<Sample>, k: nat, n: nat)
    requires k + n <= |samples|
  {
    exists i :: k <= i < k + n && samples[i].peer != samples[0].peer
  }

  /** With a sample of another peer among every `n` in a row, the count never exceeds `n`. */
  lemma CountIsBounded(samples: seq<Sample>, n: nat, sqrt: real -> real) returns (row: Row)
    requires IsSqrt(sqrt) && samples != []
    requires n > 0 && forall k: nat :: k + n <= |samples| ==> Interrupts(samples, k, n)
    ensures Stored(None, samples, sqrt) == Some(row) && row.baseline.count <= n
  {
    row := WelfordIsBatch(samples, sqrt);
    var k := |samples| - n;
    assert row.baseline.count == |samples| - Start(samples);
    if k > 0 {
      assert Interrupts(samples, k, n);
    }
  }

  /** Runs of the job add up. */
  lemma {:induction false} StoredBoth(row: Option<Row>, a: seq<Sample>, b: seq<Sample>, sqrt: real -> real)
    ensures Stored(row, a + b, sqrt) == Stored(Stored(row, a, sqrt), b, sqrt)
  {
    if b == [] {
      assert a + b == a;
    } else {
      StoredBoth(row, a, b[..|b| - 1], sqrt);
      assert (a + b)[..|a + b| - 1] == a + b[..|b| - 1];
    }
  }

  // ------------------------------------------------------------------ the hourly job

  datatype Session = Session(device: Device, peer: Peer, prefixes: Option<real>)

  /** The samples a job takes of a device: its sessions that carry a prefix count. */
  function SamplesOf(sessions: seq<Session>, d: Device): seq<Sample> {
    if sessions == [] then []
    else
      var s := sessions[|sessions| - 1];
      SamplesOf(sessions[..|sessions| - 1], d)
      + if s.device == d && s.prefixes.Some? then [Sample(s.peer, s.prefixes.value)] else []
  }

  /** Session `i` is one of `d` that carries a prefix count. */
  predicate Samples(sessions: seq<Session>, d: Device, i: int) {
    0 <= i < |sessions| && sessions[i].device == d && sessions[i].prefixes.Some?
  }

  /** The samples are those sessions, each once and in order; `at` says which session each comes from. */
  lemma {:induction false} SamplesMean(sessions: seq<Session>, d: Device) returns (at: seq<int>)
    ensures |at| == |SamplesOf(sessions, d)| && forall i :: Samples(sessions, d, i) ==> i in at
    ensures forall j, k :: 0 <= j < k < |at| ==> at[j] < at[k]
    ensures forall j :: 0 <= j < |at| ==>
      Samples(sessions, d, at[j])
      && SamplesOf(sessions, d)[j] == Sample(sessions[at[j]].peer, sessions[at[j]].prefixes.value)
  {
    at := [];
    if sessions != [] {
      var front, n := sessions[..|sessions| - 1], |sessions| - 1;
      at := SamplesMean(front, d);
      assert forall i :: Samples(front, d, i) <==> i < n && Samples(sessions, d, i);
      if Samples(sessions, d, n) { at := at + [n]; }
    }
  }

  lemma {:induction false} CountedMeans(sessions: seq<Session>)
    ensures Counted(sessions) == |set i | 0 <= i < |sessions| && sessions[i].prefixes.Some?|
  {
    if sessions != [] {
      var front, n := sessions[..|sessions| - 1], |sessions| - 1;
      CountedMeans(front);
      var before := set i | 0 <= i < |front| && front[i].prefixes.Some?;
      var all := set i | 0 <= i < |sessions| && sessions[i].prefixes.Some?;
      assert all == if sessions[n].prefixes.Some? then before + {n} else before;
    }
  }

  /** How many sessions carry a prefix count. */
  function Counted(sessions: seq<Session>): nat {
    if sessions == [] then 0
    else Counted(sessions[..|sessions| - 1]) + if sessions[|sessions| - 1].prefixes.Some? then 1 else 0
  }

  lemma SamplesMore(sessions: seq<Session>, s: Session, d: Device)
    ensures SamplesOf(sessions + [s], d) ==
      SamplesOf(sessions, d) + if s.device == d && s.prefixes.Some? then [Sample(s.peer, s.prefixes.value)] else []
  {
    assert (sessions + [s])[..|sessions|] == sessions;
  }

  /** What one session makes of each device's row. */
  lemma OneSession(row: Option<Row>, row': Option<Row>, sessions: seq<Session>, s: Session, d: Device,
                   was: Option<Row>, sqrt: real -> real)
    requires row == Stored(was, SamplesOf(sessions, d), sqrt)
    requires row' == if s.device == d && s.prefixes.Some? then Some(Upsert(row, Sample(s.peer, s.prefixes.value), sqrt))
                     else row
    ensures row' == Stored(was, SamplesOf(sessions + [s], d), sqrt)
  {
    SamplesMore(sessions, s, d);
    if s.device == d && s.prefixes.Some? {
      StoredMore(was, SamplesOf(sessions, d), Sample(s.peer, s.prefixes.value), sqrt);
    } else {
      assert SamplesOf(sessions + [s], d) == SamplesOf(sessions, d);
    }
  }

  /** Welford's step. */
  method Accumulate(existing: Option<Baseline>, x: real, sqrt: real -> real) returns (b: Baseline)
    ensures b == Update(existing, x, sqrt)
  {
    if existing.Some? && existing.value.count > 0 {
      var n := existing.value.count + 1;
      var oldVar := existing.value.stddev * existing.value.stddev * existing.value.count as real;
      var mean := existing.value.mean + (x - existing.value.mean) / n as real;
      var variance := (oldVar + (x - existing.value.mean) * (x - mean)) / n as real;
      assert mean == NewMean(existing.value, x) && variance == NewVar(existing.value, x);
      b := Baseline(mean, sqrt(Max(variance, 0.0)), n);
    } else {
      b := Baseline(x, 0.0, 1);
    }
  }

  class BaselineTable {
    var rows: map<Device, Row>

    constructor ()
      ensures rows == map[]
    {
      rows := map[];
    }

    /** One hourly run over the established sessions, in any order; a session without a prefix count
        is skipped. */
    method ComputeBgpPrefixCount(sessions: seq<Session>, sqrt: real -> real) returns (count: nat)
      modifies this
      ensures forall d :: Get(rows, d) == Stored(old(Get(rows, d)), SamplesOf(sessions, d), sqrt)
      ensures count == |set i | 0 <= i < |sessions| && sessions[i].prefixes.Some?|
    {
      CountedMeans(sessions);
      count := 0;
      ghost var was := rows;
      for k := 0 to |sessions|
        invariant forall d :: Get(rows, d) == Stored(Get(was, d), SamplesOf(sessions[..k], d), sqrt)
        invariant count == Counted(sessions[..k])
      {
        assert sessions[..k + 1] == sessions[..k] + [sessions[k]];
        assert sessions[..k + 1][..k] == sessions[..k];
        var s := sessions[k];
        ghost var before := rows;
        if s.prefixes.Some? {
          var row := Get(rows, s.device);
          var b := Accumulate(Found(row, s.peer), s.prefixes.value, sqrt);
          var owner := if row.Some? then row.value.owner else s.peer;
          rows := rows[s.device := Row(owner, b)];
          count := count + 1;
        }
        forall d
          ensures Get(rows, d) == Stored(Get(was, d), SamplesOf(sessions[..k + 1], d), sqrt)
        {
          OneSession(Get(before, d), Get(rows, d), sessions[..k], s, d, Get(was, d), sqrt);
        }
      }
      assert sessions[..|sessions|] == sessions;
    }
  }
}
