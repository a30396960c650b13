/** Stock failure-free optional value, and the lesser and the greater of two numbers. */
module Wrappers {
  datatype Option<+T> = None | Some(value: T)

  function Least(a: int, b: int): int { if a <= b then a else b }
  function Most(a: int, b: int): int { if a >= b then a else b }
}

/** The metric catalogue and the downsampling tiers of `lss-core/src/series.rs`: how one sample
    becomes points, how points fold into a bucket, and how a bucket becomes a stored row. */
module Series {
  import opened Wrappers

  type Metric = string

  const RES_1M := 60
  const RES_10M := 600

  /** The two rollup resolutions. */
  predicate Tier(res: int) {
    res == RES_1M || res == RES_10M
  }

  /** A bucket of `res` seconds starts at `ts`. */
  predicate Aligned(ts: int, res: int) {
    if res == RES_1M then ts % 60 == 0 else ts % 600 == 0
  }

  /** Two different bucket starts are a whole bucket apart. */
  lemma AlignedGap(a: int, b: int, res: int)
    requires Tier(res) && Aligned(a, res) && Aligned(b, res) && a < b
    ensures a + res <= b
  {
    if res == RES_1M {
      assert a == 60 * (a / 60) && b == 60 * (b / 60);
    } else {
      assert a == 600 * (a / 600) && b == 600 * (b / 600);
    }
  }

  predicate Starts(b: int, ts: int, res: int) {
    b <= ts < b + res && Aligned(b, res)
  }

  /** `ts - ts.rem_euclid(res)` starts a bucket that holds `ts`, and nothing else does. */
  lemma OneStart(ts: int, res: int)
    requires Tier(res)
    ensures Starts(ts - ts % res, ts, res)
    ensures forall b, c :: Starts(b, ts, res) && Starts(c, ts, res) ==> b == c
  {
    if res == RES_1M {
      StartOfMinute(ts);
    } else {
      StartOfWindow(ts);
    }
    forall b, c | Starts(b, ts, res) && Starts(c, ts, res) ensures b == c {
      StartsOnce(b, c, ts, res);
    }
  }

  lemma StartOfMinute(ts: int)
    ensures ts - ts % 60 <= ts < ts - ts % 60 + 60 && (ts - ts % 60) % 60 == 0
  {
    assert ts - ts % 60 == 60 * (ts / 60);
  }

  lemma StartOfWindow(ts: int)
    ensures ts - ts % 600 <= ts < ts - ts % 600 + 600 && (ts - ts % 600) % 600 == 0
  {
    assert ts - ts % 600 == 600 * (ts / 600);
  }

  lemma StartsOnce(b: int, c: int, ts: int, res: int)
    requires Tier(res) && Starts(b, ts, res) && Starts(c, ts, res)
    ensures b == c
  {
    if b < c {
      AlignedGap(b, c, res);
    } else if c < b {
      AlignedGap(c, b, res);
    }
  }

  /** Start of the bucket of `res` seconds that holds `ts`. */
  function Bucket(ts: int, res: int): (b: int)
    requires Tier(res)
    ensures b <= ts < b + res && Aligned(b, res)
  {
    OneStart(ts, res);
    var b :| Starts(b, ts, res);
    b
  }

  lemma BucketIsRemEuclid(ts: int, res: int)
    requires Tier(res)
    ensures Bucket(ts, res) == ts - ts % res
  {
    OneStart(ts, res);
    assert Starts(Bucket(ts, res), ts, res);
  }

  /** An aligned instant at or before `ts` is at or before its bucket's start. */
  lemma BucketAbove(b: int, ts: int, res: int)
    requires Tier(res) && Aligned(b, res) && b <= ts
    ensures b <= Bucket(ts, res)
  {
    if Bucket(ts, res) < b {
      AlignedGap(Bucket(ts, res), b, res);
    }
  }

  lemma BucketMonotone(a: int, b: int, res: int)
    requires Tier(res) && a <= b
    ensures Bucket(a, res) <= Bucket(b, res)
    ensures Bucket(a, res) < Bucket(b, res) ==> Bucket(a, res) + res <= Bucket(b, res)
  {
    BucketAbove(Bucket(a, res), b, res);
    if Bucket(a, res) < Bucket(b, res) {
      AlignedGap(Bucket(a, res), Bucket(b, res), res);
    }
  }

  /** A ten-minute start is a minute's start too. */
  lemma WindowIsMinute(w: int)
    requires Aligned(w, RES_10M)
    ensures Aligned(w, RES_1M) && Aligned(w + RES_10M, RES_10M)
  {
    assert w == 600 * (w / 600);
  }

  /** A ten-minute start is a start in either tier. */
  lemma WindowAligned(w: int, res: int)
    requires Tier(res) && Aligned(w, RES_10M)
    ensures Aligned(w, res)
  {
    WindowIsMinute(w);
  }

  /** A minute lies inside exactly one ten-minute bucket. */
  lemma MinuteInWindow(ts: int)
    ensures Bucket(Bucket(ts, RES_1M), RES_10M) == Bucket(ts, RES_10M)
    ensures Bucket(ts, RES_10M) <= Bucket(ts, RES_1M)
  {
    var w := Bucket(ts, RES_10M);
    WindowIsMinute(w);
    BucketAbove(w, ts, RES_1M);
    StartsOnce(w, Bucket(Bucket(ts, RES_1M), RES_10M), Bucket(ts, RES_1M), RES_10M);
  }

  // ------------------------------------------------------------------ aggregates

  datatype Agg = Agg(sum: real, min: real, max: real, n: real)

  function Lower(a: real, b: real): real { if a <= b then a else b }
  function Upper(a: real, b: real): real { if a >= b then a else b }

  function One(v: real): Agg { Agg(v, v, v, 1.0) }

  function Merge(a: Agg, b: Agg): Agg {
    Agg(a.sum + b.sum, Lower(a.min, b.min), Upper(a.max, b.max), a.n + b.n)
  }

  function Sum(vs: seq<real>): real {
    if vs == [] then 0.0 else Sum(vs[..|vs|-1]) + vs[|vs|-1]
  }

  /** What an aggregate of a non-empty list of values must be, with no reference to merging. */
  ghost predicate Summarises(a: Agg, vs: seq<real>) {
    && vs != []
    && a.sum == Sum(vs)
    && a.n == |vs| as real
    && a.min in vs && (forall v :: v in vs ==> a.min <= v)
    && a.max in vs && (forall v :: v in vs ==> v <= a.max)
  }

  /** The plain fold over the raw values, in arrival order. */
  function Fold(vs: seq<real>): Agg
    requires vs != []
  {
    if |vs| == 1 then One(vs[0]) else Merge(Fold(vs[..|vs|-1]), One(vs[|vs|-1]))
  }

  lemma {:induction false} FoldSummarises(vs: seq<real>)
    requires vs != []
    ensures Summarises(Fold(vs), vs)
  {
    var init := vs[..|vs|-1];
    assert vs == init + [vs[|vs|-1]];
    if |vs| == 1 {
      assert init == [];
    } else {
      FoldSummarises(init);
    }
  }

  lemma {:induction false} SumConcat(a: seq<real>, b: seq<real>)
    ensures Sum(a + b) == Sum(a) + Sum(b)
  {
    if b == [] {
      assert a + b == a;
    } else {
      var init := b[..|b|-1];
      assert (a + b)[..|a + b|-1] == a + init;
      SumConcat(a, init);
    }
  }

  /** Folding a concatenation is merging the folds: why a ten-minute row can be checked against
      its minutes. */
  lemma {:induction false} FoldConcat(a: seq<real>, b: seq<real>)
    requires a != [] && b != []
    ensures Fold(a + b) == Merge(Fold(a), Fold(b))
  {
    var init := b[..|b|-1];
    assert (a + b)[..|a + b|-1] == a + init;
    if init == [] {
      assert a + init == a;
    } else {
      FoldConcat(a, init);
    }
  }

  /** An aggregate says how many values it holds and what they add up to. */
  lemma {:induction false} FoldCountsAndSums(vs: seq<real>)
    requires vs != []
    ensures Fold(vs).n == |vs| as real && Fold(vs).n >= 1.0 && Fold(vs).sum == Sum(vs)
  {
    FoldSummarises(vs);
  }

  // ------------------------------------------------------------------ stored rows

  /** One row of table `rollup`: the average is stored, not the sum. */
  datatype Row = Row(avg: real, min: real, max: real, n: real)

  function AtLeastOne(n: real): (r: real)
    ensures r >= 1.0
  {
    if n >= 1.0 then n else 1.0
  }

  function ToRow(a: Agg): Row {
    Row(a.sum / AtLeastOne(a.n), a.min, a.max, a.n)
  }

  function FromRow(r: Row): Agg {
    Agg(r.avg * AtLeastOne(r.n), r.min, r.max, AtLeastOne(r.n))
  }

  lemma DivideThenMultiply(x: real, n: real)
    requires n != 0.0
    ensures (x / n) * n == x
  {
  }

  /** Storing and reading back loses nothing of an aggregate of at least one value - and only
      such an aggregate survives. */
  lemma RowRoundTrip(a: Agg)
    ensures FromRow(ToRow(a)) == a <==> a.n >= 1.0
  {
    DivideThenMultiply(a.sum, AtLeastOne(a.n));
  }

  /** What is stored of a bucket's values: their average, the extremes, how many they are. */
  lemma {:induction false} StoredIsAverage(vs: seq<real>)
    requires vs != []
    ensures
      var r := ToRow(Fold(vs));
      && r.avg * |vs| as real == Sum(vs) && r.n == |vs| as real
      && (forall v :: v in vs ==> r.min <= v <= r.max) && r.min in vs && r.max in vs
  {
    FoldCountsAndSums(vs);
    FoldSummarises(vs);
    DivideThenMultiply(Sum(vs), |vs| as real);
  }

  // ------------------------------------------------------------------ samples

  /** What the gateway logged: the counters every lane merges by addition. */
  datatype LaneLog = LaneLog(requests: nat, other: nat)
  datatype LogDelta = LogDelta(public: LaneLog, trusted: LaneLog)

  const NoLog := LogDelta(LaneLog(0, 0), LaneLog(0, 0))

  function MergeLane(a: LaneLog, b: LaneLog): LaneLog {
    LaneLog(a.requests + b.requests, a.other + b.other)
  }

  function MergeLog(a: LogDelta, b: LogDelta): LogDelta {
    LogDelta(MergeLane(a.public, b.public), MergeLane(a.trusted, b.trusted))
  }

  predicate EmptyLog(l: LogDelta) { l == NoLog }

  /** The engine's own growing counters, and which set of them this sample carries. */
  datatype Counters = Counters(values: map<Metric, real>, version: nat)

  /** One 5 s sample: what it says by itself (`gauges`), the engine's counters (absent when the
      engine did not answer) under the name of the count they become, and the gateway's log. */
  datatype Sample = Sample(ts: int, gauges: map<Metric, real>, counters: Option<Counters>, log: LogDelta)

  type Points = map<Metric, real>

  function Reads(values: map<Metric, real>, m: Metric): real {
    if m in values then values[m] else 0.0
  }

  /** Counter growth since the previous sample: never over a gap of more than a minute, never between
      samples of different versions, never for a counter that went back. A counter the previous sample
      did not report reads back as 0. */
  function Growth(prev: Option<Sample>, cur: Sample): Points {
    if prev.Some? && prev.value.counters.Some? && cur.counters.Some? && 0 < cur.ts - prev.value.ts <= 60
       && cur.counters.value.version == prev.value.counters.value.version
    then
      var now, before := cur.counters.value.values, prev.value.counters.value.values;
      map m | m in now && now[m] >= Reads(before, m) :: now[m] - Reads(before, m)
    else
      map[]
  }

  /** Every number a sample contributes, each name once. */
  function SamplePoints(prev: Option<Sample>, cur: Sample): Points {
    cur.gauges + Growth(prev, cur)
  }
}
