/** What the tiers say about the engine's growing counters (`sample_points` in
    `lss-core/src/series.rs`): tokens and requests are never negative, and none is lost or made up
    while the counters are steady. */
module CounterGrowth {
  import opened Wrappers
  import opened Series
  import opened Rollers
  import opened Store
  import opened Rollup
  import opened Windows

  /** The metric is only ever counted, never measured. */
  ghost predicate CountedOnly(ss: seq<Sample>, m: Metric) {
    forall i :: 0 <= i < |ss| ==> m !in ss[i].gauges
  }

  lemma GrowthNeverNegative(prev: Option<Sample>, s: Sample, m: Metric)
    requires m !in s.gauges && m in SamplePoints(prev, s)
    ensures SamplePoints(prev, s)[m] >= 0.0
  {
  }

  lemma {:induction false} ValuesNeverNegative(ss: seq<Sample>, m: Metric, lo: int, hi: int)
    requires CountedOnly(ss, m)
    ensures Sum(ValuesIn(Items(ss), m, lo, hi)) >= 0.0
  {
    if ss != [] {
      var init, s := ss[..|ss|-1], ss[|ss|-1];
      var prev := if init == [] then None else Some(init[|init|-1]);
      assert ss == init + [s];
      assert CountedOnly(init, m);
      ValuesNeverNegative(init, m, lo, hi);
      ItemsSnoc(init, s);
      ValuesInSnoc(Items(init), Item(s.ts, SamplePoints(prev, s)), m, lo, hi);
      if m in SamplePoints(prev, s) {
        GrowthNeverNegative(prev, s, m);
      }
    }
  }

  lemma {:induction false} ValuesInSnoc(items: seq<Item>, x: Item, m: Metric, lo: int, hi: int)
    ensures Sum(ValuesIn(items + [x], m, lo, hi)) ==
            Sum(ValuesIn(items, m, lo, hi)) + if lo <= x.ts < hi && m in x.points then x.points[m] else 0.0
  {
    var vs := ValuesIn(items, m, lo, hi);
    assert (items + [x])[..|items|] == items;
    if lo <= x.ts < hi && m in x.points {
      assert (vs + [x.points[m]])[..|vs|] == vs;
    }
  }

  /** NO TIER EVER HOLDS NEGATIVE TOKENS, whatever restarts of the engine, gaps and changes of the
      counter set the stream contains: what the window sums take for granted. */
  lemma {:induction false} TiersNeverNegative(ss: seq<Sample>, res: int, m: Metric)
    requires Tier(res) && Ordered(ss) && CountedOnly(ss, m)
    ensures Counted(TierRows(ss), res, m)
  {
    forall ts | Key(res, m, ts) in TierRows(ss) ensures FromRow(TierRows(ss)[Key(res, m, ts)]).sum >= 0.0 {
      if ss != [] {
        TierCell(ss, res, m, ts);
        ValuesNeverNegative(ss, m, ts, ts + res);
      }
    }
  }

  // ------------------------------------------------------------------ one step

  /** A counter says something of one step exactly when both samples carry counters of one version, are
      at most a minute apart and in order, and it has not gone back; then it says by how much it grew. */
  lemma StepExactly(prev: Sample, cur: Sample, m: Metric)
    requires m !in cur.gauges && cur.counters.Some? && m in cur.counters.value.values
    ensures m in SamplePoints(Some(prev), cur) <==>
              && prev.counters.Some? && prev.counters.value.version == cur.counters.value.version
              && prev.ts < cur.ts && cur.ts - prev.ts <= 60 && Reading(prev, m) <= Reading(cur, m)
    ensures m in SamplePoints(Some(prev), cur) ==> SamplePoints(Some(prev), cur)[m] == Reading(cur, m) - Reading(prev, m)
  {
  }

  /** A minute apart is a step, a second more is a gap. */
  lemma StepExamples()
    ensures
      var at := (ts: int, v: real) => Sample(ts, map[], Some(Counters(map["tok_gen" := v], 1)), NoLog);
      && SamplePoints(Some(at(0, 10.0)), at(60, 17.0)) == map["tok_gen" := 7.0]
      && SamplePoints(Some(at(0, 10.0)), at(61, 17.0)) == map[]
      && SamplePoints(Some(at(0, 10.0)), at(5, 9.0)) == map[]
      && SamplePoints(None, at(5, 9.0)) == map[]
  {
  }

  // ------------------------------------------------------------------ counters that appear

  /** A counter the sample before did not report: all it has counted in its life becomes one point,
      if and only if the two samples are of one version (no counter is negative). */
  lemma NewCounterBooksItsLife(prev: Sample, cur: Sample, m: Metric)
    requires prev.counters.Some? && cur.counters.Some? && 0 < cur.ts - prev.ts <= 60 && m !in cur.gauges
    requires m in cur.counters.value.values && m !in prev.counters.value.values && cur.counters.value.values[m] >= 0.0
    ensures m in SamplePoints(Some(prev), cur) <==> cur.counters.value.version == prev.counters.value.version
    ensures m in SamplePoints(Some(prev), cur) ==> SamplePoints(Some(prev), cur)[m] == cur.counters.value.values[m]
  {
  }

  /** An engine that begins to publish its token counter at a million: a million tokens in five
      seconds. */
  lemma NewCounterExample()
    ensures
      var before, after := Sample(0, map[], Some(Counters(map[], 1)), NoLog), Sample(5, map[], Some(Counters(map["tok_gen" := 1000000.0], 1)), NoLog);
      SamplePoints(Some(before), after) == map["tok_gen" := 1000000.0]
  {
  }

  // ------------------------------------------------------------------ steady counters

  ghost predicate Carries(s: Sample, m: Metric, version: nat) {
    s.counters.Some? && s.counters.value.version == version && m in s.counters.value.values
  }

  function Reading(s: Sample, m: Metric): real {
    if s.counters.Some? then Reads(s.counters.value.values, m) else 0.0
  }

  /** The engine answered every poll with the same set of counters, no two polls were more than a
      minute apart, and the counter never went back. */
  ghost predicate Steady(ss: seq<Sample>, m: Metric, version: nat) {
    && (forall i :: 0 <= i < |ss| ==> Carries(ss[i], m, version))
    && (forall i, j :: 0 <= i < j < |ss| && j == i + 1 ==> Follows(ss[i], ss[j], m))
  }

  /** At most a minute later, and the counter has not gone back. */
  ghost predicate Follows(a: Sample, b: Sample, m: Metric) {
    0 < b.ts - a.ts <= 60 && Reading(a, m) <= Reading(b, m)
  }

  /** Without a sample before it a counter says nothing; with a steady one it says its growth. */
  lemma SteadyPoint(prev: Option<Sample>, s: Sample, m: Metric, version: nat)
    requires m !in s.gauges && Carries(s, m, version)
    requires prev.Some? ==> Carries(prev.value, m, version) && Follows(prev.value, s, m)
    ensures m in SamplePoints(prev, s) <==> prev.Some?
    ensures prev.Some? ==> SamplePoints(prev, s)[m] == Reading(s, m) - Reading(prev.value, m)
  {
  }

  ghost predicate Stretch(ss: seq<Sample>, m: Metric, version: nat) {
    Ordered(ss) && CountedOnly(ss, m) && Steady(ss, m, version)
  }

  lemma StretchPrefix(p: seq<Sample>, q: seq<Sample>, m: Metric, version: nat)
    requires Stretch(p + q, m, version)
    ensures Stretch(p, m, version)
  {
    assert forall i :: 0 <= i < |p| ==> (p + q)[i] == p[i];
  }

  /** What the last sample of a stretch adds. */
  lemma LastPoint(init: seq<Sample>, s: Sample, m: Metric, version: nat)
    requires Stretch(init + [s], m, version)
    ensures
      var prev := if init == [] then None else Some(init[|init|-1]);
      var points := SamplePoints(prev, s);
      && (m in points <==> prev.Some?)
      && (prev.Some? ==> points[m] == Reading(s, m) - Reading(prev.value, m))
  {
    var ss := init + [s];
    assert ss[|init|] == s;
    assert init != [] ==> ss[|init|-1] == init[|init|-1];
    SteadyPoint(if init == [] then None else Some(init[|init|-1]), s, m, version);
  }

  lemma {:induction false} PointsStep(init: seq<Sample>, s: Sample, m: Metric, version: nat, lo: int, hi: int)
    requires Stretch(init + [s], m, version) && lo <= s.ts < hi
    ensures Sum(ValuesIn(Items(init + [s]), m, lo, hi)) ==
            Sum(ValuesIn(Items(init), m, lo, hi)) + if init == [] then 0.0 else Reading(s, m) - Reading(init[|init|-1], m)
  {
    ItemsSnoc(init, s);
    ValuesInSnoc(Items(init), Item(s.ts, SamplePoints(if init == [] then None else Some(init[|init|-1]), s)), m, lo, hi);
    LastPoint(init, s, m, version);
  }

  ghost predicate AddsUp(ss: seq<Sample>, m: Metric, lo: int, hi: int)
    requires ss != []
  {
    Sum(ValuesIn(Items(ss), m, lo, hi)) == Reading(ss[|ss|-1], m) - Reading(ss[0], m)
  }

  lemma {:induction false} AddsUpStep(init: seq<Sample>, s: Sample, m: Metric, version: nat, lo: int, hi: int)
    requires Stretch(init + [s], m, version) && lo <= s.ts < hi
    requires init != [] ==> AddsUp(init, m, lo, hi)
    ensures AddsUp(init + [s], m, lo, hi)
  {
    PointsStep(init, s, m, version, lo, hi);
    if init == [] {
      NothingAddsNothing(m, lo, hi);
    }
  }

  /** The raw points of a steady counter add up to how far it got. */
  lemma {:induction false} PointsAddUp(ss: seq<Sample>, m: Metric, version: nat, lo: int, hi: int)
    requires ss != [] && Stretch(ss, m, version) && lo <= ss[0].ts && ss[|ss|-1].ts < hi
    ensures Sum(ValuesIn(Items(ss), m, lo, hi)) == Reading(ss[|ss|-1], m) - Reading(ss[0], m)
  {
    var init, s := ss[..|ss|-1], ss[|ss|-1];
    assert ss == init + [s];
    if init != [] {
      InitBefore(init, s);
      StretchPrefix(init, [s], m, version);
      PointsAddUp(init, m, version, lo, hi);
    }
    AddsUpStep(init, s, m, version, lo, hi);
  }

  lemma {:induction false} NothingAddsNothing(m: Metric, lo: int, hi: int)
    ensures Sum(ValuesIn(Items([]), m, lo, hi)) == 0.0
  {
    assert Items([]) == [];
  }

  lemma InitBefore(init: seq<Sample>, s: Sample)
    requires Ordered(init + [s]) && init != []
    ensures init[0] == (init + [s])[0] && init[0].ts < s.ts && init[|init|-1].ts < s.ts
  {
    assert (init + [s])[|init|-1] == init[|init|-1] && (init + [s])[|init|] == s;
  }

  lemma {:induction false} LaterSamplesElsewhere(p: seq<Sample>, q: seq<Sample>, m: Metric, lo: int, hi: int)
    requires forall i :: 0 <= i < |q| ==> q[i].ts >= hi
    ensures ValuesIn(Items(p + q), m, lo, hi) == ValuesIn(Items(p), m, lo, hi)
  {
    if q == [] {
      assert p + q == p;
    } else {
      var init, s := q[..|q|-1], q[|q|-1];
      assert p + q == p + init + [s];
      LaterSamplesElsewhere(p, init, m, lo, hi);
      ItemsSnoc(p + init, s);
      var items := Items(p + init);
      assert Items(p + q)[..|items|] == items;
    }
  }

  /** CONSERVATION FROM COUNTER TO TIER: over a steady stretch `p + q`, `q` being what falls into the
      open bucket, a tier's closed buckets add up to exactly how far the engine's counter got from
      the first sample to the last one before the open bucket. */
  lemma {:induction false} TierHoldsCounterGrowth(p: seq<Sample>, q: seq<Sample>, open: int, res: int, m: Metric, version: nat)
    requires Tier(res) && p != [] && q != [] && Stretch(p + q, m, version)
    requires open == Bucket(q[|q|-1].ts, res) && p[|p|-1].ts < open && forall i :: 0 <= i < |q| ==> q[i].ts >= open
    ensures RollupSum(TierRows(p + q), res, m, Bucket(p[0].ts, res), open) == Reading(p[|p|-1], m) - Reading(p[0], m)
  {
    var ss, lo := p + q, Bucket(p[0].ts, res);
    assert ss[|ss|-1] == q[|q|-1];
    SpanHoldsGrowth(p, q, m, version, lo, open);
    ClosedSpan(ss, res, m, lo);
  }

  lemma {:induction false} SpanHoldsGrowth(p: seq<Sample>, q: seq<Sample>, m: Metric, version: nat, lo: int, hi: int)
    requires p != [] && Stretch(p + q, m, version) && lo <= p[0].ts && p[|p|-1].ts < hi
    requires forall i :: 0 <= i < |q| ==> q[i].ts >= hi
    ensures Sum(ValuesIn(Items(p + q), m, lo, hi)) == Reading(p[|p|-1], m) - Reading(p[0], m)
  {
    LaterSamplesElsewhere(p, q, m, lo, hi);
    StretchPrefix(p, q, m, version);
    PointsAddUp(p, m, version, lo, hi);
  }

  /** From one bucket's start to the open bucket a tier covers every raw point. */
  lemma {:induction false} ClosedSpan(ss: seq<Sample>, res: int, m: Metric, lo: int)
    requires Tier(res) && Ordered(ss) && ss != [] && Aligned(lo, res)
    ensures
      var open := Bucket(ss[|ss|-1].ts, res);
      RollupSum(TierRows(ss), res, m, lo, open) == Sum(ValuesIn(Items(ss), m, lo, open))
  {
    var open := Bucket(ss[|ss|-1].ts, res);
    SumCountsRawOnce(ss, res, m, lo, open);
    CeilStep(lo, res);
    CeilStep(open, res);
  }
}
