/** The token figures of `lss-collector/src/query.rs` (`tokens_doc`) and `tokens_run.rs`, read back
    from the tiers, and what retention (`db.rs`, `prune`) does to them. */
module Windows {
  import opened Wrappers
  import opened Series
  import opened Rollers
  import opened Store
  import opened Rollup

  const DAY := 86_400

  function Span(from: int, to: int): nat { if from < to then to - from else 0 }

  /** `Db::rollup_sum`: the sums of the stored rows of `[from, to)`, oldest first. */
  function RollupSum(t: Table, res: int, m: Metric, from: int, to: int): real
    decreases Span(from, to)
  {
    if from >= to then 0.0
    else RollupSum(t, res, m, from, to - 1) + if Key(res, m, to - 1) in t then FromRow(t[Key(res, m, to - 1)]).sum else 0.0
  }

  lemma {:induction false} RollupSumSplit(t: Table, res: int, m: Metric, from: int, mid: int, to: int)
    requires from <= mid <= to
    ensures RollupSum(t, res, m, from, to) == RollupSum(t, res, m, from, mid) + RollupSum(t, res, m, mid, to)
    decreases Span(mid, to)
  {
    if mid < to {
      RollupSumSplit(t, res, m, from, mid, to - 1);
    }
  }

  /** Two tables with the same rows in the range have the same sum there. */
  lemma {:induction false} RollupSumSame(t: Table, u: Table, res: int, m: Metric, from: int, to: int)
    requires forall ts :: from <= ts < to ==> (Key(res, m, ts) in t <==> Key(res, m, ts) in u)
    requires forall ts :: from <= ts < to && Key(res, m, ts) in t && Key(res, m, ts) in u ==> t[Key(res, m, ts)] == u[Key(res, m, ts)]
    ensures RollupSum(t, res, m, from, to) == RollupSum(u, res, m, from, to)
    decreases Span(from, to)
  {
    if from < to {
      RollupSumSame(t, u, res, m, from, to - 1);
    }
  }

  /** A counted metric never goes down. */
  ghost predicate Counted(t: Table, res: int, m: Metric) {
    forall ts :: Key(res, m, ts) in t ==> FromRow(t[Key(res, m, ts)]).sum >= 0.0
  }

  lemma {:induction false} RollupSumNonNegative(t: Table, res: int, m: Metric, from: int, to: int)
    requires Counted(t, res, m)
    ensures RollupSum(t, res, m, from, to) >= 0.0
    decreases Span(from, to)
  {
    if from < to {
      RollupSumNonNegative(t, res, m, from, to - 1);
    }
  }

  lemma {:induction false} RollupSumGrows(t: Table, res: int, m: Metric, wide: int, from: int, to: int)
    requires Counted(t, res, m) && wide <= from
    ensures RollupSum(t, res, m, from, to) <= RollupSum(t, res, m, wide, to)
  {
    if from <= to {
      RollupSumSplit(t, res, m, wide, from, to);
      RollupSumNonNegative(t, res, m, wide, from);
    } else {
      RollupSumNonNegative(t, res, m, wide, to);
    }
  }

  // ------------------------------------------------------------------ a tier against raw points

  /** The first bucket start at or after `ts`. */
  function Ceil(ts: int, res: int): int
    requires Tier(res)
  {
    Bucket(ts + res - 1, res)
  }

  lemma CeilStep(ts: int, res: int)
    requires Tier(res)
    ensures Ceil(ts, res) >= ts && Aligned(Ceil(ts, res), res)
    ensures Aligned(ts, res) ==> Ceil(ts, res) == ts && Ceil(ts + 1, res) == ts + res
    ensures !Aligned(ts, res) ==> Ceil(ts + 1, res) == Ceil(ts, res)
  {
    var c := Ceil(ts, res);
    if Aligned(ts, res) {
      StartsOnce(ts, c, ts + res - 1, res);
      NextAligned(ts, res);
      StartsOnce(ts + res, Ceil(ts + 1, res), ts + res, res);
    } else if c < ts + res {
      StartsOnce(c, Ceil(ts + 1, res), ts + res, res);
    }
  }

  lemma NextAligned(ts: int, res: int)
    requires Tier(res) && Aligned(ts, res)
    ensures Aligned(ts + res, res)
  {
    if res == RES_1M {
      NextMinute(ts);
    } else {
      NextWindow(ts);
    }
  }

  lemma NextMinute(ts: int)
    requires ts % 60 == 0
    ensures (ts + 60) % 60 == 0
  {
    assert ts + 60 == 60 * (ts / 60 + 1);
  }

  lemma NextWindow(ts: int)
    requires ts % 600 == 0
    ensures (ts + 600) % 600 == 0
  {
    assert ts + 600 == 600 * (ts / 600 + 1);
  }

  lemma CeilMonotone(a: int, b: int, res: int)
    requires Tier(res) && a <= b
    ensures Ceil(a, res) <= Ceil(b, res)
  {
    BucketMonotone(a + res - 1, b + res - 1, res);
  }

  /** Everything raw a tier's sum over `[from, to)` covers: whole buckets only, closed ones only. */
  function Covered(ss: seq<Sample>, res: int, m: Metric, from: int, to: int): real
    requires Tier(res) && ss != []
  {
    Sum(ValuesIn(Items(ss), m, Ceil(from, res), Least(Ceil(to, res), Bucket(ss[|ss|-1].ts, res))))
  }

  lemma {:induction false} EmptySpan(items: seq<Item>, m: Metric, lo: int, hi: int)
    requires hi <= lo
    ensures Sum(ValuesIn(items, m, lo, hi)) == 0.0
  {
    NoValues(items, m, lo, hi);
  }

  lemma {:induction false} TierCell(ss: seq<Sample>, res: int, m: Metric, ts: int)
    requires Tier(res) && Ordered(ss) && ss != []
    ensures
      (if Key(res, m, ts) in TierRows(ss) then FromRow(TierRows(ss)[Key(res, m, ts)]).sum else 0.0)
      == if Aligned(ts, res) && ts < Bucket(ss[|ss|-1].ts, res) then Sum(ValuesIn(Items(ss), m, ts, ts + res)) else 0.0
  {
    var k := Key(res, m, ts);
    TierRowAt(ss, k);
    if Aligned(ts, res) {
      BucketValues(Items(ss), k);
      if Values(Items(ss), k) != [] {
        FoldCountsAndSums(Values(Items(ss), k));
      }
    } else {
      SeenMeaning(Items(ss), k);
      SeenAligned(Items(ss), res);
    }
  }

  /** A tier's sum counts every raw point of its whole, closed buckets exactly once. */
  lemma {:induction false} SumCountsRawOnce(ss: seq<Sample>, res: int, m: Metric, from: int, to: int)
    requires Tier(res) && Ordered(ss) && ss != []
    ensures RollupSum(TierRows(ss), res, m, from, to) == Covered(ss, res, m, from, to)
    decreases Span(from, to)
  {
    if from >= to {
      CeilMonotone(to, from, res);
      EmptySpan(Items(ss), m, Ceil(from, res), Least(Ceil(to, res), Bucket(ss[|ss|-1].ts, res)));
    } else {
      SumCountsRawOnce(ss, res, m, from, to - 1);
      OneMoreSecond(ss, res, m, from, to - 1);
    }
  }

  lemma OneMoreSecond(ss: seq<Sample>, res: int, m: Metric, from: int, ts: int)
    requires Tier(res) && Ordered(ss) && ss != [] && from <= ts
    requires RollupSum(TierRows(ss), res, m, from, ts) == Covered(ss, res, m, from, ts)
    ensures RollupSum(TierRows(ss), res, m, from, ts + 1) == Covered(ss, res, m, from, ts + 1)
  {
    RollupSumStep(TierRows(ss), res, m, from, ts);
    ItemsInOrder(ss);
    CeilMonotone(from, ts, res);
    TierCell(ss, res, m, ts);
    CoveredGrows(Items(ss), m, Ceil(from, res), ts, Bucket(ss[|ss|-1].ts, res), res);
  }

  lemma RollupSumStep(t: Table, res: int, m: Metric, from: int, ts: int)
    requires from <= ts
    ensures RollupSum(t, res, m, from, ts + 1) == RollupSum(t, res, m, from, ts) + if Key(res, m, ts) in t then FromRow(t[Key(res, m, ts)]).sum else 0.0
  {
  }

  /** One more whole bucket at the end of the span. */
  lemma CoveredGrows(items: seq<Item>, m: Metric, lo: int, ts: int, open: int, res: int)
    requires Tier(res) && InOrder(items) && Aligned(open, res) && lo <= Ceil(ts, res)
    ensures
      Sum(ValuesIn(items, m, lo, Least(Ceil(ts + 1, res), open)))
      == Sum(ValuesIn(items, m, lo, Least(Ceil(ts, res), open)))
         + if Aligned(ts, res) && ts < open then Sum(ValuesIn(items, m, ts, ts + res)) else 0.0
  {
    CeilStep(ts, res);
    if Aligned(ts, res) && ts < open {
      AlignedGap(ts, open, res);
      SumSplit(items, m, lo, ts, ts + res);
    } else if !Aligned(ts, res) {
      assert Ceil(ts + 1, res) == Ceil(ts, res);
    }
  }

  lemma {:induction false} SumSplit(items: seq<Item>, m: Metric, lo: int, mid: int, hi: int)
    requires InOrder(items) && lo <= mid <= hi
    ensures Sum(ValuesIn(items, m, lo, hi)) == Sum(ValuesIn(items, m, lo, mid)) + Sum(ValuesIn(items, m, mid, hi))
  {
    ValuesInSplit(items, m, lo, mid, hi);
    SumConcat(ValuesIn(items, m, lo, mid), ValuesIn(items, m, mid, hi));
  }

  // ------------------------------------------------------------------ GET /tokens

  /** Where a week changes tier: the last day comes from the minutes. */
  function Seam(now: int): int {
    Bucket(now - DAY, RES_10M)
  }

  function DayTotal(t: Table, m: Metric, now: int): real {
    RollupSum(t, RES_1M, m, now - DAY, now + 1)
  }

  function WeekTotal(t: Table, m: Metric, now: int): real {
    RollupSum(t, RES_10M, m, now - 7 * DAY, Seam(now)) + RollupSum(t, RES_1M, m, Seam(now), now + 1)
  }

  /** SEAM EXACTNESS: the week counts every raw point from its first whole ten-minute bucket up to
      the newest closed bucket exactly once. That bucket is the last closed minute while anything
      was sampled since the seam, and only the last closed ten minutes when nothing was. */
  lemma {:induction false} SeamExactness(ss: seq<Sample>, m: Metric, now: int)
    requires Ordered(ss) && ss != [] && ss[|ss|-1].ts <= now
    ensures
      var last := ss[|ss|-1].ts;
      WeekTotal(TierRows(ss), m, now)
      == Sum(ValuesIn(Items(ss), m, Ceil(now - 7 * DAY, RES_10M), if last >= Seam(now) then Bucket(last, RES_1M) else Bucket(last, RES_10M)))
  {
    if ss[|ss|-1].ts >= Seam(now) {
      SampledSinceSeam(ss, m, now);
    } else {
      NothingSinceSeam(ss, m, now);
    }
  }

  lemma {:induction false} SampledSinceSeam(ss: seq<Sample>, m: Metric, now: int)
    requires Ordered(ss) && ss != [] && Seam(now) <= ss[|ss|-1].ts <= now
    ensures WeekTotal(TierRows(ss), m, now)
            == Sum(ValuesIn(Items(ss), m, Ceil(now - 7 * DAY, RES_10M), Bucket(ss[|ss|-1].ts, RES_1M)))
  {
    var last, seam := ss[|ss|-1].ts, Seam(now);
    WeekParts(ss, m, now);
    SeamOrder(last, now);
    ItemsInOrder(ss);
    SumSplit(Items(ss), m, Ceil(now - 7 * DAY, RES_10M), seam, Bucket(last, RES_1M));
  }

  lemma {:induction false} NothingSinceSeam(ss: seq<Sample>, m: Metric, now: int)
    requires Ordered(ss) && ss != [] && ss[|ss|-1].ts < Seam(now)
    ensures WeekTotal(TierRows(ss), m, now)
            == Sum(ValuesIn(Items(ss), m, Ceil(now - 7 * DAY, RES_10M), Bucket(ss[|ss|-1].ts, RES_10M)))
  {
    var last, seam := ss[|ss|-1].ts, Seam(now);
    WeekParts(ss, m, now);
    EmptySpan(Items(ss), m, seam, Bucket(last, RES_1M));
  }

  lemma SeamOrder(last: int, now: int)
    requires Seam(now) <= last <= now
    ensures Ceil(now - 7 * DAY, RES_10M) <= Seam(now) <= Bucket(last, RES_1M)
    ensures Seam(now) <= Bucket(last, RES_10M)
  {
    BucketMonotone(now - 7 * DAY + 599, now - DAY, RES_10M);
    WindowIsMinute(Seam(now));
    BucketAbove(Seam(now), last, RES_1M);
    BucketAbove(Seam(now), last, RES_10M);
  }

  /** What each side of the seam covers. */
  lemma {:induction false} WeekParts(ss: seq<Sample>, m: Metric, now: int)
    requires Ordered(ss) && ss != [] && ss[|ss|-1].ts <= now
    ensures
      var last, seam := ss[|ss|-1].ts, Seam(now);
      WeekTotal(TierRows(ss), m, now)
      == Sum(ValuesIn(Items(ss), m, Ceil(now - 7 * DAY, RES_10M), Least(seam, Bucket(last, RES_10M))))
         + Sum(ValuesIn(Items(ss), m, seam, Bucket(last, RES_1M)))
  {
    var last, seam := ss[|ss|-1].ts, Seam(now);
    SumCountsRawOnce(ss, RES_10M, m, now - 7 * DAY, seam);
    SumCountsRawOnce(ss, RES_1M, m, seam, now + 1);
    SeamAligned(now);
    ClosedByNow(last, now);
  }

  lemma SeamAligned(now: int)
    ensures Ceil(Seam(now), RES_10M) == Seam(now) && Ceil(Seam(now), RES_1M) == Seam(now)
  {
  }

  lemma ClosedByNow(last: int, now: int)
    requires last <= now
    ensures Bucket(last, RES_1M) <= Ceil(now + 1, RES_1M)
  {
  }

  /** A week is never less than its last day. */
  lemma WeekAtLeastDay(t: Table, m: Metric, now: int)
    requires Counted(t, RES_1M, m) && Counted(t, RES_10M, m)
    ensures DayTotal(t, m, now) <= WeekTotal(t, m, now)
  {
    RollupSumNonNegative(t, RES_10M, m, now - 7 * DAY, Seam(now));
    RollupSumGrows(t, RES_1M, m, Seam(now), now - DAY, now + 1);
  }

  // ------------------------------------------------------------------ all time

  /** What the ten-minute history adds to a ledger that began at `since`. */
  function BeforeLedger(t: Table, m: Metric, since: int): real {
    if since > 0 then RollupSum(t, RES_10M, m, 0, Most(since - 599, 0)) else 0.0
  }

  function AllTimeTotal(t: Table, m: Metric, since: int, ledger: real): real {
    ledger + BeforeLedger(t, m, since)
  }

  /** Only buckets that ended before the ledger began are added, each raw point of them once. */
  lemma {:induction false} AllTimeAddsOnlyOlder(ss: seq<Sample>, m: Metric, since: int, ledger: real)
    requires Ordered(ss) && ss != [] && since > 0
    ensures
      var hi := Least(Bucket(since, RES_10M), Bucket(ss[|ss|-1].ts, RES_10M));
      && hi <= since
      && AllTimeTotal(TierRows(ss), m, since, ledger) == ledger + Sum(ValuesIn(Items(ss), m, 0, hi))
  {
    var to := Most(since - 599, 0);
    SumCountsRawOnce(ss, RES_10M, m, 0, to);
    assert Ceil(0, RES_10M) == 0;
    assert Ceil(to, RES_10M) == Bucket(since, RES_10M);
  }

  /** A new ledger at start-up: the whole ten-minute history, dated to the oldest raw sample. */
  function SeededLedger(t: Table, m: Metric, startedAt: int): real {
    RollupSum(t, RES_10M, m, 0, startedAt + 1)
  }

  /** The seed holds every raw point of the closed ten-minute buckets, once. */
  lemma {:induction false} SeededLedgerHoldsAll(ss: seq<Sample>, m: Metric, startedAt: int)
    requires Ordered(ss) && ss != [] && ss[|ss|-1].ts <= startedAt
    ensures SeededLedger(TierRows(ss), m, startedAt) == Sum(ValuesIn(Items(ss), m, 0, Bucket(ss[|ss|-1].ts, RES_10M)))
  {
    SumCountsRawOnce(ss, RES_10M, m, 0, startedAt + 1);
    if startedAt >= 0 {
      assert Ceil(0, RES_10M) == 0;
      BucketMonotone(ss[|ss|-1].ts, startedAt + 600, RES_10M);
    } else {
      BucketMonotone(ss[|ss|-1].ts, 0, RES_10M);
      EmptySpan(Items(ss), m, 0, Bucket(ss[|ss|-1].ts, RES_10M));
    }
  }

  /** No bucket that starts in `[from, to)` holds anything. */
  ghost predicate AllZero(t: Table, res: int, m: Metric, from: int, to: int) {
    forall b :: from <= b < to && Key(res, m, b) in t ==> FromRow(t[Key(res, m, b)]).sum == 0.0
  }

  /** THE SEEDED LEDGER, exactly: dated to the oldest raw sample but holding the whole history, it
      has the older history counted a second time - the all-time row is right if and only if no
      bucket that ended before `since` holds anything. */
  lemma SeededLedgerCountsOlderTwice(t: Table, m: Metric, since: int, startedAt: int)
    requires 0 < since <= startedAt && Counted(t, RES_10M, m)
    ensures AllTimeTotal(t, m, since, SeededLedger(t, m, startedAt)) == SeededLedger(t, m, startedAt) + BeforeLedger(t, m, since)
    ensures AllTimeTotal(t, m, since, SeededLedger(t, m, startedAt)) == SeededLedger(t, m, startedAt)
            <==> AllZero(t, RES_10M, m, 0, since - 599)
  {
    ZeroSum(t, RES_10M, m, 0, Most(since - 599, 0));
  }

  lemma {:induction false} ZeroSum(t: Table, res: int, m: Metric, from: int, to: int)
    requires Counted(t, res, m)
    ensures RollupSum(t, res, m, from, to) == 0.0 <==> AllZero(t, res, m, from, to)
    decreases Span(from, to)
  {
    if from < to {
      ZeroSum(t, res, m, from, to - 1);
      RollupSumNonNegative(t, res, m, from, to - 1);
    }
  }

  /** Five tokens of history from before the oldest raw sample are shown as ten; the bucket that begins
      with the start-up itself is in the seed. */
  lemma SeededLedgerExample()
    ensures
      var t: Table := map[Key(RES_10M, "tok_gen", 0) := Row(5.0, 5.0, 5.0, 1.0)];
      SeededLedger(t, "tok_gen", 0) == 5.0 && SeededLedger(t, "tok_gen", 600) == 5.0
      && AllTimeTotal(t, "tok_gen", 600, SeededLedger(t, "tok_gen", 600)) == 10.0
  {
    var t: Table := map[Key(RES_10M, "tok_gen", 0) := Row(5.0, 5.0, 5.0, 1.0)];
    RollupSumSplit(t, RES_10M, "tok_gen", 0, 1, 601);
    RollupSumSame(t, map[], RES_10M, "tok_gen", 1, 601);
    EmptyTableSum(RES_10M, "tok_gen", 1, 601);
  }

  lemma {:induction false} EmptyTableSum(res: int, m: Metric, from: int, to: int)
    ensures RollupSum(map[], res, m, from, to) == 0.0
    decreases Span(from, to)
  {
    if from < to {
      EmptyTableSum(res, m, from, to - 1);
    }
  }

  // ------------------------------------------------------------------ hour, day, week, month

  datatype WorkWindow = WorkWindow(prompt: real, cached: real, generated: real, requests: real)

  /** `MIN(ts)` of a metric in a tier. */
  ghost predicate IsFirst(t: Table, res: int, m: Metric, first: Option<int>) {
    match first
    case None => forall ts :: Key(res, m, ts) !in t
    case Some(f) => Key(res, m, f) in t && forall ts :: Key(res, m, ts) in t ==> f <= ts
  }

  /** `tokens_run::window`, given the oldest `tok_gen` row of the tier. */
  function Window(t: Table, res: int, now: int, from: int, first: Option<int>): (Option<WorkWindow>, Option<int>) {
    if first.None? then (None, None)
    else
      (Some(WorkWindow(RollupSum(t, res, "tok_prompt", from, now + 1), RollupSum(t, res, "tok_cached", from, now + 1),
                       RollupSum(t, res, "tok_gen", from, now + 1), RollupSum(t, res, "sum_requests", from, now + 1))),
       Some(Most(now - Most(first.value, from), 0)))
  }

  predicate NoMoreThan(a: WorkWindow, b: WorkWindow) {
    a.prompt <= b.prompt && a.cached <= b.cached && a.generated <= b.generated && a.requests <= b.requests
  }

  /** Which metric each figure of a window is, over which stretch: the raw points of the whole closed
      buckets since its start. */
  lemma {:induction false} WindowFigures(ss: seq<Sample>, res: int, now: int, from: int, first: int)
    requires Tier(res) && Ordered(ss) && ss != [] && ss[|ss|-1].ts <= now
    ensures
      var w, open := Window(TierRows(ss), res, now, from, Some(first)), Bucket(ss[|ss|-1].ts, res);
      && w.0.Some? && w.1 == Some(if first <= from then Most(now - from, 0) else Most(now - first, 0))
      && w.0.value.prompt == Sum(ValuesIn(Items(ss), "tok_prompt", Ceil(from, res), open))
      && w.0.value.cached == Sum(ValuesIn(Items(ss), "tok_cached", Ceil(from, res), open))
      && w.0.value.generated == Sum(ValuesIn(Items(ss), "tok_gen", Ceil(from, res), open))
      && w.0.value.requests == Sum(ValuesIn(Items(ss), "sum_requests", Ceil(from, res), open))
  {
    OpenIsLast(ss, res, now);
    SumCountsRawOnce(ss, res, "tok_prompt", from, now + 1);
    SumCountsRawOnce(ss, res, "tok_cached", from, now + 1);
    SumCountsRawOnce(ss, res, "tok_gen", from, now + 1);
    SumCountsRawOnce(ss, res, "sum_requests", from, now + 1);
  }

  /** The last 24 hours of `/tokens`: every raw point of the whole closed minutes in them. */
  lemma {:induction false} DayIsExact(ss: seq<Sample>, m: Metric, now: int)
    requires Ordered(ss) && ss != [] && ss[|ss|-1].ts <= now
    ensures DayTotal(TierRows(ss), m, now) == Sum(ValuesIn(Items(ss), m, Ceil(now - 86400, 60), Bucket(ss[|ss|-1].ts, 60)))
  {
    OpenIsLast(ss, RES_1M, now);
    SumCountsRawOnce(ss, RES_1M, m, now - DAY, now + 1);
  }

  lemma OpenIsLast(ss: seq<Sample>, res: int, now: int)
    requires Tier(res) && ss != [] && ss[|ss|-1].ts <= now
    ensures Least(Ceil(now + 1, res), Bucket(ss[|ss|-1].ts, res)) == Bucket(ss[|ss|-1].ts, res)
  {
    CeilStep(now + 1, res);
    BucketMonotone(ss[|ss|-1].ts, now, res);
  }

  /** The first whole bucket of a stretch: not before it, and less than a bucket after. */
  lemma CeilIsNext(ts: int, res: int)
    requires Tier(res)
    ensures ts <= Ceil(ts, res) < ts + res && Aligned(Ceil(ts, res), res)
  {
    CeilStep(ts, res);
  }

  /** HOUR <= DAY <= WEEK in every figure, each window covered by between nothing and its own
      length, and no figure at all exactly when nothing was ever recorded. */
  lemma WindowsAreNested(t: Table, now: int, first: Option<int>)
    requires IsFirst(t, RES_1M, "tok_gen", first)
    requires Counted(t, RES_1M, "tok_prompt") && Counted(t, RES_1M, "tok_cached")
    requires Counted(t, RES_1M, "tok_gen") && Counted(t, RES_1M, "sum_requests")
    ensures
      var (hour, hs) := Window(t, RES_1M, now, now - 3600, first);
      var (day, ds) := Window(t, RES_1M, now, now - DAY, first);
      var (week, ws) := Window(t, RES_1M, now, now - 7 * DAY, first);
      && (hour.Some? <==> exists ts :: Key(RES_1M, "tok_gen", ts) in t)
      && (hour.Some? ==> day.Some? && week.Some? && NoMoreThan(hour.value, day.value) && NoMoreThan(day.value, week.value))
      && (hour.Some? ==> hs.Some? && ds.Some? && ws.Some?)
      && (hour.Some? ==> 0 <= hs.value <= 3600 && hs.value <= ds.value <= DAY && ds.value <= ws.value <= 7 * DAY)
  {
    if first.Some? {
      assert Key(RES_1M, "tok_gen", first.value) in t;
      NestedMetric(t, "tok_prompt", now);
      NestedMetric(t, "tok_cached", now);
      NestedMetric(t, "tok_gen", now);
      NestedMetric(t, "sum_requests", now);
    }
  }

  lemma NestedMetric(t: Table, m: Metric, now: int)
    requires Counted(t, RES_1M, m)
    ensures RollupSum(t, RES_1M, m, now - 3600, now + 1) <= RollupSum(t, RES_1M, m, now - DAY, now + 1)
    ensures RollupSum(t, RES_1M, m, now - DAY, now + 1) <= RollupSum(t, RES_1M, m, now - 7 * DAY, now + 1)
  {
    RollupSumGrows(t, RES_1M, m, now - DAY, now - 3600, now + 1);
    RollupSumGrows(t, RES_1M, m, now - 7 * DAY, now - DAY, now + 1);
  }

  // ------------------------------------------------------------------ retention

  /** The default retention of the two tiers. */
  const KEEP_1M := 14 * DAY
  const KEEP_10M := 90 * DAY

  function Keep(res: int): int { if res == RES_1M then KEEP_1M else KEEP_10M }

  /** `Db::prune` on the rollup table. */
  function Pruned(t: Table, now: int): (u: Table)
    ensures forall k :: k in u <==> k in t && !(Tier(k.res) && k.ts < now - Keep(k.res))
    ensures forall k :: k in u ==> u[k] == t[k]
  {
    map k | k in t && !(Tier(k.res) && k.ts < now - Keep(k.res)) :: t[k]
  }

  /** The default retention: minutes for fourteen days, ten minutes for ninety. */
  lemma PrunedExactly(t: Table, now: int, k: Key)
    requires k in t && Tier(k.res)
    ensures k !in Pruned(t, now) <==> now - k.ts > (if k.res == 60 then 14 else 90) * 24 * 3600
    ensures k in Pruned(t, now) ==> Pruned(t, now)[k] == t[k]
  {
  }

  lemma {:induction false} PrunedSum(t: Table, at: int, res: int, m: Metric, from: int, to: int)
    requires from >= at - Keep(res)
    ensures RollupSum(Pruned(t, at), res, m, from, to) == RollupSum(t, res, m, from, to)
  {
    RollupSumSame(Pruned(t, at), t, res, m, from, to);
  }

  /** PRUNING at any time up to the read changes no total of `/tokens`: neither the last day nor the
      stitched week. */
  lemma {:induction false} PruneKeepsTotals(t: Table, m: Metric, at: int, now: int)
    requires at <= now
    ensures DayTotal(Pruned(t, at), m, now) == DayTotal(t, m, now)
    ensures WeekTotal(Pruned(t, at), m, now) == WeekTotal(t, m, now)
  {
    PrunedSum(t, at, RES_1M, m, now - DAY, now + 1);
    PrunedSum(t, at, RES_10M, m, now - 7 * DAY, Seam(now));
    PrunedSum(t, at, RES_1M, m, Seam(now), now + 1);
  }

  /** Some generated tokens are on record that this retention keeps. */
  ghost predicate SomethingKept(t: Table, res: int, at: int) {
    exists ts :: Key(res, "tok_gen", ts) in t && ts >= at - Keep(res)
  }

  lemma LeftIsKept(t: Table, res: int, at: int, left: Option<int>)
    requires Tier(res) && IsFirst(Pruned(t, at), res, "tok_gen", left)
    ensures left.Some? <==> SomethingKept(t, res, at)
    ensures left.Some? ==> Key(res, "tok_gen", left.value) in t && left.value >= at - Keep(res)
  {
    if left.Some? {
      assert Key(res, "tok_gen", left.value) in Pruned(t, at);
    }
    if SomethingKept(t, res, at) {
      var ts :| Key(res, "tok_gen", ts) in t && ts >= at - Keep(res);
      assert Key(res, "tok_gen", ts) in Pruned(t, at);
    }
  }

  /** PRUNING AND ONE WINDOW, exactly, in either tier: the figures stay if and only if nothing was
      ever recorded or something recorded is kept - else they vanish; the stated coverage stays if
      and only if the figures do and the oldest row was kept or the oldest left still reaches back
      to the window's start. */
  lemma {:induction false} PruneAndWindow(t: Table, res: int, at: int, now: int, from: int, first: Option<int>, left: Option<int>)
    requires Tier(res) && at <= now && at - Keep(res) <= from < now
    requires IsFirst(t, res, "tok_gen", first) && IsFirst(Pruned(t, at), res, "tok_gen", left)
    ensures
      var before, after := Window(t, res, now, from, first), Window(Pruned(t, at), res, now, from, left);
      && (after.0 == before.0 <==> first.None? || SomethingKept(t, res, at))
      && (after.1 == before.1 <==>
            first.None? || (left.Some? && (first.value >= at - Keep(res) || left.value <= from)))
  {
    LeftIsKept(t, res, at, left);
    PrunedSum(t, at, res, "tok_prompt", from, now + 1);
    PrunedSum(t, at, res, "tok_cached", from, now + 1);
    PrunedSum(t, at, res, "tok_gen", from, now + 1);
    PrunedSum(t, at, res, "sum_requests", from, now + 1);
    if first.Some? {
      assert Key(res, "tok_gen", first.value) in t;
      assert first.value >= at - Keep(res) ==> Key(res, "tok_gen", first.value) in Pruned(t, at);
    }
  }

  /** The four windows shown: hour, day and week from the minutes, the month from the ten minutes. */
  lemma {:induction false} PruneKeepsWindows(t: Table, at: int, now: int,
                                             first: Option<int>, left: Option<int>, first10: Option<int>, left10: Option<int>)
    requires at <= now
    requires IsFirst(t, RES_1M, "tok_gen", first) && IsFirst(Pruned(t, at), RES_1M, "tok_gen", left)
    requires IsFirst(t, RES_10M, "tok_gen", first10) && IsFirst(Pruned(t, at), RES_10M, "tok_gen", left10)
    ensures
      var u := Pruned(t, at);
      && (first.None? || SomethingKept(t, RES_1M, at) <==>
            Window(u, RES_1M, now, now - 3600, left).0 == Window(t, RES_1M, now, now - 3600, first).0)
      && (first.None? || SomethingKept(t, RES_1M, at) <==>
            Window(u, RES_1M, now, now - DAY, left).0 == Window(t, RES_1M, now, now - DAY, first).0)
      && (first.None? || SomethingKept(t, RES_1M, at) <==>
            Window(u, RES_1M, now, now - 7 * DAY, left).0 == Window(t, RES_1M, now, now - 7 * DAY, first).0)
      && (first10.None? || SomethingKept(t, RES_10M, at) <==>
            Window(u, RES_10M, now, now - 30 * DAY, left10).0 == Window(t, RES_10M, now, now - 30 * DAY, first10).0)
  {
    PruneAndWindow(t, RES_1M, at, now, now - 3600, first, left);
    PruneAndWindow(t, RES_1M, at, now, now - DAY, first, left);
    PruneAndWindow(t, RES_1M, at, now, now - 7 * DAY, first, left);
    PruneAndWindow(t, RES_10M, at, now, now - 30 * DAY, first10, left10);
  }

  /** One row of five tokens. */
  function Five(res: int): Table {
    map[Key(res, "tok_gen", 0) := Row(5.0, 5.0, 5.0, 1.0)]
  }

  /** A collector idle for fifteen days: pruning turns the hour from no tokens, fully covered, into
      no figure at all. */
  lemma PruneVanishesExample()
    ensures
      var t, now := Five(RES_1M), 15 * DAY;
      && Window(t, RES_1M, now, now - 3600, Some(0)).0.Some? && Window(t, RES_1M, now, now - 3600, Some(0)).1 == Some(3600)
      && IsFirst(t, RES_1M, "tok_gen", Some(0)) && IsFirst(Pruned(t, now), RES_1M, "tok_gen", None)
      && Window(Pruned(t, now), RES_1M, now, now - 3600, None) == (None, None)
  {
  }

  /** Nothing for fourteen days, then a minute half an hour ago: pruning turns a covered hour into
      half a covered hour. */
  lemma PruneCoverageExample()
    ensures
      var now := 15 * DAY;
      var t := Five(RES_1M)[Key(RES_1M, "tok_gen", now - 1800) := Row(1.0, 1.0, 1.0, 1.0)];
      && IsFirst(t, RES_1M, "tok_gen", Some(0)) && IsFirst(Pruned(t, now), RES_1M, "tok_gen", Some(now - 1800))
      && Window(t, RES_1M, now, now - 3600, Some(0)).1 == Some(3600)
      && Window(Pruned(t, now), RES_1M, now, now - 3600, Some(now - 1800)).1 == Some(1800)
  {
    var now := 15 * DAY;
    var t := Five(RES_1M)[Key(RES_1M, "tok_gen", now - 1800) := Row(1.0, 1.0, 1.0, 1.0)];
    assert Key(RES_1M, "tok_gen", now - 1800) in Pruned(t, now);
  }

  /** The all-time row is the one figure retention can lower, and by exactly what it removed. */
  lemma {:induction false} PruneLowersAllTime(t: Table, m: Metric, since: int, ledger: real, at: int)
    requires since > 0 && at - KEEP_10M >= 0
    ensures AllTimeTotal(Pruned(t, at), m, since, ledger)
            == AllTimeTotal(t, m, since, ledger) - RollupSum(t, RES_10M, m, 0, Least(at - KEEP_10M, Most(since - 599, 0)))
  {
    var to, cut := Most(since - 599, 0), Least(at - KEEP_10M, Most(since - 599, 0));
    RollupSumSplit(t, RES_10M, m, 0, cut, to);
    RollupSumSplit(Pruned(t, at), RES_10M, m, 0, cut, to);
    RollupSumSame(Pruned(t, at), map[], RES_10M, m, 0, cut);
    EmptyTableSum(RES_10M, m, 0, cut);
    if cut < to {
      PrunedSum(t, at, RES_10M, m, cut, to);
    }
  }

  /** Five tokens of a ten-minute bucket older than the ledger are shown until they are ninety days
      old, and then no more. */
  lemma PruneAllTimeExample()
    ensures AllTimeTotal(Five(RES_10M), "tok_gen", 1200, 0.0) == 5.0
    ensures AllTimeTotal(Pruned(Five(RES_10M), 91 * DAY), "tok_gen", 1200, 0.0) == 0.0
  {
    var t, m := Five(RES_10M), "tok_gen";
    RollupSumSplit(t, RES_10M, m, 0, 1, 601);
    RollupSumSame(t, map[], RES_10M, m, 1, 601);
    EmptyTableSum(RES_10M, m, 1, 601);
    RollupSumSame(Pruned(t, 91 * DAY), map[], RES_10M, m, 0, 601);
    EmptyTableSum(RES_10M, m, 0, 601);
  }
}
