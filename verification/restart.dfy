/** What a restart of the collector costs the tiers (`lss-collector/src/main.rs` at start-up):
    nothing for a metric a sample carries by itself, as long as the restart falls in the
    ten-minute window of the last stored sample and no push that was to close a window was cut
    short. `losses.dfy` says exactly what is lost in every other run. */
module Restarts {
  import opened Wrappers
  import opened Series
  import opened Rollers
  import opened Store
  import opened Rollup

  // ------------------------------------------------------------------ the machine

  /** A polled sample; the process dying between two polls; the process dying inside the push of
      a sample it had stored, with only the rows in `kept` written, and the gate-log row only if
      `gateKept`. `at` = the next start. */
  datatype Event = Polled(s: Sample) | Died(at: int) | Torn(s: Sample, kept: set<Key>, gateKept: bool, at: int)

  datatype Machine = Machine(samples: seq<Sample>, pipe: PipeState, t: Tables)

  const Fresh := Machine([], FreshPipe, NoRows)

  /** The stored samples from `open` on. */
  function From(ss: seq<Sample>, open: int): seq<Sample> {
    if ss == [] then []
    else
      var rest := From(ss[..|ss|-1], open);
      if open <= ss[|ss|-1].ts then rest + [ss[|ss|-1]] else rest
  }

  /** Start-up: a fresh pipeline replays the samples of the current ten-minute window. */
  function Started(ss: seq<Sample>, t: Tables, at: int): Machine {
    var (st, t1) := PushedAll(FreshPipe, t, From(ss, Bucket(at, RES_10M)), false);
    Machine(ss, st, t1)
  }

  /** What a push cut short leaves: of every row it was to write the old one or the new one. */
  function TornTables(st: PipeState, t: Tables, s: Sample, kept: set<Key>, gateKept: bool): Tables {
    var whole := Pushed(st, t, s, true).1;
    Tables(map k | k in whole.rollup && (k in t.rollup || k in kept) :: if k in kept then whole.rollup[k] else t.rollup[k],
           if gateKept then whole.gatelog else t.gatelog)
  }

  function Stepped(m: Machine, e: Event): Machine {
    match e
    case Polled(s) =>
      var (st, t) := Pushed(m.pipe, m.t, s, true);
      Machine(m.samples + [s], st, t)
    case Died(at) =>
      Started(m.samples, m.t, at)
    case Torn(s, kept, gateKept, at) =>
      Started(m.samples + [s], TornTables(m.pipe, m.t, s, kept, gateKept), at)
  }

  function Run(es: seq<Event>): Machine {
    if es == [] then Fresh else Stepped(Run(es[..|es|-1]), es[|es|-1])
  }

  /** The collector that never died: every stored sample pushed live. */
  function Uninterrupted(ss: seq<Sample>): (PipeState, Tables) {
    PushedAll(FreshPipe, NoRows, ss, true)
  }

  predicate Newer(ss: seq<Sample>, s: Sample) {
    ss == [] || ss[|ss|-1].ts < s.ts
  }

  predicate SameWindow(ss: seq<Sample>, ts: int) {
    ss == [] || Bucket(ss[|ss|-1].ts, RES_10M) == Bucket(ts, RES_10M)
  }

  /** A step that keeps the clock moving and restarts inside the window of the last sample; a push
      cut short must not have been the one that closes a window. */
  predicate InWindow(ss: seq<Sample>, e: Event) {
    match e
    case Polled(s) => Newer(ss, s)
    case Died(at) => SameWindow(ss, at)
    case Torn(s, _, _, at) => Newer(ss, s) && SameWindow(ss, s.ts) && SameWindow(ss + [s], at)
  }

  ghost predicate AllInWindow(es: seq<Event>) {
    forall i :: 0 <= i < |es| ==> InWindow(Run(es[..i]).samples, es[i])
  }

  /** No sample derives the metric from the one before it. */
  ghost predicate StandsAlone(ss: seq<Sample>, m: Metric) {
    forall s :: s in ss && s.counters.Some? ==> m !in s.counters.value.values
  }

  // ------------------------------------------------------------------ agreement on one metric

  ghost predicate SameAcc(m: Metric, a: RollerState, b: RollerState) {
    a.bucket == b.bucket && (m in a.acc <==> m in b.acc) && (m in a.acc ==> a.acc[m] == b.acc[m])
  }

  ghost predicate SamePipe(m: Metric, a: PipeState, b: PipeState) {
    SameAcc(m, a.m1, b.m1) && SameAcc(m, a.m10, b.m10) && a.gate == b.gate && a.prev == b.prev
  }

  ghost predicate SameRows(m: Metric, a: Tables, b: Tables) {
    SameOf(m, a.rollup, b.rollup) && a.gatelog == b.gatelog
  }

  lemma AddSame(m: Metric, res: int, a: RollerState, b: RollerState, ts: int, points: Points)
    requires Tier(res) && SameAcc(m, a, b)
    ensures SameAcc(m, Add(res, a, ts, points).0, Add(res, b, ts, points).0)
    ensures SameOf(m, Emitted(Add(res, a, ts, points).1), Emitted(Add(res, b, ts, points).1))
  {
  }

  /** Two collectors that agree on a metric agree after the next live sample. */
  lemma PushedSame(m: Metric, a: PipeState, ta: Tables, b: PipeState, tb: Tables, s: Sample)
    requires SamePipe(m, a, b) && SameRows(m, ta, tb)
    ensures SamePipe(m, Pushed(a, ta, s, true).0, Pushed(b, tb, s, true).0)
    ensures SameRows(m, Pushed(a, ta, s, true).1, Pushed(b, tb, s, true).1)
  {
    var points := SamplePoints(a.prev, s);
    AddSame(m, RES_1M, a.m1, b.m1, s.ts, points);
    AddSame(m, RES_10M, a.m10, b.m10, s.ts, points);
    var a1, a10 := Add(RES_1M, a.m1, s.ts, points).1, Add(RES_10M, a.m10, s.ts, points).1;
    var b1, b10 := Add(RES_1M, b.m1, s.ts, points).1, Add(RES_10M, b.m10, s.ts, points).1;
    WriteSame(m, ta.rollup, a1, tb.rollup, b1);
    WriteSame(m, WriteDone(ta.rollup, a1, true), a10, WriteDone(tb.rollup, b1, true), b10);
  }

  ghost predicate SameOf(m: Metric, t: Table, u: Table) {
    && (forall k: Key :: k.metric == m ==> (k in t <==> k in u))
    && (forall k: Key :: k.metric == m && k in t && k in u ==> t[k] == u[k])
  }

  lemma WriteSame(m: Metric, t: Table, a: Option<Batch>, u: Table, b: Option<Batch>)
    requires SameOf(m, t, u) && SameOf(m, Emitted(a), Emitted(b))
    ensures SameOf(m, WriteDone(t, a, true), WriteDone(u, b, true))
  {
    WriteDoneIsOverlay(t, a, true);
    WriteDoneIsOverlay(u, b, true);
  }

  // ------------------------------------------------------------------ the replayed window

  lemma {:induction false} NoneFrom(ss: seq<Sample>, open: int)
    requires forall s :: s in ss ==> s.ts < open
    ensures From(ss, open) == []
  {
    if ss != [] {
      NoneFrom(ss[..|ss|-1], open);
    }
  }

  lemma {:induction false} FromIsSuffix(ss: seq<Sample>, open: int) returns (older: seq<Sample>)
    requires Ordered(ss)
    ensures ss == older + From(ss, open)
    ensures forall s :: s in older ==> s.ts < open
    ensures forall s :: s in From(ss, open) ==> s.ts >= open
  {
    if ss == [] {
      older := [];
    } else {
      var init, last := ss[..|ss|-1], ss[|ss|-1];
      assert ss == init + [last];
      older := FromIsSuffix(init, open);
      if last.ts < open {
        NoneFrom(init, open);
        older := ss;
      }
    }
  }

  /** One more sample adds to a metric that stands alone what it says by itself. */
  lemma {:induction false} ValuesOfOneMore(ss: seq<Sample>, s: Sample, k: Key)
    requires Tier(k.res) && (s.counters.Some? ==> k.metric !in s.counters.value.values)
    ensures Values(Items(ss + [s]), k) ==
            Values(Items(ss), k) + if Bucket(s.ts, k.res) == k.ts && k.metric in s.gauges then [s.gauges[k.metric]] else []
  {
    var x := Item(s.ts, SamplePoints(if ss == [] then None else Some(ss[|ss|-1]), s));
    ItemsSnoc(ss, s);
    ValuesSnoc(Items(ss), x, k);
    assert k.metric in x.points <==> k.metric in s.gauges;
  }

  /** In a bucket of the replayed window, a metric that stands alone has the same raw values
      whether or not the samples before the window were seen. */
  lemma {:induction false} WindowValues(older: seq<Sample>, w: seq<Sample>, k: Key)
    requires Tier(k.res) && StandsAlone(older + w, k.metric)
    requires forall s :: s in older ==> Bucket(s.ts, k.res) < k.ts
    ensures Values(Items(older + w), k) == Values(Items(w), k)
  {
    if w == [] {
      assert older + w == older;
      assert forall i :: 0 <= i < |older| ==> older[i] in older;
      NothingSeen(Items(older), k);
    } else {
      var init, s := w[..|w|-1], w[|w|-1];
      assert w == init + [s] && older + w == older + init + [s];
      WindowValues(older, init, k);
      assert s in older + w;
      ValuesOfOneMore(older + init, s, k);
      ValuesOfOneMore(init, s, k);
    }
  }

  lemma {:induction false} WindowLog(older: seq<Sample>, w: seq<Sample>, b: int)
    requires forall s :: s in older ==> Bucket(s.ts, RES_10M) < b
    ensures LogIn(older + w, b) == LogIn(w, b)
  {
    if w == [] {
      assert older + w == older;
      LogInUnseen(older, b) by { assert forall i :: 0 <= i < |older| ==> older[i] in older; }
    } else {
      assert (older + w)[..|older + w|-1] == older + w[..|w|-1];
      WindowLog(older, w[..|w|-1], b);
    }
  }

  /** What the crash left of the reference rows: nothing wrong, and nothing missing from before
      the window. */
  ghost predicate Survived(m: Metric, t: Tables, ss: seq<Sample>, open: int) {
    && (forall k: Key :: k.metric == m && k in t.rollup ==> k in TierRows(ss) && t.rollup[k] == TierRows(ss)[k])
    && (forall k: Key :: k.metric == m && k in TierRows(ss) && k.ts < open ==> k in t.rollup)
    && t.gatelog == GateRows(ss)
  }

  lemma BucketBefore(ts: int, open: int, res: int)
    requires Tier(res) && ts < open && Aligned(open, RES_10M)
    ensures Bucket(ts, res) + res <= open
  {
    WindowAligned(open, res);
    AlignedGap(Bucket(ts, res), open, res);
  }

  /** The stored samples split at the start of the window. */
  ghost predicate SplitAt(older: seq<Sample>, w: seq<Sample>, open: int) {
    && Aligned(open, RES_10M)
    && (forall s :: s in older ==> s.ts < open)
    && (forall s :: s in w ==> s.ts >= open)
  }

  lemma {:induction false} WindowCell(older: seq<Sample>, w: seq<Sample>, open: int, k: Key)
    requires SplitAt(older, w, open) && StandsAlone(older + w, k.metric)
    requires Tier(k.res) && k.ts >= open
    ensures Values(Items(older + w), k) == Values(Items(w), k)
  {
    forall s | s in older ensures Bucket(s.ts, k.res) < k.ts { BucketBefore(s.ts, open, k.res); }
    WindowValues(older, w, k);
  }

  lemma {:induction false} OpenAccAt(st: RollerState, items: seq<Item>, res: int, m: Metric)
    requires Tier(res) && items != [] && HoldsOpen(st, items, res)
    ensures
      var vs := Values(items, Key(res, m, OpenBucket(items, res)));
      && st.bucket == Some(OpenBucket(items, res))
      && (m in st.acc <==> vs != [])
      && (m in st.acc ==> st.acc[m] == Fold(vs))
  {
    SeenMeaning(items, Key(res, m, OpenBucket(items, res)));
  }

  lemma BucketInWindow(ts: int, open: int, res: int)
    requires Tier(res) && Aligned(open, RES_10M) && ts >= open
    ensures Bucket(ts, res) >= open
  {
    WindowAligned(open, res);
    BucketAbove(open, ts, res);
  }

  lemma ReplayedAcc(m: Metric, older: seq<Sample>, w: seq<Sample>, a: RollerState, b: RollerState, open: int, res: int)
    requires Tier(res) && SplitAt(older, w, open) && w != [] && StandsAlone(older + w, m)
    requires HoldsOpen(a, Items(w), res) && HoldsOpen(b, Items(older + w), res)
    ensures SameAcc(m, a, b)
  {
    var last := w[|w|-1];
    assert (older + w)[|older + w|-1] == last && last in w;
    BucketInWindow(last.ts, open, res);
    WindowCell(older, w, open, Key(res, m, Bucket(last.ts, res)));
    OpenAccAt(a, Items(w), res, m);
    OpenAccAt(b, Items(older + w), res, m);
  }

  /** One cell of the window: replaying it over the survivors gives the reference cell. */
  lemma ReplayedCell(older: seq<Sample>, w: seq<Sample>, t: Tables, open: int, k: Key)
    requires SplitAt(older, w, open) && w != [] && StandsAlone(older + w, k.metric)
    requires Survived(k.metric, t, older + w, open)
    ensures k in TierRows(w) || k in t.rollup <==> k in TierRows(older + w)
    ensures k in TierRows(w) && k in TierRows(older + w) ==> TierRows(w)[k] == TierRows(older + w)[k]
  {
    var ss := older + w;
    assert ss[|ss|-1] == w[|w|-1];
    TierRowsTiers(w);
    TierRowsTiers(ss);
    if Tier(k.res) {
      TierRowAt(w, k);
      TierRowAt(ss, k);
      if k.ts >= open {
        WindowCell(older, w, open, k);
      } else if k in TierRows(w) {
        TouchedHasValues(w, k);
        var i :| 0 <= i < |w| && Bucket(w[i].ts, k.res) == k.ts;
        assert w[i] in w;
        BucketInWindow(w[i].ts, open, k.res);
      }
    }
  }

  lemma WindowGateRows(w: seq<Sample>, open: int)
    requires forall s :: s in w ==> Bucket(s.ts, RES_10M) == open
    ensures GateRows(w) == map[]
  {
    if w != [] {
      assert w[|w|-1] in w;
      forall i | 0 <= i < |w| ensures Bucket(w[i].ts, RES_10M) == open { assert w[i] in w; }
    }
  }

  /** The window of a restart: a suffix of the stored samples, all in one ten-minute bucket. */
  lemma RestartWindow(ss: seq<Sample>, at: int) returns (older: seq<Sample>, w: seq<Sample>)
    requires Ordered(ss) && ss != [] && SameWindow(ss, at)
    ensures w == From(ss, Bucket(at, RES_10M)) && ss == older + w
    ensures SplitAt(older, w, Bucket(at, RES_10M)) && Ordered(w)
    ensures w != [] && w[|w|-1] == ss[|ss|-1]
    ensures forall s :: s in w ==> Bucket(s.ts, RES_10M) == Bucket(at, RES_10M)
  {
    var open := Bucket(at, RES_10M);
    older := FromIsSuffix(ss, open);
    w := From(ss, open);
    var last := ss[|ss|-1];
    assert last in ss && (w == [] ==> ss == older);
    assert forall i :: 0 <= i < |w| ==> w[i] == ss[|older| + i];
    forall s | s in w ensures Bucket(s.ts, RES_10M) == open {
      var i :| 0 <= i < |w| && w[i] == s;
      assert s == ss[|older| + i] && s.ts <= last.ts;
      BucketMonotone(s.ts, last.ts, RES_10M);
      BucketInWindow(s.ts, open, RES_10M);
    }
  }

  lemma ReplayedPipe(m: Metric, ss: seq<Sample>, t: Tables, at: int)
    requires Ordered(ss) && ss != [] && StandsAlone(ss, m) && SameWindow(ss, at)
    ensures SamePipe(m, Started(ss, t, at).pipe, Uninterrupted(ss).0)
  {
    var open := Bucket(at, RES_10M);
    var older, w := RestartWindow(ss, at);
    PushedAllClosedForm(NoRows, ss, true);
    PushedAllClosedForm(t, w, false);
    var a, b := Started(ss, t, at).pipe, Uninterrupted(ss).0;
    assert Holds(a, w) && Holds(b, older + w);
    ReplayedAcc(m, older, w, a.m1, b.m1, open, RES_1M);
    ReplayedAcc(m, older, w, a.m10, b.m10, open, RES_10M);
    forall s | s in older ensures Bucket(s.ts, RES_10M) < open { BucketBefore(s.ts, open, RES_10M); }
    WindowLog(older, w, open);
  }

  lemma ReplayedTables(m: Metric, ss: seq<Sample>, t: Tables, at: int)
    requires Ordered(ss) && ss != [] && StandsAlone(ss, m) && SameWindow(ss, at)
    requires Survived(m, t, ss, Bucket(at, RES_10M))
    ensures SameRows(m, Started(ss, t, at).t, Uninterrupted(ss).1)
  {
    var open := Bucket(at, RES_10M);
    var older, w := RestartWindow(ss, at);
    FromNoRows(ss);
    PushedAllClosedForm(t, w, false);
    WindowGateRows(w, open);
    MapPlusEmpty(t.gatelog);
    ReplayedRows(m, older, w, t, open);
    assert Started(ss, t, at).t == Tables(TierRows(w) + t.rollup, t.gatelog);
  }

  lemma ReplayedRows(m: Metric, older: seq<Sample>, w: seq<Sample>, t: Tables, open: int)
    requires SplitAt(older, w, open) && Ordered(older + w) && w != [] && StandsAlone(older + w, m)
    requires Survived(m, t, older + w, open)
    ensures SameRows(m, Tables(TierRows(w) + t.rollup, t.gatelog), Tables(TierRows(older + w), GateRows(older + w)))
  {
    var now := TierRows(w) + t.rollup;
    forall k: Key | k.metric == m
      ensures k in now <==> k in TierRows(older + w)
      ensures k in now ==> now[k] == TierRows(older + w)[k]
    {
      ReplayedCell(older, w, t, open, k);
    }
  }

  /** ONE RESTART: replaying the window over what the crash left gives back the collector that
      never died, on every metric that stands alone. */
  lemma ReplayRecovers(m: Metric, ss: seq<Sample>, t: Tables, at: int)
    requires Ordered(ss) && StandsAlone(ss, m) && SameWindow(ss, at)
    requires Survived(m, t, ss, Bucket(at, RES_10M))
    ensures SamePipe(m, Started(ss, t, at).pipe, Uninterrupted(ss).0)
    ensures SameRows(m, Started(ss, t, at).t, Uninterrupted(ss).1)
  {
    if ss == [] {
      assert From(ss, Bucket(at, RES_10M)) == [];
    } else {
      ReplayedPipe(m, ss, t, at);
      ReplayedTables(m, ss, t, at);
    }
  }

  // ------------------------------------------------------------------ whole runs

  /** A row once closed is never touched again. */
  lemma ClosedForGood(ss: seq<Sample>, s: Sample, k: Key)
    requires Ordered(ss + [s]) && ss != [] && Tier(k.res) && k.ts < Bucket(ss[|ss|-1].ts, k.res)
    ensures k in TierRows(ss) <==> k in TierRows(ss + [s])
    ensures k in TierRows(ss) ==> TierRows(ss + [s])[k] == TierRows(ss)[k]
  {
    assert (ss + [s])[|ss|] == s && (ss + [s])[|ss|-1] == ss[|ss|-1];
    BucketMonotone(ss[|ss|-1].ts, s.ts, k.res);
    ItemsSnoc(ss, s);
    ValuesSnoc(Items(ss), Item(s.ts, SamplePoints(Some(ss[|ss|-1]), s)), k);
    TierRowAt(ss, k);
    TierRowAt(ss + [s], k);
  }

  lemma PrefixInWindow(es: seq<Event>)
    requires es != [] && AllInWindow(es)
    ensures AllInWindow(es[..|es|-1]) && InWindow(Run(es[..|es|-1]).samples, es[|es|-1])
  {
    var init := es[..|es|-1];
    forall i | 0 <= i < |init| ensures InWindow(Run(init[..i]).samples, init[i]) {
      assert init[..i] == es[..i] && init[i] == es[i];
    }
  }

  lemma UninterruptedSnoc(ss: seq<Sample>, s: Sample)
    ensures Uninterrupted(ss + [s]) == var (st, t) := Uninterrupted(ss); Pushed(st, t, s, true)
  {
    assert (ss + [s])[..|ss|] == ss;
  }

  lemma OrderedSnoc(ss: seq<Sample>, s: Sample)
    requires Ordered(ss) && Newer(ss, s)
    ensures Ordered(ss + [s])
  {
  }

  /** One torn cell: what a push cut short leaves at a key. */
  lemma TornCell(m: Metric, x: Machine, s: Sample, kept: set<Key>, gateKept: bool, k: Key, open: int)
    requires Ordered(x.samples + [s]) && x.samples != [] && k.metric == m && Tier(k.res)
    requires SamePipe(m, x.pipe, Uninterrupted(x.samples).0) && SameRows(m, x.t, Uninterrupted(x.samples).1)
    requires Aligned(open, RES_10M) && x.samples[|x.samples|-1].ts >= open
    ensures
      var t, all := TornTables(x.pipe, x.t, s, kept, gateKept), x.samples + [s];
      && (k in t.rollup ==> k in TierRows(all) && t.rollup[k] == TierRows(all)[k])
      && (k in TierRows(all) && k.ts < open ==> k in t.rollup)
  {
    var ss, all := x.samples, x.samples + [s];
    var last := ss[|ss|-1];
    assert Ordered(ss) by { assert forall i :: 0 <= i < |ss| ==> all[i] == ss[i]; }
    FromNoRows(ss);
    FromNoRows(all);
    UninterruptedSnoc(ss, s);
    PushedSame(m, x.pipe, x.t, Uninterrupted(ss).0, Uninterrupted(ss).1, s);
    BucketInWindow(last.ts, open, k.res);
    TierRowAt(ss, k);
    if k.ts < Bucket(last.ts, k.res) {
      ClosedForGood(ss, s, k);
    }
  }

  /** The first sample of all closes nothing, torn or whole. */
  lemma FirstTornSurvives(m: Metric, x: Machine, s: Sample, kept: set<Key>, gateKept: bool, at: int)
    requires x.samples == []
    requires SamePipe(m, x.pipe, Uninterrupted([]).0) && SameRows(m, x.t, Uninterrupted([]).1)
    ensures Survived(m, TornTables(x.pipe, x.t, s, kept, gateKept), [s], Bucket(at, RES_10M))
  {
    assert [] + [s] == [s];
    UninterruptedSnoc([], s);
    PushedSame(m, x.pipe, x.t, Uninterrupted([]).0, Uninterrupted([]).1, s);
    OneSampleCloses(m, s);
  }

  lemma OneSampleCloses(m: Metric, s: Sample)
    ensures Uninterrupted([s]).1 == NoRows
    ensures GateRows([s]) == map[] && forall k: Key :: k !in TierRows([s])
  {
    FromNoRows([s]);
    assert [] + [s] == [s];
    GateBucketsSnoc([], s);
    TierRowsTiers([s]);
    forall k: Key ensures k !in TierRows([s]) {
      if Tier(k.res) {
        TierRowAt([s], k);
        TouchedHasValues([s], k);
      }
    }
    assert TierRows([s]) == map[];
  }

  /** Row by row: nothing wrong, nothing missing from before the window. */
  ghost predicate CellSurvived(t: Table, all: seq<Sample>, open: int, k: Key) {
    && (k in t ==> k in TierRows(all) && t[k] == TierRows(all)[k])
    && (k in TierRows(all) && k.ts < open ==> k in t)
  }

  lemma TornSurvives(m: Metric, x: Machine, s: Sample, kept: set<Key>, gateKept: bool, at: int)
    requires Ordered(x.samples + [s]) && SameWindow(x.samples, s.ts) && SameWindow(x.samples + [s], at)
    requires SamePipe(m, x.pipe, Uninterrupted(x.samples).0) && SameRows(m, x.t, Uninterrupted(x.samples).1)
    ensures Survived(m, TornTables(x.pipe, x.t, s, kept, gateKept), x.samples + [s], Bucket(at, RES_10M))
  {
    if x.samples == [] {
      FirstTornSurvives(m, x, s, kept, gateKept, at);
    } else {
      OrderedParts(x.samples, [s]);
      TornLog(m, x, s, kept, gateKept);
      forall k: Key | k.metric == m
        ensures CellSurvived(TornTables(x.pipe, x.t, s, kept, gateKept).rollup, x.samples + [s], Bucket(at, RES_10M), k)
      {
        TornCellSurvives(m, x, s, kept, gateKept, at, k);
      }
      SurvivedByCells(m, TornTables(x.pipe, x.t, s, kept, gateKept), x.samples + [s], Bucket(at, RES_10M));
    }
  }

  lemma SurvivedByCells(m: Metric, t: Tables, all: seq<Sample>, open: int)
    requires t.gatelog == GateRows(all) && forall k: Key :: k.metric == m ==> CellSurvived(t.rollup, all, open, k)
    ensures Survived(m, t, all, open)
  {
    forall k: Key | k.metric == m
      ensures k in t.rollup ==> k in TierRows(all) && t.rollup[k] == TierRows(all)[k]
      ensures k in TierRows(all) && k.ts < open ==> k in t.rollup
    {
      assert CellSurvived(t.rollup, all, open, k);
    }
  }

  lemma TornCellSurvives(m: Metric, x: Machine, s: Sample, kept: set<Key>, gateKept: bool, at: int, k: Key)
    requires Ordered(x.samples + [s]) && x.samples != [] && SameWindow(x.samples, s.ts) && SameWindow(x.samples + [s], at)
    requires SamePipe(m, x.pipe, Uninterrupted(x.samples).0) && SameRows(m, x.t, Uninterrupted(x.samples).1) && k.metric == m
    ensures CellSurvived(TornTables(x.pipe, x.t, s, kept, gateKept).rollup, x.samples + [s], Bucket(at, RES_10M), k)
  {
    assert (x.samples + [s])[|x.samples|] == s;
    if Tier(k.res) {
      TornCell(m, x, s, kept, gateKept, k, Bucket(at, RES_10M));
    } else {
      TornTiers(m, x, s, kept, gateKept);
      TierRowsTiers(x.samples + [s]);
    }
  }

  /** A push inside a window leaves the gate log as it was, torn or whole. */
  lemma TornLog(m: Metric, x: Machine, s: Sample, kept: set<Key>, gateKept: bool)
    requires Ordered(x.samples) && Ordered(x.samples + [s]) && x.samples != [] && SameWindow(x.samples, s.ts)
    requires SamePipe(m, x.pipe, Uninterrupted(x.samples).0) && SameRows(m, x.t, Uninterrupted(x.samples).1)
    ensures TornTables(x.pipe, x.t, s, kept, gateKept).gatelog == GateRows(x.samples + [s])
  {
    var ss := x.samples;
    FromNoRows(ss);
    FromNoRows(ss + [s]);
    UninterruptedSnoc(ss, s);
    PushedSame(m, x.pipe, x.t, Uninterrupted(ss).0, Uninterrupted(ss).1, s);
    GateRowsSameBucket(ss, s);
  }

  lemma TornTiers(m: Metric, x: Machine, s: Sample, kept: set<Key>, gateKept: bool)
    requires Ordered(x.samples + [s])
    requires SamePipe(m, x.pipe, Uninterrupted(x.samples).0) && SameRows(m, x.t, Uninterrupted(x.samples).1)
    ensures forall k: Key :: k.metric == m && k in TornTables(x.pipe, x.t, s, kept, gateKept).rollup ==> Tier(k.res)
  {
    var ss, all := x.samples, x.samples + [s];
    FromNoRows(all);
    UninterruptedSnoc(ss, s);
    PushedSame(m, x.pipe, x.t, Uninterrupted(ss).0, Uninterrupted(ss).1, s);
    TierRowsTiers(all);
  }

  /** RESTART TRANSPARENCY, for every run of polls, deaths between polls and deaths inside a push
      that closes no window, each restart in the window of the last sample: the collector ends with
      the accumulators, the rollup rows and the gate log of the one that never died, for every
      metric that stands alone. */
  lemma {:induction false} RestartTransparency(es: seq<Event>, m: Metric)
    requires AllInWindow(es) && StandsAlone(Run(es).samples, m)
    ensures Ordered(Run(es).samples)
    ensures SamePipe(m, Run(es).pipe, Uninterrupted(Run(es).samples).0)
    ensures SameRows(m, Run(es).t, Uninterrupted(Run(es).samples).1)
  {
    if es != [] {
      var init, e := es[..|es|-1], es[|es|-1];
      PrefixInWindow(es);
      var x, y := Run(init), Run(es);
      assert y == Stepped(x, e);
      assert StandsAlone(x.samples, m) by { assert forall s :: s in x.samples ==> s in y.samples; }
      RestartTransparency(init, m);
      match e
      case Polled(s) =>
        OrderedSnoc(x.samples, s);
        UninterruptedSnoc(x.samples, s);
        PushedSame(m, x.pipe, x.t, Uninterrupted(x.samples).0, Uninterrupted(x.samples).1, s);
      case Died(at) =>
        FromNoRows(x.samples);
        ReplayRecovers(m, x.samples, x.t, at);
      case Torn(s, kept, gateKept, at) =>
        OrderedSnoc(x.samples, s);
        TornSurvives(m, x, s, kept, gateKept, at);
        ReplayRecovers(m, x.samples + [s], TornTables(x.pipe, x.t, s, kept, gateKept), at);
    }
  }

  // ------------------------------------------------------------------ exactly when it is lost

  lemma OrderedParts(a: seq<Sample>, b: seq<Sample>)
    requires Ordered(a + b)
    ensures Ordered(a) && Ordered(b)
  {
    assert forall i :: 0 <= i < |a| ==> (a + b)[i] == a[i];
    assert forall i :: 0 <= i < |b| ==> (a + b)[|a| + i] == b[i];
  }

  lemma {:induction false} HoldsOn(st: PipeState, t: Tables, a: seq<Sample>, b: seq<Sample>)
    requires Ordered(a + b) && Holds(st, a)
    ensures Holds(PushedAll(st, t, b, true).0, a + b)
  {
    if b == [] {
      assert a + b == a;
    } else {
      var init, s := b[..|b|-1], b[|b|-1];
      assert a + b == (a + init) + [s];
      OrderedParts(a + init, [s]);
      HoldsOn(st, t, a, init);
      var (st1, t1) := PushedAll(st, t, init, true);
      HoldsStep(a + init, s, st1, t1, true);
    }
  }

  /** Pushing on from a pipeline that holds `a`: exactly the buckets closed since are written. */
  lemma {:induction false} PushedOn(st: PipeState, t: Tables, a: seq<Sample>, b: seq<Sample>, k: Key)
    requires Ordered(a + b) && Holds(st, a) && Tier(k.res) && k !in TierRows(a)
    ensures k in TierRows(a + b) ==> k in PushedAll(st, t, b, true).1.rollup && PushedAll(st, t, b, true).1.rollup[k] == TierRows(a + b)[k]
    ensures k !in TierRows(a + b) ==> (k in PushedAll(st, t, b, true).1.rollup <==> k in t.rollup)
  {
    if b == [] {
      assert a + b == a;
    } else {
      var init, s := b[..|b|-1], b[|b|-1];
      assert a + b == (a + init) + [s];
      OrderedParts(a + init, [s]);
      PushedOn(st, t, a, init, k);
      HoldsOn(st, t, a, init);
      var (st1, t1) := PushedAll(st, t, init, true);
      PushedOnStep(a + init, s, st1, t1, k);
    }
  }

  lemma PushedOnStep(ss: seq<Sample>, s: Sample, st: PipeState, t: Tables, k: Key)
    requires Ordered(ss + [s]) && Holds(st, ss) && Tier(k.res)
    requires k in TierRows(ss) ==> k in t.rollup && t.rollup[k] == TierRows(ss)[k]
    ensures
      var t' := Pushed(st, t, s, true).1.rollup;
      && (k in TierRows(ss + [s]) ==> k in t' && t'[k] == TierRows(ss + [s])[k])
      && (k !in TierRows(ss + [s]) ==> k !in TierRows(ss) && (k in t' <==> k in t.rollup) && (k in t' ==> t'[k] == t.rollup[k]))
  {
    var points := SamplePoints(st.prev, s);
    var d1, d10 := Add(RES_1M, st.m1, s.ts, points).1, Add(RES_10M, st.m10, s.ts, points).1;
    TierRowsSnoc(ss, s, st);
    EmittedTier(RES_1M, st.m1, s.ts, points);
    EmittedTier(RES_10M, st.m10, s.ts, points);
    ClosedRowsTier(Items(ss), RES_1M);
    ClosedRowsTier(Items(ss), RES_10M);
    WriteDoneIsOverlay(t.rollup, d1, true);
    WriteDoneIsOverlay(t.rollup + Emitted(d1), d10, true);
  }

  /** The rows of the last buckets: closed by a sample of a later window, if anything is in them. */
  lemma {:induction false} OpenRowClosedByNext(ss: seq<Sample>, s: Sample, k: Key)
    requires Ordered(ss + [s]) && ss != [] && !SameWindow(ss, s.ts) && Tier(k.res) && k.ts == Bucket(ss[|ss|-1].ts, k.res)
    ensures k in TierRows(ss + [s]) <==> Touched(ss, k)
    ensures k !in TierRows(ss)
  {
    var all, last := ss + [s], ss[|ss|-1];
    assert all[|ss|] == s && all[|ss|-1] == last;
    LaterWindowLaterBucket(last.ts, s.ts, k.res);
    TouchedHasValues(ss, k);
    ItemsSnoc(ss, s);
    ValuesSnoc(Items(ss), Item(s.ts, SamplePoints(Some(last), s)), k);
    TierRowAt(all, k);
    TierRowAt(ss, k);
  }

  lemma LaterWindowLaterBucket(a: int, b: int, res: int)
    requires Tier(res) && a <= b && Bucket(a, RES_10M) != Bucket(b, RES_10M)
    ensures Bucket(a, res) < Bucket(b, res)
  {
    BucketMonotone(a, b, RES_10M);
    MinuteInWindow(b);
  }

  lemma NothingToReplay(ss: seq<Sample>, t: Tables, at: int)
    requires Ordered(ss) && ss != [] && ss[|ss|-1].ts <= at && !SameWindow(ss, at)
    ensures Started(ss, t, at) == Machine(ss, FreshPipe, t)
  {
    var last := ss[|ss|-1];
    BucketMonotone(last.ts, at, RES_10M);
    forall x | x in ss ensures x.ts < Bucket(at, RES_10M) {
      var i :| 0 <= i < |ss| && ss[i] == x;
      assert x.ts <= last.ts;
    }
    NoneFrom(ss, Bucket(at, RES_10M));
  }

  /** A RESTART IN A LATER WINDOW, exactly: the open row of either tier, which the collector that
      never died writes when the next window begins if anything is in it, is then written by the
      restarted one if and only if the restart still fell in its window. */
  lemma {:induction false} LateRestartLosesTheOpenRow(ss: seq<Sample>, at: int, s: Sample, k: Key)
    requires Ordered(ss + [s]) && ss != [] && StandsAlone(ss, k.metric)
    requires ss[|ss|-1].ts <= at <= s.ts && !SameWindow(ss, s.ts)
    requires Tier(k.res) && k.ts == Bucket(ss[|ss|-1].ts, k.res)
    ensures
      var reborn := Started(ss, Uninterrupted(ss).1, at);
      && (k in Uninterrupted(ss + [s]).1.rollup <==> Touched(ss, k))
      && (k in Pushed(reborn.pipe, reborn.t, s, true).1.rollup <==> Touched(ss, k) && SameWindow(ss, at))
  {
    OrderedParts(ss, [s]);
    FromNoRows(ss);
    FromNoRows(ss + [s]);
    OpenRowClosedByNext(ss, s, k);
    var dead := Uninterrupted(ss).1;
    var reborn := Started(ss, dead, at);
    if SameWindow(ss, at) {
      ReplayRecovers(k.metric, ss, dead, at);
      UninterruptedSnoc(ss, s);
      PushedSame(k.metric, reborn.pipe, reborn.t, Uninterrupted(ss).0, dead, s);
    } else {
      NothingToReplay(ss, dead, at);
      WriteDoneIsOverlay(dead.rollup, None, true);
    }
  }

  lemma {:induction false} ValuesCons(x: Item, items: seq<Item>, k: Key)
    requires Tier(k.res)
    ensures Values([x] + items, k) ==
            (if Bucket(x.ts, k.res) == k.ts && k.metric in x.points then [x.points[k.metric]] else []) + Values(items, k)
  {
    if items == [] {
      assert [x] + items == [x] && [x][..0] == [];
    } else {
      assert ([x] + items)[..|items|] == [x] + items[..|items|-1];
      ValuesCons(x, items[..|items|-1], k);
    }
  }

  /** Rows of two lists that differ in at most a first value are equal only for equal lists. */
  lemma {:induction false} FirstValueShows(a: seq<real>, b: seq<real>, rest: seq<real>)
    requires |a| <= 1 && |b| <= 1 && a + rest != [] && b + rest != []
    ensures ToRow(Fold(a + rest)) == ToRow(Fold(b + rest)) <==> a == b
  {
    FoldCountsAndSums(a + rest);
    FoldCountsAndSums(b + rest);
    RowRoundTrip(Fold(a + rest));
    RowRoundTrip(Fold(b + rest));
    SumConcat(a, rest);
    SumConcat(b, rest);
    if ToRow(Fold(a + rest)) == ToRow(Fold(b + rest)) {
      assert |a + rest| == |b + rest|;
      assert Sum(a) == Sum(b);
      if a != [] {
        assert a[..0] == [] && b[..0] == [];
        assert Sum(a) == a[0] && Sum(b) == b[0];
      }
    }
  }

  function PointOf(points: Points, m: Metric): seq<real> {
    if m in points then [points[m]] else []
  }

  lemma {:induction false} ItemsOfSplit(older: seq<Sample>, w: seq<Sample>)
    requires w != []
    ensures
      var prev := if older == [] then None else Some(older[|older|-1]);
      Items(older + w) == Items(older) + [Item(w[0].ts, SamplePoints(prev, w[0]))] + Items(w)[1..]
    ensures Items(w)[0] == Item(w[0].ts, SamplePoints(None, w[0]))
  {
    var all, items := older + w, Items(older + w);
    forall i | 0 <= i < |older| ensures items[i] == Items(older)[i] {
      assert all[i] == older[i];
    }
    forall i | |older| < i < |all| ensures items[i] == Items(w)[i - |older|] {
      assert all[i] == w[i - |older|] && all[i-1] == w[i - |older| - 1];
    }
    assert all[|older|] == w[0];
  }

  /** What the first sample of a window puts into one bucket. */
  function FirstPoint(prev: Option<Sample>, s: Sample, k: Key): seq<real>
    requires Tier(k.res)
  {
    if Bucket(s.ts, k.res) == k.ts then PointOf(SamplePoints(prev, s), k.metric) else []
  }

  /** A bucket of the window, with and without the memory of the sample before it. */
  lemma {:induction false} WindowRowValues(older: seq<Sample>, w: seq<Sample>, k: Key)
    requires w != [] && Tier(k.res) && forall s :: s in older ==> s.ts < k.ts
    ensures
      var prev := if older == [] then None else Some(older[|older|-1]);
      var rest := Values(Items(w)[1..], k);
      && Values(Items(older + w), k) == FirstPoint(prev, w[0], k) + rest
      && Values(Items(w), k) == FirstPoint(None, w[0], k) + rest
  {
    var prev := if older == [] then None else Some(older[|older|-1]);
    var x, y, rest := Items(w)[0], Item(w[0].ts, SamplePoints(prev, w[0])), Items(w)[1..];
    ItemsOfSplit(older, w);
    assert Items(w) == [] + [x] + rest;
    forall i | 0 <= i < |Items(older)| ensures Items(older)[i].ts < k.ts { assert older[i] in older; }
    ValuesOfParts(Items(older), y, rest, k);
    ValuesOfParts([], x, rest, k);
  }

  lemma {:induction false} ValuesOfParts(older: seq<Item>, first: Item, rest: seq<Item>, k: Key)
    requires Tier(k.res) && forall i :: 0 <= i < |older| ==> older[i].ts < k.ts
    ensures Values(older + [first] + rest, k) ==
            (if Bucket(first.ts, k.res) == k.ts then PointOf(first.points, k.metric) else []) + Values(rest, k)
  {
    assert older + [first] + rest == older + ([first] + rest);
    ValuesOfOlder(older, [first] + rest, k);
    ValuesCons(first, rest, k);
  }

  lemma {:induction false} ValuesOfOlder(older: seq<Item>, items: seq<Item>, k: Key)
    requires Tier(k.res) && forall i :: 0 <= i < |older| ==> older[i].ts < k.ts
    ensures Values(older + items, k) == Values(items, k)
  {
    if items == [] {
      assert older + items == older;
      NothingSeen(older, k);
    } else {
      assert (older + items)[..|older + items|-1] == older + items[..|items|-1];
      ValuesOfOlder(older, items[..|items|-1], k);
    }
  }

  /** The cell holds the fold of these raw values, or nothing when there are none. */
  ghost predicate CellIs(t: Table, k: Key, vs: seq<real>) {
    (k in t <==> vs != []) && (k in t && vs != [] ==> t[k] == ToRow(Fold(vs)))
  }

  ghost predicate SameCell(t: Table, u: Table, k: Key) {
    (k in t <==> k in u) && (k in t && k in u ==> t[k] == u[k])
  }

  lemma CellsDifferInFirst(t: Table, u: Table, k: Key, a: seq<real>, b: seq<real>, rest: seq<real>)
    requires |a| <= 1 && |b| <= 1 && CellIs(t, k, b + rest) && CellIs(u, k, a + rest)
    ensures SameCell(t, u, k) <==> a == b
  {
    if a + rest != [] && b + rest != [] {
      FirstValueShows(a, b, rest);
    }
  }

  lemma {:induction false} ReferenceCell(ss: seq<Sample>, k: Key)
    requires Ordered(ss) && ss != [] && Tier(k.res) && k.ts < Bucket(ss[|ss|-1].ts, k.res)
    ensures CellIs(Uninterrupted(ss).1.rollup, k, Values(Items(ss), k))
  {
    FromNoRows(ss);
    TierRowAt(ss, k);
  }

  lemma {:induction false} CellPushedOn(st: PipeState, t: Tables, w: seq<Sample>, more: seq<Sample>, k: Key)
    requires Ordered(w + more) && w != [] && more != [] && Holds(st, w) && Tier(k.res) && k !in t.rollup
    requires Bucket(w[|w|-1].ts, k.res) <= k.ts < Bucket(more[|more|-1].ts, k.res)
    ensures CellIs(PushedAll(st, t, more, true).1.rollup, k, Values(Items(w + more), k))
  {
    assert (w + more)[|w + more|-1] == more[|more|-1];
    TierRowAt(w, k);
    PushedOn(st, t, w, more, k);
    TierRowAt(w + more, k);
  }

  /** A row already closed in the window is not written again. */
  lemma {:induction false} ClosedNotWrittenAgain(st: PipeState, t: Tables, w: seq<Sample>, more: seq<Sample>, k: Key)
    requires Ordered(w + more) && w != [] && Holds(st, w) && Tier(k.res) && k.ts < Bucket(w[|w|-1].ts, k.res)
    ensures SameCell(PushedAll(st, t, more, true).1.rollup, t.rollup, k)
  {
    if more != [] {
      var init, s := more[..|more|-1], more[|more|-1];
      assert w + more == (w + init) + [s];
      OrderedParts(w + init, [s]);
      ClosedNotWrittenAgain(st, t, w, init, k);
      HoldsOn(st, t, w, init);
      assert (w + init)[|w|-1] == w[|w|-1];
      BucketMonotone(w[|w|-1].ts, (w + init)[|w + init|-1].ts, k.res);
      var (st1, t1) := PushedAll(st, t, init, true);
      OpenOnlyWritten(w + init, s, st1, t1, k);
    }
  }

  /** One push writes rows of the open buckets only. */
  lemma {:induction false} OpenOnlyWritten(ss: seq<Sample>, s: Sample, st: PipeState, t: Tables, k: Key)
    requires ss != [] && Holds(st, ss) && Tier(k.res) && k.ts != Bucket(ss[|ss|-1].ts, k.res)
    ensures SameCell(Pushed(st, t, s, true).1.rollup, t.rollup, k)
  {
    var points := SamplePoints(st.prev, s);
    var d1, d10 := Add(RES_1M, st.m1, s.ts, points).1, Add(RES_10M, st.m10, s.ts, points).1;
    EmittedAtOpen(RES_1M, st.m1, s.ts, points);
    EmittedAtOpen(RES_10M, st.m10, s.ts, points);
    WriteDoneIsOverlay(t.rollup, d1, true);
    WriteDoneIsOverlay(t.rollup + Emitted(d1), d10, true);
  }

  lemma EmittedAtOpen(res: int, st: RollerState, ts: int, points: Points)
    requires Tier(res)
    ensures forall k :: k in Emitted(Add(res, st, ts, points).1) ==> k.res == res && st.bucket == Some(k.ts)
  {
  }

  lemma {:induction false} SplitOfWindow(older: seq<Sample>, w: seq<Sample>, at: int)
    requires Ordered(older + w) && w != [] && w == From(older + w, Bucket(at, RES_10M)) && SameWindow(w, at)
    ensures SplitAt(older, w, Bucket(at, RES_10M)) && Ordered(w)
  {
    assert (older + w)[|older + w|-1] == w[|w|-1];
    var older', w' := RestartWindow(older + w, at);
    assert |older| == |older'|;
    assert older == (older + w)[..|older|] && older' == (older + w)[..|older|];
  }

  /** A row that was stored when the collector died comes out as if it had not died. */
  lemma {:induction false} StoredRowStays(older: seq<Sample>, w: seq<Sample>, at: int, more: seq<Sample>, k: Key)
    requires Ordered(older + w + more) && w != [] && more != [] && Tier(k.res)
    requires w == From(older + w, Bucket(at, RES_10M)) && SameWindow(w, at)
    requires k.ts < Bucket(w[|w|-1].ts, k.res) && k in TierRows(older + w)
    ensures
      var reborn := Started(older + w, Uninterrupted(older + w).1, at);
      SameCell(PushedAll(reborn.pipe, reborn.t, more, true).1.rollup, Uninterrupted(older + w + more).1.rollup, k)
  {
    var ss := older + w;
    assert ss[|ss|-1] == w[|w|-1];
    OrderedParts(ss, more);
    assert ss + more == older + (w + more);
    OrderedParts(older, w + more);
    OrderedParts(w, more);
    FromNoRows(ss);
    FromNoRows(ss + more);
    PushedAllClosedForm(Uninterrupted(ss).1, w, false);
    var reborn := Started(ss, Uninterrupted(ss).1, at);
    ClosedNotWrittenAgain(reborn.pipe, reborn.t, w, more, k);
    ClosedForEver(ss, more, k);
  }

  lemma {:induction false} ClosedForEver(ss: seq<Sample>, more: seq<Sample>, k: Key)
    requires Ordered(ss + more) && ss != [] && Tier(k.res) && k.ts < Bucket(ss[|ss|-1].ts, k.res)
    ensures SameCell(TierRows(ss), TierRows(ss + more), k)
  {
    if more == [] {
      assert ss + more == ss;
    } else {
      var init, s := more[..|more|-1], more[|more|-1];
      assert ss + more == (ss + init) + [s];
      OrderedParts(ss + init, [s]);
      ClosedForEver(ss, init, k);
      assert (ss + init)[|ss|-1] == ss[|ss|-1];
      BucketMonotone(ss[|ss|-1].ts, (ss + init)[|ss + init|-1].ts, k.res);
      ClosedForGood(ss + init, s, k);
    }
  }

  /** A row closed but not stored when the collector died holds nothing, before and after. */
  lemma {:induction false} EmptyRowStays(older: seq<Sample>, w: seq<Sample>, at: int, more: seq<Sample>, k: Key)
    requires Ordered(older + w + more) && w != [] && more != [] && Tier(k.res)
    requires w == From(older + w, Bucket(at, RES_10M)) && SameWindow(w, at)
    requires Bucket(at, RES_10M) <= k.ts < Bucket(w[|w|-1].ts, k.res) && k !in TierRows(older + w)
    ensures
      var reborn := Started(older + w, Uninterrupted(older + w).1, at);
      var prev := if older == [] then None else Some(older[|older|-1]);
      && k !in PushedAll(reborn.pipe, reborn.t, more, true).1.rollup
      && k !in Uninterrupted(older + w + more).1.rollup
      && FirstPoint(prev, w[0], k) == FirstPoint(None, w[0], k)
  {
    var ss := older + w;
    assert ss[|ss|-1] == w[|w|-1];
    OrderedParts(ss, more);
    assert ss + more == older + (w + more);
    OrderedParts(older, w + more);
    OrderedParts(w, more);
    FromNoRows(ss);
    FromNoRows(ss + more);
    ClosedForEver(ss, more, k);
    SplitOfWindow(older, w, at);
    NothingInWindow(older, w, k);
    PushedAllClosedForm(Uninterrupted(ss).1, w, false);
    var reborn := Started(ss, Uninterrupted(ss).1, at);
    ClosedNotWrittenAgain(reborn.pipe, reborn.t, w, more, k);
  }

  lemma {:induction false} NothingInWindow(older: seq<Sample>, w: seq<Sample>, k: Key)
    requires w != [] && Tier(k.res) && (forall s :: s in older ==> s.ts < k.ts)
    requires k.ts < Bucket(w[|w|-1].ts, k.res) && k !in TierRows(older + w)
    ensures k !in TierRows(w)
    ensures FirstPoint(if older == [] then None else Some(older[|older|-1]), w[0], k) == FirstPoint(None, w[0], k)
  {
    assert (older + w)[|older + w|-1] == w[|w|-1];
    TierRowAt(older + w, k);
    TierRowAt(w, k);
    WindowRowValues(older, w, k);
  }

  /** A row still open when the collector died: what each collector makes of it. */
  lemma {:induction false} OpenRow(older: seq<Sample>, w: seq<Sample>, at: int, more: seq<Sample>, k: Key)
    requires Ordered(older + w + more) && w != [] && more != [] && Tier(k.res)
    requires w == From(older + w, Bucket(at, RES_10M)) && SameWindow(w, at)
    requires Bucket(at, RES_10M) <= k.ts && Bucket(w[|w|-1].ts, k.res) <= k.ts < Bucket(more[|more|-1].ts, k.res)
    ensures
      var reborn := Started(older + w, Uninterrupted(older + w).1, at);
      var prev := if older == [] then None else Some(older[|older|-1]);
      var rest := Values(Items(w + more)[1..], k);
      && CellIs(PushedAll(reborn.pipe, reborn.t, more, true).1.rollup, k, FirstPoint(None, w[0], k) + rest)
      && CellIs(Uninterrupted(older + w + more).1.rollup, k, FirstPoint(prev, w[0], k) + rest)
  {
    assert older + w + more == older + (w + more);
    OrderedParts(older + w, more);
    OrderedParts(older, w + more);
    OrderedParts(w, more);
    assert (older + w)[|older + w|-1] == w[|w|-1] && (w + more)[0] == w[0];
    assert (older + (w + more))[|older + (w + more)|-1] == more[|more|-1];
    SplitOfWindow(older, w, at);
    WindowRowValues(older, w + more, k);
    RebornRow(older + w, w, at, more, k);
    ReferenceCell(older + (w + more), k);
  }

  lemma {:induction false} RebornRow(ss: seq<Sample>, w: seq<Sample>, at: int, more: seq<Sample>, k: Key)
    requires Ordered(ss) && ss != [] && Ordered(w + more) && w != [] && more != [] && ss[|ss|-1] == w[|w|-1] && Tier(k.res)
    requires w == From(ss, Bucket(at, RES_10M))
    requires Bucket(w[|w|-1].ts, k.res) <= k.ts < Bucket(more[|more|-1].ts, k.res)
    ensures
      var reborn := Started(ss, Uninterrupted(ss).1, at);
      CellIs(PushedAll(reborn.pipe, reborn.t, more, true).1.rollup, k, Values(Items(w + more), k))
  {
    OrderedParts(w, more);
    FromNoRows(ss);
    PushedAllClosedForm(Uninterrupted(ss).1, w, false);
    TierRowAt(w, k);
    TierRowAt(ss, k);
    var reborn := Started(ss, Uninterrupted(ss).1, at);
    CellPushedOn(reborn.pipe, reborn.t, w, more, k);
  }

  /** A METRIC DERIVED FROM THE SAMPLE BEFORE, exactly: after a restart inside the window a row of
      that window, in either tier, comes out as if the collector had never died if and only if it
      was stored already, or is not the one the window's first sample falls into, or that sample
      says the same about the metric with and without the sample before it. What a restart can
      cost is that one step, and nothing else. */
  lemma {:induction false} RestartCostsOneStep(older: seq<Sample>, w: seq<Sample>, at: int, more: seq<Sample>, k: Key)
    requires Ordered(older + w + more) && w != [] && more != []
    requires w == From(older + w, Bucket(at, RES_10M)) && SameWindow(w, at)
    requires Tier(k.res) && Bucket(at, RES_10M) <= k.ts < Bucket(more[|more|-1].ts, k.res)
    ensures
      var reborn := Started(older + w, Uninterrupted(older + w).1, at);
      var prev := if older == [] then None else Some(older[|older|-1]);
      SameCell(PushedAll(reborn.pipe, reborn.t, more, true).1.rollup, Uninterrupted(older + w + more).1.rollup, k)
      <==> k in Uninterrupted(older + w).1.rollup || FirstPoint(prev, w[0], k) == FirstPoint(None, w[0], k)
  {
    OrderedParts(older + w, more);
    FromNoRows(older + w);
    if k in TierRows(older + w) {
      TierRowAt(older + w, k);
      assert (older + w)[|older + w|-1] == w[|w|-1];
      StoredRowStays(older, w, at, more, k);
    } else if k.ts < Bucket(w[|w|-1].ts, k.res) {
      EmptyRowStays(older, w, at, more, k);
    } else {
      OpenRow(older, w, at, more, k);
      var reborn := Started(older + w, Uninterrupted(older + w).1, at);
      var prev := if older == [] then None else Some(older[|older|-1]);
      CellsDifferInFirst(PushedAll(reborn.pipe, reborn.t, more, true).1.rollup, Uninterrupted(older + w + more).1.rollup, k,
                         FirstPoint(prev, w[0], k), FirstPoint(None, w[0], k), Values(Items(w + more)[1..], k));
    }
  }
}
