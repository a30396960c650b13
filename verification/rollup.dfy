/** `lss-collector/src/rollup.rs`: every sample is folded into both tiers and the gate log as it
    arrives. */
module Rollup {
  import opened Wrappers
  import opened Series
  import opened Rollers
  import opened Store

  // ------------------------------------------------------------------ the gate log

  type OpenGate = Option<(int, LogDelta)>

  /** The log bucket after one more sample, and the bucket it closes. */
  function GateAdd(g: OpenGate, s: Sample): (OpenGate, OpenGate) {
    var b := Bucket(s.ts, RES_10M);
    if g.Some? && g.value.0 != b then (Some((b, MergeLog(NoLog, s.log))), g)
    else if g.Some? then (Some((b, MergeLog(g.value.1, s.log))), None)
    else (Some((b, MergeLog(NoLog, s.log))), None)
  }

  function WriteGateDone(t: GateTable, done: OpenGate, replace: bool): GateTable {
    if done.Some? then GateWritten(t, done.value.0, done.value.1, replace) else t
  }

  // ------------------------------------------------------------------ one sample

  datatype PipeState = PipeState(m1: RollerState, m10: RollerState, gate: OpenGate, prev: Option<Sample>)

  const FreshPipe := PipeState(Idle, Idle, None, None)

  /** `Pipeline::push` on values (the latency windows are not part of this model). */
  function Pushed(st: PipeState, t: Tables, s: Sample, replace: bool): (PipeState, Tables) {
    var points := SamplePoints(st.prev, s);
    var (m1, d1) := Add(RES_1M, st.m1, s.ts, points);
    var (m10, d10) := Add(RES_10M, st.m10, s.ts, points);
    var (gate, dg) := GateAdd(st.gate, s);
    (PipeState(m1, m10, gate, Some(s)),
     Tables(WriteDone(WriteDone(t.rollup, d1, replace), d10, replace), WriteGateDone(t.gatelog, dg, replace)))
  }

  function PushedAll(st: PipeState, t: Tables, ss: seq<Sample>, replace: bool): (PipeState, Tables) {
    if ss == [] then (st, t)
    else
      var (st1, t1) := PushedAll(st, t, ss[..|ss|-1], replace);
      Pushed(st1, t1, ss[|ss|-1], replace)
  }

  class Pipeline {
    const m1: Roller
    const m10: Roller
    var gate: OpenGate
    var prev: Option<Sample>

    ghost predicate Valid() {
      m1 != m10 && m1.res == RES_1M && m10.res == RES_10M
    }

    ghost function State(): PipeState
      reads this, m1, m10
    {
      PipeState(m1.State(), m10.State(), gate, prev)
    }

    constructor ()
      ensures Valid() && fresh(m1) && fresh(m10) && State() == FreshPipe
    {
      m1 := new Roller(RES_1M);
      m10 := new Roller(RES_10M);
      gate, prev := None, None;
    }

    /** The finished bucket, if one was handed out. */
    method WriteBatch(db: Db, done: Option<Batch>, replace: bool)
      modifies db`rollup
      ensures db.rollup == WriteDone(old(db.rollup), done, replace)
    {
      if done.Some? {
        db.WriteRollup(done.value, replace);
      }
    }

    /** One sample into both tiers and the gate log. */
    method Push(db: Db, sample: Sample, replace: bool)
      requires Valid()
      modifies this, m1, m10, db`rollup, db`gatelog
      ensures (State(), db.Rows()) == Pushed(old(State()), old(db.Rows()), sample, replace)
    {
      var points := SamplePoints(prev, sample);
      var done := m1.AddPoints(sample.ts, points);
      WriteBatch(db, done, replace);
      done := m10.AddPoints(sample.ts, points);
      WriteBatch(db, done, replace);
      var bucket := Bucket(sample.ts, RES_10M);
      if gate.Some? && gate.value.0 != bucket {
        db.WriteGatelog(gate.value.0, gate.value.1, replace);
        gate := None;
      }
      if gate.None? {
        gate := Some((bucket, NoLog));
      }
      gate := Some((gate.value.0, MergeLog(gate.value.1, sample.log)));
      prev := Some(sample);
    }

    /** The samples already stored for the buckets still open: a finished bucket that is already
        in the table is kept. */
    method Replay(db: Db, stored: seq<Sample>)
      requires Valid()
      modifies this, m1, m10, db`rollup, db`gatelog
      ensures (State(), db.Rows()) == PushedAll(old(State()), old(db.Rows()), stored, false)
    {
      var i := 0;
      while i < |stored|
        invariant 0 <= i <= |stored|
        invariant (State(), db.Rows()) == PushedAll(old(State()), old(db.Rows()), stored[..i], false)
      {
        assert stored[..i+1][..i] == stored[..i];
        Push(db, stored[i], false);
        i := i + 1;
      }
      assert stored[..i] == stored;
    }
  }

  // ------------------------------------------------------------------ the reference

  function ItemAt(ss: seq<Sample>, i: nat): Item
    requires i < |ss|
  {
    Item(ss[i].ts, SamplePoints(if i == 0 then None else Some(ss[i-1]), ss[i]))
  }

  /** What the accumulators see of a stream of samples pushed from a fresh start. */
  function Items(ss: seq<Sample>): (items: seq<Item>)
    ensures |items| == |ss|
    ensures forall i :: 0 <= i < |ss| ==> items[i] == ItemAt(ss, i)
  {
    seq(|ss|, i requires 0 <= i < |ss| => ItemAt(ss, i))
  }

  /** Both tiers of a stream: every bucket older than the newest one of its tier. */
  function TierRows(ss: seq<Sample>): Table {
    ClosedRows(Items(ss), RES_1M) + ClosedRows(Items(ss), RES_10M)
  }

  /** Everything logged in one ten-minute bucket. */
  function LogIn(ss: seq<Sample>, b: int): LogDelta {
    if ss == [] then NoLog else
      var rest := LogIn(ss[..|ss|-1], b);
      if Bucket(ss[|ss|-1].ts, RES_10M) == b then MergeLog(rest, ss[|ss|-1].log) else rest
  }

  function GateBuckets(ss: seq<Sample>): set<int> {
    set i | 0 <= i < |ss| :: Bucket(ss[i].ts, RES_10M)
  }

  function GateRowsBefore(ss: seq<Sample>, open: int): (t: GateTable)
    ensures forall b :: b in t <==> b in GateBuckets(ss) && b < open && !EmptyLog(LogIn(ss, b))
    ensures forall b :: b in t ==> t[b] == LogIn(ss, b)
  {
    map b | b in GateBuckets(ss) && b < open && !EmptyLog(LogIn(ss, b)) :: LogIn(ss, b)
  }

  /** The gate-log rows of a stream: every older bucket in which something was logged. */
  function GateRows(ss: seq<Sample>): GateTable {
    if ss == [] then map[] else GateRowsBefore(ss, Bucket(ss[|ss|-1].ts, RES_10M))
  }

  ghost predicate HoldsGate(g: OpenGate, ss: seq<Sample>) {
    if ss == [] then g.None?
    else g == Some((Bucket(ss[|ss|-1].ts, RES_10M), LogIn(ss, Bucket(ss[|ss|-1].ts, RES_10M))))
  }

  /** The state of a pipeline that was pushed exactly `ss` since it was created. */
  ghost predicate Holds(st: PipeState, ss: seq<Sample>) {
    && HoldsOpen(st.m1, Items(ss), RES_1M)
    && HoldsOpen(st.m10, Items(ss), RES_10M)
    && HoldsGate(st.gate, ss)
    && st.prev == if ss == [] then None else Some(ss[|ss|-1])
  }

  function Overlay(t: Tables, ss: seq<Sample>, replace: bool): Tables {
    if replace then Tables(t.rollup + TierRows(ss), t.gatelog + GateRows(ss))
    else Tables(TierRows(ss) + t.rollup, GateRows(ss) + t.gatelog)
  }

  // ------------------------------------------------------------------ refinement

  lemma ItemsInOrder(ss: seq<Sample>)
    requires Ordered(ss)
    ensures InOrder(Items(ss))
  {
  }

  lemma ItemsSnoc(ss: seq<Sample>, s: Sample)
    ensures Items(ss + [s]) == Items(ss) + [Item(s.ts, SamplePoints(if ss == [] then None else Some(ss[|ss|-1]), s))]
  {
  }

  /** Where a batch written over (or under) the older rows commutes with the overlay. */
  lemma MapPlusSwap(a: Table, b: Table)
    requires a.Keys !! b.Keys
    ensures a + b == b + a
  {
  }

  /** Rows of different tiers do not meet. */
  lemma TiersApart(a: Table, b: Table)
    requires forall k :: k in a ==> k.res == RES_1M
    requires forall k :: k in b ==> k.res == RES_10M
    ensures a + b == b + a
  {
    assert a.Keys !! b.Keys by {
      forall k | k in a.Keys ensures k !in b.Keys {
        assert k.res == RES_1M;
      }
    }
    MapPlusSwap(a, b);
  }

  lemma OverTiers(t: Table, c1: Table, c10: Table, b1: Table, b10: Table)
    requires forall k :: k in c1 || k in b1 ==> k.res == RES_1M
    requires forall k :: k in c10 || k in b10 ==> k.res == RES_10M
    ensures t + (c1 + c10) + b1 + b10 == t + (c1 + b1 + (c10 + b10))
  {
    MapPlusAssoc(t, c1 + c10, b1);
    MapPlusAssoc(c1, c10, b1);
    TiersApart(b1, c10);
    MapPlusAssoc(c1, b1, c10);
    MapPlusAssoc(t, c1 + b1 + c10, b10);
    MapPlusAssoc(c1 + b1, c10, b10);
  }

  lemma UnderTiers(t: Table, c1: Table, c10: Table, b1: Table, b10: Table)
    requires forall k :: k in c1 || k in b1 ==> k.res == RES_1M
    requires forall k :: k in c10 || k in b10 ==> k.res == RES_10M
    requires b1.Keys !! c1.Keys && b10.Keys !! c10.Keys
    ensures b10 + (b1 + (c1 + c10 + t)) == c1 + b1 + (c10 + b10) + t
  {
    MapPlusSwap(b1, c1);
    MapPlusSwap(b10, c10);
    MapPlusAssoc(b1, c1 + c10, t);
    MapPlusAssoc(b10, b1 + (c1 + c10), t);
    MapPlusAssoc(b1, c1, c10);
    MapPlusAssoc(b10, c1 + b1, c10);
    TiersApart(c1 + b1, b10);
    MapPlusAssoc(c1 + b1, b10, c10);
  }

  /** What one more sample does to both tiers of the reference. */
  lemma TierRowsSnoc(ss: seq<Sample>, s: Sample, st: PipeState)
    requires Ordered(ss + [s]) && Holds(st, ss)
    ensures
      var points := SamplePoints(st.prev, s);
      var b1, b10 := Emitted(Add(RES_1M, st.m1, s.ts, points).1), Emitted(Add(RES_10M, st.m10, s.ts, points).1);
      var c1, c10 := ClosedRows(Items(ss), RES_1M), ClosedRows(Items(ss), RES_10M);
      && TierRows(ss + [s]) == c1 + b1 + (c10 + b10)
      && b1.Keys !! c1.Keys && b10.Keys !! c10.Keys
  {
    var x := Item(s.ts, SamplePoints(st.prev, s));
    ItemsSnoc(ss, s);
    ItemsInOrder(ss + [s]);
    ClosedRowsStep(Items(ss), x, st.m1, RES_1M);
    ClosedRowsStep(Items(ss), x, st.m10, RES_10M);
  }

  lemma ClosedRowsTier(items: seq<Item>, res: int)
    requires Tier(res)
    ensures forall k :: k in ClosedRows(items, res) ==> k.res == res
  {
  }

  lemma EmittedTier(res: int, st: RollerState, ts: int, points: Points)
    requires Tier(res)
    ensures forall k :: k in Emitted(Add(res, st, ts, points).1) ==> k.res == res
  {
  }

  lemma TierRowsStep(ss: seq<Sample>, s: Sample, st: PipeState, t: Table, replace: bool)
    requires Ordered(ss + [s]) && Holds(st, ss)
    ensures
      var points := SamplePoints(st.prev, s);
      var d1, d10 := Add(RES_1M, st.m1, s.ts, points).1, Add(RES_10M, st.m10, s.ts, points).1;
      var before := if replace then t + TierRows(ss) else TierRows(ss) + t;
      WriteDone(WriteDone(before, d1, replace), d10, replace)
      == if replace then t + TierRows(ss + [s]) else TierRows(ss + [s]) + t
  {
    var points := SamplePoints(st.prev, s);
    var d1, d10 := Add(RES_1M, st.m1, s.ts, points).1, Add(RES_10M, st.m10, s.ts, points).1;
    var c1, c10 := ClosedRows(Items(ss), RES_1M), ClosedRows(Items(ss), RES_10M);
    TierRowsSnoc(ss, s, st);
    ClosedRowsTier(Items(ss), RES_1M);
    ClosedRowsTier(Items(ss), RES_10M);
    EmittedTier(RES_1M, st.m1, s.ts, points);
    EmittedTier(RES_10M, st.m10, s.ts, points);
    var before := if replace then t + TierRows(ss) else TierRows(ss) + t;
    var after1 := WriteDone(before, d1, replace);
    WriteDoneIsOverlay(before, d1, replace);
    WriteDoneIsOverlay(after1, d10, replace);
    if replace {
      OverTiers(t, c1, c10, Emitted(d1), Emitted(d10));
    } else {
      UnderTiers(t, c1, c10, Emitted(d1), Emitted(d10));
    }
  }

  lemma WriteDoneIsOverlay(t: Table, done: Option<Batch>, replace: bool)
    ensures WriteDone(t, done, replace) == if replace then t + Emitted(done) else Emitted(done) + t
  {
  }

  lemma {:induction false} LogInSnoc(ss: seq<Sample>, s: Sample, b: int)
    ensures LogIn(ss + [s], b) == if Bucket(s.ts, RES_10M) == b then MergeLog(LogIn(ss, b), s.log) else LogIn(ss, b)
  {
    assert (ss + [s])[..|ss|] == ss;
  }

  lemma {:induction false} LogInUnseen(ss: seq<Sample>, b: int)
    requires b !in GateBuckets(ss)
    ensures LogIn(ss, b) == NoLog
  {
    if ss != [] {
      var n := |ss| - 1;
      assert Bucket(ss[n].ts, RES_10M) in GateBuckets(ss);
      forall i | 0 <= i < n ensures Bucket(ss[..n][i].ts, RES_10M) in GateBuckets(ss) {
        assert ss[..n][i] == ss[i];
      }
      LogInUnseen(ss[..n], b);
    }
  }

  lemma GateStep(ss: seq<Sample>, s: Sample, g: OpenGate)
    requires Ordered(ss + [s]) && HoldsGate(g, ss)
    ensures HoldsGate(GateAdd(g, s).0, ss + [s])
  {
    var all := ss + [s];
    assert all[|all|-1] == s;
    var b := Bucket(s.ts, RES_10M);
    LogInSnoc(ss, s, b);
    if ss == [] {
    } else if Bucket(ss[|ss|-1].ts, RES_10M) != b {
      assert all[|ss|-1] == ss[|ss|-1];
      BucketMonotone(ss[|ss|-1].ts, s.ts, RES_10M);
      forall i | 0 <= i < |ss| ensures Bucket(ss[i].ts, RES_10M) < b {
        assert all[i] == ss[i];
        BucketMonotone(ss[i].ts, ss[|ss|-1].ts, RES_10M);
      }
      assert b !in GateBuckets(ss);
      LogInUnseen(ss, b);
    }
  }

  lemma GateBucketsSnoc(ss: seq<Sample>, s: Sample)
    ensures GateBuckets(ss + [s]) == GateBuckets(ss) + {Bucket(s.ts, RES_10M)}
  {
    var all := ss + [s];
    assert all[|ss|] == s;
    forall i | 0 <= i < |ss| ensures all[i] == ss[i] {}
    forall x | x in GateBuckets(ss) ensures x in GateBuckets(all) {
      var i :| 0 <= i < |ss| && x == Bucket(ss[i].ts, RES_10M);
      assert x == Bucket(all[i].ts, RES_10M);
    }
  }

  lemma GateBucketsBounded(ss: seq<Sample>)
    requires Ordered(ss) && ss != []
    ensures forall b :: b in GateBuckets(ss) ==> b <= Bucket(ss[|ss|-1].ts, RES_10M)
  {
    forall i | 0 <= i < |ss| ensures Bucket(ss[i].ts, RES_10M) <= Bucket(ss[|ss|-1].ts, RES_10M) {
      BucketMonotone(ss[i].ts, ss[|ss|-1].ts, RES_10M);
    }
  }

  lemma GateRowsSameBucket(ss: seq<Sample>, s: Sample)
    requires ss != [] && Bucket(ss[|ss|-1].ts, RES_10M) == Bucket(s.ts, RES_10M)
    ensures GateRows(ss + [s]) == GateRows(ss)
  {
    assert (ss + [s])[|ss + [s]|-1] == s;
    GateBucketsSnoc(ss, s);
    forall b | b < Bucket(s.ts, RES_10M) ensures LogIn(ss + [s], b) == LogIn(ss, b) {
      LogInSnoc(ss, s, b);
    }
  }

  lemma {:induction false} GateRowsNewBucket(ss: seq<Sample>, s: Sample)
    requires Ordered(ss) && ss != [] && Bucket(ss[|ss|-1].ts, RES_10M) < Bucket(s.ts, RES_10M)
    ensures
      var open := Bucket(ss[|ss|-1].ts, RES_10M);
      && open !in GateRows(ss)
      && GateRows(ss + [s]) == if EmptyLog(LogIn(ss, open)) then GateRows(ss) else GateRows(ss)[open := LogIn(ss, open)]
  {
    GateBucketsBounded(ss);
    var open := Bucket(ss[|ss|-1].ts, RES_10M);
    var t, u := GateRows(ss), GateRows(ss + [s]);
    forall b ensures b in u <==> b in t || (b == open && !EmptyLog(LogIn(ss, b))) {
      GateRowThen(ss, s, b);
    }
    forall b | b in u ensures u[b] == LogIn(ss, b) {
      GateRowThen(ss, s, b);
    }
  }

  lemma {:induction false} GateRowThen(ss: seq<Sample>, s: Sample, b: int)
    requires Ordered(ss) && ss != [] && Bucket(ss[|ss|-1].ts, RES_10M) < Bucket(s.ts, RES_10M)
    ensures
      var open := Bucket(ss[|ss|-1].ts, RES_10M);
      && (b in GateRows(ss + [s]) <==> b in GateRows(ss) || (b == open && !EmptyLog(LogIn(ss, b))))
      && (b in GateRows(ss + [s]) ==> GateRows(ss + [s])[b] == LogIn(ss, b))
  {
    assert (ss + [s])[|ss + [s]|-1] == s;
    GateBucketsSnoc(ss, s);
    GateBucketsBounded(ss);
    assert Bucket(ss[|ss|-1].ts, RES_10M) in GateBuckets(ss);
    LogInSnoc(ss, s, b);
  }

  lemma GateOverlay(t: GateTable, g: GateTable, b: int, log: LogDelta, replace: bool)
    requires b !in g
    ensures GateWritten(if replace then t + g else g + t, b, log, replace)
            == var g' := if EmptyLog(log) then g else g[b := log]; if replace then t + g' else g' + t
  {
  }

  lemma GateRowsStep(ss: seq<Sample>, s: Sample, g: OpenGate, t: GateTable, replace: bool)
    requires Ordered(ss + [s]) && HoldsGate(g, ss)
    ensures WriteGateDone(if replace then t + GateRows(ss) else GateRows(ss) + t, GateAdd(g, s).1, replace)
            == if replace then t + GateRows(ss + [s]) else GateRows(ss + [s]) + t
  {
    if ss == [] {
      GateBucketsSnoc(ss, s);
      assert (ss + [s])[0] == s;
      assert GateRows(ss + [s]) == map[];
    } else {
      assert (ss + [s])[|ss|-1] == ss[|ss|-1] && (ss + [s])[|ss|] == s;
      BucketMonotone(ss[|ss|-1].ts, s.ts, RES_10M);
      var open := Bucket(ss[|ss|-1].ts, RES_10M);
      if open == Bucket(s.ts, RES_10M) {
        GateRowsSameBucket(ss, s);
      } else {
        assert Ordered(ss) by { assert forall i :: 0 <= i < |ss| ==> (ss + [s])[i] == ss[i]; }
        GateRowsNewBucket(ss, s);
        GateOverlay(t, GateRows(ss), open, LogIn(ss, open), replace);
      }
    }
  }

  lemma HoldsStep(ss: seq<Sample>, s: Sample, st: PipeState, t: Tables, replace: bool)
    requires Ordered(ss + [s]) && Holds(st, ss)
    ensures Holds(Pushed(st, t, s, replace).0, ss + [s])
  {
    ItemsSnoc(ss, s);
    ItemsInOrder(ss + [s]);
    var x := Item(s.ts, SamplePoints(st.prev, s));
    HoldsOpenStep(Items(ss), x, st.m1, RES_1M);
    HoldsOpenStep(Items(ss), x, st.m10, RES_10M);
    GateStep(ss, s, st.gate);
  }

  /** THE CLOSED FORM: pushing an in-order stream through a fresh pipeline writes exactly the
      reference rows - over what is there with `replace`, under it without. */
  lemma {:induction false} PushedAllClosedForm(t: Tables, ss: seq<Sample>, replace: bool)
    requires Ordered(ss)
    ensures Holds(PushedAll(FreshPipe, t, ss, replace).0, ss)
    ensures PushedAll(FreshPipe, t, ss, replace).1 == Overlay(t, ss, replace)
  {
    if ss == [] {
    } else {
      var init, s := ss[..|ss|-1], ss[|ss|-1];
      assert ss == init + [s];
      PushedAllClosedForm(t, init, replace);
      var (st1, t1) := PushedAll(FreshPipe, t, init, replace);
      HoldsStep(init, s, st1, t1, replace);
      TierRowsStep(init, s, st1, t.rollup, replace);
      GateRowsStep(init, s, st1.gate, t.gatelog, replace);
    }
  }

  /** One cell of the reference tables, read back. */
  lemma {:induction false} TierRowAt(ss: seq<Sample>, k: Key)
    requires Tier(k.res) && ss != []
    ensures k in TierRows(ss) <==> Values(Items(ss), k) != [] && k.ts < Bucket(ss[|ss|-1].ts, k.res)
    ensures k in TierRows(ss) ==> TierRows(ss)[k] == ToRow(Fold(Values(Items(ss), k))) && FromRow(TierRows(ss)[k]) == Fold(Values(Items(ss), k))
  {
    var items := Items(ss);
    ClosedRowsTier(items, RES_1M);
    ClosedRowsTier(items, RES_10M);
    SeenMeaning(items, k);
    assert k in TierRows(ss) <==> k in ClosedRows(items, k.res);
    if k in TierRows(ss) {
      assert TierRows(ss)[k] == ClosedRows(items, k.res)[k];
      FoldCountsAndSums(Values(items, k));
      RowRoundTrip(Fold(Values(items, k)));
    }
  }

  lemma TierRowsTiers(ss: seq<Sample>)
    ensures forall k :: k in TierRows(ss) ==> Tier(k.res)
  {
    ClosedRowsTier(Items(ss), RES_1M);
    ClosedRowsTier(Items(ss), RES_10M);
  }

  lemma {:induction false} FromNoRows(ss: seq<Sample>)
    requires Ordered(ss)
    ensures PushedAll(FreshPipe, NoRows, ss, true).1 == Tables(TierRows(ss), GateRows(ss))
  {
    PushedAllClosedForm(NoRows, ss, true);
    MapPlusEmpty(TierRows(ss));
    MapPlusEmpty(GateRows(ss));
  }

  /** Some sample of the stream has the metric in that bucket. */
  ghost predicate Touched(ss: seq<Sample>, k: Key)
    requires Tier(k.res)
  {
    exists i :: 0 <= i < |ss| && Bucket(ss[i].ts, k.res) == k.ts && k.metric in ItemAt(ss, i).points
  }

  lemma {:induction false} TouchedHasValues(ss: seq<Sample>, k: Key)
    requires Tier(k.res)
    ensures Touched(ss, k) <==> Values(Items(ss), k) != []
  {
    SeenMeaning(Items(ss), k);
    SeenTouched(Items(ss), k);
    assert Touched(ss, k) <==> exists i :: 0 <= i < |ss| && Hits(Items(ss)[i], k);
  }

  /** ROLLUP REFINEMENT, as a reader of the table sees it: after any in-order stream each tier
      holds a row for exactly the (metric, bucket) pairs some sample touched in a bucket older
      than the newest sample's, and the row reads back as the summary of that bucket's raw
      points. */
  lemma {:induction false} RollupRefinement(ss: seq<Sample>)
    requires Ordered(ss) && ss != []
    ensures
      var t := PushedAll(FreshPipe, NoRows, ss, true).1.rollup;
      && (forall k: Key :: k in t <==> Tier(k.res) && k.ts < Bucket(ss[|ss|-1].ts, k.res) && Touched(ss, k))
      && (forall k :: k in t ==> Tier(k.res) && Summarises(FromRow(t[k]), Values(Items(ss), k)))
  {
    FromNoRows(ss);
    TierRowsTiers(ss);
    var t := TierRows(ss);
    forall k: Key
      ensures k in t <==> Tier(k.res) && k.ts < Bucket(ss[|ss|-1].ts, k.res) && Touched(ss, k)
    {
      if Tier(k.res) {
        TierRowAt(ss, k);
        TouchedHasValues(ss, k);
      }
    }
    forall k | k in t ensures Summarises(FromRow(t[k]), Values(Items(ss), k)) {
      TierRowAt(ss, k);
      FoldSummarises(Values(Items(ss), k));
    }
  }

  /** The stored minutes `w`, `w + 60`, ... of one metric, merged in order. */
  function MergedMinutes(t: Table, m: Metric, w: int, minutes: nat): Option<Agg> {
    if minutes == 0 then None else
      var before := MergedMinutes(t, m, w, minutes - 1);
      var k := Key(RES_1M, m, w + 60 * (minutes - 1));
      if k !in t then before
      else if before.None? then Some(FromRow(t[k])) else Some(Merge(before.value, FromRow(t[k])))
  }

  /** The first minutes of a bucket, merged, are the fold of their raw values. */
  ghost predicate MinutesDone(ss: seq<Sample>, m: Metric, w: int, minutes: nat) {
    var vs := ValuesIn(Items(ss), m, w, w + 60 * minutes);
    MergedMinutes(TierRows(ss), m, w, minutes) == if vs == [] then None else Some(Fold(vs))
  }

  lemma {:induction false} MinutesFold(ss: seq<Sample>, m: Metric, w: int, minutes: nat)
    requires Ordered(ss) && ss != [] && Aligned(w, RES_10M) && minutes <= 10
    requires w + 600 <= Bucket(ss[|ss|-1].ts, RES_10M)
    ensures MinutesDone(ss, m, w, minutes)
  {
    if minutes == 0 {
      ItemsInOrder(ss);
      NoValues(Items(ss), m, w, w);
    } else {
      MinutesFold(ss, m, w, minutes - 1);
      MinutesFoldStep(ss, m, w, minutes - 1);
    }
  }

  lemma {:induction false} MinutesFoldStep(ss: seq<Sample>, m: Metric, w: int, minutes: nat)
    requires Ordered(ss) && ss != [] && Aligned(w, RES_10M) && minutes < 10
    requires w + 600 <= Bucket(ss[|ss|-1].ts, RES_10M) && MinutesDone(ss, m, w, minutes)
    ensures MinutesDone(ss, m, w, minutes + 1)
  {
    var items, mid := Items(ss), w + 60 * minutes;
    ItemsInOrder(ss);
    MinuteOf(w, minutes);
    MinuteRow(ss, m, w, mid);
    ValuesInSplit(items, m, w, mid, mid + 60);
    OneMoreMinute(TierRows(ss), m, w, minutes, ValuesIn(items, m, w, mid), ValuesIn(items, m, mid, mid + 60));
    assert mid + 60 == w + 60 * (minutes + 1);
  }

  lemma MinuteOf(w: int, minutes: nat)
    ensures Aligned(w + 60 * minutes - w, RES_1M)
  {
    assert w + 60 * minutes - w == 60 * minutes;
  }

  /** One minute more: its row, if it has one, merged onto those before. */
  lemma {:induction false} OneMoreMinute(t: Table, m: Metric, w: int, minutes: nat, before: seq<real>, now: seq<real>)
    requires MergedMinutes(t, m, w, minutes) == if before == [] then None else Some(Fold(before))
    requires
      var k := Key(RES_1M, m, w + 60 * minutes);
      && (k in t <==> now != [])
      && (k in t ==> FromRow(t[k]) == Fold(now))
    ensures MergedMinutes(t, m, w, minutes + 1) == if before + now == [] then None else Some(Fold(before + now))
  {
    FoldJoin(before, now);
  }

  lemma {:induction false} FoldJoin(before: seq<real>, now: seq<real>)
    ensures before == [] ==> before + now == now
    ensures now == [] ==> before + now == before
    ensures before != [] && now != [] ==> Fold(before + now) == Merge(Fold(before), Fold(now))
  {
    if before != [] && now != [] {
      FoldConcat(before, now);
    }
  }

  /** A minute of a finished ten-minute bucket has its row: the fold of its raw values. */
  lemma {:induction false} MinuteRow(ss: seq<Sample>, m: Metric, w: int, mid: int)
    requires Ordered(ss) && ss != [] && Aligned(w, RES_10M) && w + 600 <= Bucket(ss[|ss|-1].ts, RES_10M)
    requires w <= mid < w + 600 && Aligned(mid - w, RES_1M)
    ensures
      var k, vs := Key(RES_1M, m, mid), ValuesIn(Items(ss), m, mid, mid + 60);
      && (k in TierRows(ss) <==> vs != [])
      && (k in TierRows(ss) ==> FromRow(TierRows(ss)[k]) == Fold(vs))
  {
    var k := Key(RES_1M, m, mid);
    WindowIsMinute(w);
    MinuteAligned(w, mid);
    MinuteInWindow(ss[|ss|-1].ts);
    BucketValues(Items(ss), k);
    TierRowAt(ss, k);
  }

  lemma MinuteAligned(w: int, mid: int)
    requires Aligned(w, RES_1M) && Aligned(mid - w, RES_1M)
    ensures Aligned(mid, RES_1M)
  {
    assert w == 60 * (w / 60) && mid - w == 60 * ((mid - w) / 60);
  }

  /** TIER CONSISTENCY: every finished ten-minute row is exactly the merge of its ten minutes -
      present if and only if one of them is. */
  lemma {:induction false} TenMinutesAreTheirMinutes(ss: seq<Sample>, m: Metric, w: int, minutes: nat)
    requires minutes == RES_10M / RES_1M
    requires Ordered(ss) && ss != [] && Aligned(w, RES_10M) && w < Bucket(ss[|ss|-1].ts, RES_10M)
    ensures
      var t := PushedAll(FreshPipe, NoRows, ss, true).1.rollup;
      MergedMinutes(t, m, w, minutes) == if Key(RES_10M, m, w) in t then Some(FromRow(t[Key(RES_10M, m, w)])) else None
  {
    FromNoRows(ss);
    MergedFromTierRows(ss, m, w, minutes);
  }

  lemma {:induction false} MergedFromTierRows(ss: seq<Sample>, m: Metric, w: int, minutes: nat)
    requires minutes == RES_10M / RES_1M
    requires Ordered(ss) && ss != [] && Aligned(w, RES_10M) && w < Bucket(ss[|ss|-1].ts, RES_10M)
    ensures
      var t := TierRows(ss);
      MergedMinutes(t, m, w, minutes) == if Key(RES_10M, m, w) in t then Some(FromRow(t[Key(RES_10M, m, w)])) else None
  {
    AlignedGap(w, Bucket(ss[|ss|-1].ts, RES_10M), RES_10M);
    MinutesFold(ss, m, w, minutes);
    TenMinuteRow(ss, m, w);
  }

  /** A finished ten-minute row is the fold of its raw values. */
  lemma {:induction false} TenMinuteRow(ss: seq<Sample>, m: Metric, w: int)
    requires Ordered(ss) && ss != [] && Aligned(w, RES_10M) && w < Bucket(ss[|ss|-1].ts, RES_10M)
    ensures
      var k, vs := Key(RES_10M, m, w), ValuesIn(Items(ss), m, w, w + 600);
      && (k in TierRows(ss) <==> vs != [])
      && (k in TierRows(ss) ==> FromRow(TierRows(ss)[k]) == Fold(vs))
  {
    var k := Key(RES_10M, m, w);
    BucketValues(Items(ss), k);
    TierRowAt(ss, k);
  }

  /** The gate log of a stream: a row for exactly the finished buckets in which something was
      logged, holding everything that was logged in them. */
  lemma {:induction false} GateLogRefinement(ss: seq<Sample>)
    requires Ordered(ss) && ss != []
    ensures
      var g := PushedAll(FreshPipe, NoRows, ss, true).1.gatelog;
      && (forall b :: b in g <==> b < Bucket(ss[|ss|-1].ts, RES_10M) && LogIn(ss, b) != NoLog)
      && (forall b :: b in g ==> g[b] == LogIn(ss, b))
  {
    PushedAllClosedForm(NoRows, ss, true);
    forall b | LogIn(ss, b) != NoLog ensures b in GateBuckets(ss) {
      if b !in GateBuckets(ss) { LogInUnseen(ss, b); }
    }
  }

  /** One of the four counters, over the samples of a bucket. */
  function CountIn(ss: seq<Sample>, b: int, c: Counter): nat {
    if ss == [] then 0
    else CountIn(ss[..|ss|-1], b, c) + if Bucket(ss[|ss|-1].ts, RES_10M) == b then c.Of(ss[|ss|-1].log) else 0
  }

  datatype Counter = PublicRequests | PublicOther | TrustedRequests | TrustedOther {
    function Of(l: LogDelta): nat {
      match this
      case PublicRequests => l.public.requests
      case PublicOther => l.public.other
      case TrustedRequests => l.trusted.requests
      case TrustedOther => l.trusted.other
    }
  }

  lemma {:induction false} LogInCounts(ss: seq<Sample>, b: int, c: Counter)
    ensures c.Of(LogIn(ss, b)) == CountIn(ss, b, c)
  {
    if ss != [] {
      LogInCounts(ss[..|ss|-1], b, c);
    }
  }

  lemma {:induction false} CountedSomewhere(ss: seq<Sample>, b: int, c: Counter)
    ensures CountIn(ss, b, c) > 0 <==> exists i :: 0 <= i < |ss| && Bucket(ss[i].ts, RES_10M) == b && c.Of(ss[i].log) > 0
  {
    if ss != [] {
      var init, last := ss[..|ss|-1], |ss| - 1;
      CountedSomewhere(init, b, c);
      forall i | 0 <= i < last ensures init[i] == ss[i] {}
      if i :| 0 <= i < |init| && Bucket(init[i].ts, RES_10M) == b && c.Of(init[i].log) > 0 {
        assert ss[i] == init[i];
      }
      if i :| 0 <= i < |ss| && Bucket(ss[i].ts, RES_10M) == b && c.Of(ss[i].log) > 0 {
        assert i < last ==> init[i] == ss[i];
      }
    }
  }

  lemma SomeCounter(l: LogDelta)
    ensures l != NoLog <==> exists c: Counter :: c.Of(l) > 0
  {
    assert PublicRequests.Of(l) == l.public.requests && PublicOther.Of(l) == l.public.other;
    assert TrustedRequests.Of(l) == l.trusted.requests && TrustedOther.Of(l) == l.trusted.other;
  }

  /** Something was counted in the bucket. */
  ghost predicate LoggedIn(ss: seq<Sample>, b: int) {
    exists i, c: Counter :: 0 <= i < |ss| && Bucket(ss[i].ts, RES_10M) == b && c.Of(ss[i].log) > 0
  }

  /** EVERY REQUEST LOGGED IS IN THE GATE LOG, counter by counter: after any in-order stream a bucket has a
      row exactly when it is closed and something was counted in it, and each of the row's four counters
      is the sum over the bucket's samples. */
  lemma {:induction false} GateLogCounts(ss: seq<Sample>, b: int)
    requires Ordered(ss) && ss != []
    ensures
      var g := PushedAll(FreshPipe, NoRows, ss, true).1.gatelog;
      && (b in g <==> b < Bucket(ss[|ss|-1].ts, RES_10M) && LoggedIn(ss, b))
      && (b in g ==> forall c: Counter :: c.Of(g[b]) == CountIn(ss, b, c))
  {
    GateLogRefinement(ss);
    SomeCounter(LogIn(ss, b));
    forall c: Counter ensures c.Of(LogIn(ss, b)) == CountIn(ss, b, c) && (CountIn(ss, b, c) > 0 ==> LoggedIn(ss, b)) {
      LogInCounts(ss, b, c);
      CountedSomewhere(ss, b, c);
    }
    if LoggedIn(ss, b) {
      var i, c: Counter :| 0 <= i < |ss| && Bucket(ss[i].ts, RES_10M) == b && c.Of(ss[i].log) > 0;
      CountedSomewhere(ss, b, c);
      assert c.Of(LogIn(ss, b)) > 0;
    }
  }

  // ------------------------------------------------------------------ pushing on

  /** What the pipeline becomes does not depend on the tables. */
  lemma {:induction false} PipeIgnoresTables(st: PipeState, t: Tables, u: Tables, ss: seq<Sample>, r: bool, q: bool)
    ensures PushedAll(st, t, ss, r).0 == PushedAll(st, u, ss, q).0
  {
    if ss != [] {
      PipeIgnoresTables(st, t, u, ss[..|ss|-1], r, q);
    }
  }

  lemma {:induction false} PushedAllConcat(st: PipeState, t: Tables, a: seq<Sample>, b: seq<Sample>, replace: bool)
    ensures PushedAll(st, t, a + b, replace) == var (st1, t1) := PushedAll(st, t, a, replace); PushedAll(st1, t1, b, replace)
  {
    if b == [] {
      assert a + b == a;
    } else {
      assert (a + b)[..|a + b|-1] == a + b[..|b|-1];
      PushedAllConcat(st, t, a, b[..|b|-1], replace);
    }
  }
}
