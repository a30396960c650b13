/** The bucket accumulator of `lss-core/src/series.rs` and the closed form of everything it ever
    hands out: a run over an in-order stream emits, for every bucket but the newest, exactly the
    fold of that bucket's raw values. */
module Rollers {
  import opened Wrappers
  import opened Series

  /** Primary key of table `rollup`. */
  datatype Key = Key(res: int, metric: Metric, ts: int)
  type Table = map<Key, Row>

  /** One finished bucket, ready to be written. */
  datatype Batch = Batch(res: int, ts: int, rows: map<Metric, Agg>)

  function BatchRows(b: Batch): (t: Table)
    ensures forall k :: k in t <==> k.res == b.res && k.ts == b.ts && k.metric in b.rows
    ensures forall k :: k in t ==> t[k] == ToRow(b.rows[k.metric])
  {
    map k | k in (set m | m in b.rows :: Key(b.res, m, b.ts)) :: ToRow(b.rows[k.metric])
  }

  lemma MapPlusAssoc<K, V>(a: map<K, V>, b: map<K, V>, c: map<K, V>)
    ensures a + (b + c) == a + b + c
  {
  }

  lemma MapPlusEmpty<K, V>(a: map<K, V>)
    ensures map[] + a == a && a + map[] == a
  {
  }

  /** `INSERT OR REPLACE` or `INSERT OR IGNORE` of a batch. */
  function Written(t: Table, b: Batch, replace: bool): Table {
    if replace then t + BatchRows(b) else BatchRows(b) + t
  }

  function WriteDone(t: Table, done: Option<Batch>, replace: bool): Table {
    if done.Some? then Written(t, done.value, replace) else t
  }

  /** The rows of what was handed out. */
  function Emitted(done: Option<Batch>): Table {
    match done case None => map[] case Some(b) => BatchRows(b)
  }

  // ------------------------------------------------------------------ the accumulator

  datatype RollerState = RollerState(bucket: Option<int>, acc: map<Metric, Agg>)

  const Idle := RollerState(None, map[])

  function AbsorbOne(acc: map<Metric, Agg>, m: Metric, v: real): map<Metric, Agg> {
    acc[m := if m in acc then Merge(acc[m], One(v)) else One(v)]
  }

  /** Every point of one sample merged into the open bucket. */
  function Absorb(acc: map<Metric, Agg>, points: Points): map<Metric, Agg> {
    map m | m in acc.Keys + points.Keys ::
      if m !in points then acc[m]
      else if m in acc then Merge(acc[m], One(points[m])) else One(points[m])
  }

  function Flushed(res: int, st: RollerState): Option<Batch> {
    if st.bucket.None? || st.acc == map[] then None else Some(Batch(res, st.bucket.value, st.acc))
  }

  /** `Roller::add` on values: the new state and the bucket handed out. */
  function Add(res: int, st: RollerState, ts: int, points: Points): (RollerState, Option<Batch>)
    requires Tier(res)
  {
    var start := Bucket(ts, res);
    if st.bucket.Some? && st.bucket.value != start
    then (RollerState(Some(start), Absorb(map[], points)), Flushed(res, st))
    else (RollerState(Some(start), Absorb(st.acc, points)), None)
  }

  /** Accumulates points into fixed buckets of `res` seconds. */
  class Roller {
    const res: int
    var bucket: Option<int>
    var acc: map<Metric, Agg>

    ghost function State(): RollerState
      reads this
    {
      RollerState(bucket, acc)
    }

    constructor (res: int)
      ensures this.res == res && State() == Idle
    {
      this.res := res;
      bucket, acc := None, map[];
    }

    /** The points of one sample; hands out the bucket that a later one closes. */
    method AddPoints(ts: int, points: Points) returns (done: Option<Batch>)
      requires Tier(res)
      modifies this
      ensures (State(), done) == Add(res, old(State()), ts, points)
    {
      var start := Bucket(ts, res);
      done := None;
      if bucket.Some? && bucket.value != start {
        done := Flush();
      }
      bucket := Some(start);
      MergePoints(points);
    }

    /** One point at a time into the accumulator. */
    method MergePoints(points: Points)
      modifies this`acc
      ensures acc == Absorb(old(acc), points)
    {
      ghost var before := acc;
      var todo := points.Keys;
      while todo != {}
        invariant todo <= points.Keys
        invariant acc.Keys == before.Keys + (points.Keys - todo)
        invariant forall m :: m in todo && m in before ==> acc[m] == before[m]
        invariant forall m :: m in acc && m !in todo ==>
                    acc[m] == if m !in points then before[m] else if m in before then Merge(before[m], One(points[m])) else One(points[m])
      {
        var m :| m in todo;
        acc := AbsorbOne(acc, m, points[m]);
        todo := todo - {m};
      }
    }

    /** Takes the open bucket, unless nothing was accumulated in it. */
    method Flush() returns (done: Option<Batch>)
      modifies this
      ensures done == Flushed(res, old(State()))
      ensures old(bucket).Some? ==> State() == Idle
      ensures old(bucket).None? ==> State() == old(State())
    {
      if bucket.None? {
        return None;
      }
      done := if acc == map[] then None else Some(Batch(res, bucket.value, acc));
      bucket, acc := None, map[];
    }
  }

  // ------------------------------------------------------------------ the stream it sees

  /** One call of `add`: the sample's time and its points. */
  datatype Item = Item(ts: int, points: Points)

  ghost predicate InOrder(items: seq<Item>) {
    forall i, j :: 0 <= i < j < |items| ==> items[i].ts <= items[j].ts
  }

  /** The raw values of one metric in one bucket, in arrival order. */
  function Values(items: seq<Item>, k: Key): seq<real>
    requires Tier(k.res)
  {
    if items == [] then [] else
      var x := items[|items|-1];
      var rest := Values(items[..|items|-1], k);
      if Bucket(x.ts, k.res) == k.ts && k.metric in x.points then rest + [x.points[k.metric]] else rest
  }

  /** The (metric, bucket) pairs the stream touches in one tier. */
  function Seen(items: seq<Item>, res: int): set<Key>
    requires Tier(res)
  {
    if items == [] then {} else
      var x := items[|items|-1];
      Seen(items[..|items|-1], res) + set m | m in x.points :: Key(res, m, Bucket(x.ts, res))
  }

  lemma {:induction false} SeenMeaning(items: seq<Item>, k: Key)
    requires Tier(k.res)
    ensures k in Seen(items, k.res) <==> Values(items, k) != []
  {
    if items != [] {
      SeenMeaning(items[..|items|-1], k);
      LastSeen(items, k);
    }
  }

  lemma {:induction false} LastSeen(items: seq<Item>, k: Key)
    requires Tier(k.res) && items != []
    ensures k in Seen(items, k.res) <==> k in Seen(items[..|items|-1], k.res) || Hits(items[|items|-1], k)
  {
    var x := items[|items|-1];
    if Hits(x, k) {
      assert k == Key(k.res, k.metric, Bucket(x.ts, k.res));
    }
  }

  lemma {:induction false} SeenTouched(items: seq<Item>, k: Key)
    requires Tier(k.res)
    ensures k in Seen(items, k.res) <==> exists i :: 0 <= i < |items| && Hits(items[i], k)
  {
    if items != [] {
      var init, x := items[..|items|-1], items[|items|-1];
      assert items == init + [x];
      SeenTouched(init, k);
      LastSeen(items, k);
      SomeTouchSnoc(init, x, k);
    }
  }

  /** A bucket no sample hits has no values. */
  lemma {:induction false} NothingSeen(items: seq<Item>, k: Key)
    requires Tier(k.res) && forall i :: 0 <= i < |items| ==> !Hits(items[i], k)
    ensures Values(items, k) == [] && k !in Seen(items, k.res)
  {
    SeenMeaning(items, k);
    SeenTouched(items, k);
  }

  predicate Hits(x: Item, k: Key)
    requires Tier(k.res)
  {
    k.metric in x.points && Bucket(x.ts, k.res) == k.ts
  }

  lemma SomeTouchSnoc(init: seq<Item>, x: Item, k: Key)
    requires Tier(k.res)
    ensures (exists i :: 0 <= i < |init + [x]| && Hits((init + [x])[i], k))
            <==> (exists i :: 0 <= i < |init| && Hits(init[i], k)) || Hits(x, k)
  {
    var items := init + [x];
    if i :| 0 <= i < |init| && Hits(init[i], k) {
      assert items[i] == init[i];
    }
    assert items[|init|] == x;
  }

  lemma {:induction false} SeenTier(items: seq<Item>, res: int)
    requires Tier(res)
    ensures forall k :: k in Seen(items, res) ==> k.res == res
  {
    if items != [] {
      SeenTier(items[..|items|-1], res);
    }
  }

  lemma {:induction false} SeenBounded(items: seq<Item>, res: int)
    requires Tier(res) && InOrder(items) && items != []
    ensures forall k :: k in Seen(items, res) ==> k.ts <= Bucket(items[|items|-1].ts, res)
  {
    SeenTier(items, res);
    forall k | k in Seen(items, res) ensures k.ts <= Bucket(items[|items|-1].ts, res) {
      SeenTouched(items, k);
      var i :| 0 <= i < |items| && Hits(items[i], k);
      BucketMonotone(items[i].ts, items[|items|-1].ts, res);
    }
  }

  // ------------------------------------------------------------------ the closed form

  /** The reference: one row per touched (metric, bucket) older than `open`, each the plain fold. */
  function RowsBefore(items: seq<Item>, res: int, open: int): (t: Table)
    requires Tier(res)
    ensures forall k :: k in t <==> k in Seen(items, res) && k.ts < open
    ensures forall k :: k in t ==> k.res == res && Values(items, k) != [] && t[k] == ToRow(Fold(Values(items, k)))
  {
    SeenTier(items, res);
    assert forall k :: k in Seen(items, res) ==> Values(items, k) != [] by {
      forall k | k in Seen(items, res) ensures Values(items, k) != [] { SeenMeaning(items, k); }
    }
    map k | k in Seen(items, res) && k.ts < open :: ToRow(Fold(Values(items, k)))
  }

  /** The newest bucket of the stream: the one still open. */
  function OpenBucket(items: seq<Item>, res: int): int
    requires Tier(res) && items != []
  {
    Bucket(items[|items|-1].ts, res)
  }

  function ClosedRows(items: seq<Item>, res: int): Table
    requires Tier(res)
  {
    if items == [] then map[] else RowsBefore(items, res, OpenBucket(items, res))
  }

  ghost predicate HoldsOpen(st: RollerState, items: seq<Item>, res: int)
    requires Tier(res)
  {
    if items == [] then st == Idle
    else
      && st.bucket == Some(OpenBucket(items, res))
      && (forall m :: m in st.acc <==> Key(res, m, OpenBucket(items, res)) in Seen(items, res))
      && (forall m :: m in st.acc ==>
            var vs := Values(items, Key(res, m, OpenBucket(items, res)));
            vs != [] && st.acc[m] == Fold(vs))
  }

  lemma {:induction false} ValuesSnoc(items: seq<Item>, x: Item, k: Key)
    requires Tier(k.res)
    ensures Values(items + [x], k) ==
            if Bucket(x.ts, k.res) == k.ts && k.metric in x.points then Values(items, k) + [x.points[k.metric]] else Values(items, k)
  {
    assert (items + [x])[..|items + [x]|-1] == items;
  }

  lemma {:induction false} SeenSnoc(items: seq<Item>, x: Item, res: int)
    requires Tier(res)
    ensures forall k :: k in Seen(items + [x], res) <==>
              k in Seen(items, res) || (k.res == res && k.ts == Bucket(x.ts, res) && k.metric in x.points)
  {
    assert (items + [x])[..|items + [x]|-1] == items;
    forall k: Key | k.res == res && k.ts == Bucket(x.ts, res) && k.metric in x.points ensures k in Seen(items + [x], res) {
      assert k == Key(res, k.metric, Bucket(x.ts, res));
    }
  }

  lemma InOrderPrefix(items: seq<Item>, x: Item)
    requires InOrder(items + [x])
    ensures InOrder(items) && (items != [] ==> items[|items|-1].ts <= x.ts)
  {
    assert forall i :: 0 <= i < |items| ==> items[i] == (items + [x])[i];
    assert (items + [x])[|items|] == x;
  }

  /** What one more sample does to the reference rows: nothing in the open bucket, one batch when
      a later bucket starts. */
  lemma ClosedRowsStep(items: seq<Item>, x: Item, st: RollerState, res: int)
    requires Tier(res) && InOrder(items + [x]) && HoldsOpen(st, items, res)
    ensures ClosedRows(items + [x], res) == ClosedRows(items, res) + Emitted(Add(res, st, x.ts, x.points).1)
    ensures Emitted(Add(res, st, x.ts, x.points).1).Keys !! ClosedRows(items, res).Keys
  {
    InOrderPrefix(items, x);
    if items == [] {
      FirstClosesNothing(x, res);
    } else {
      BucketMonotone(items[|items|-1].ts, x.ts, res);
      if OpenBucket(items, res) == Bucket(x.ts, res) {
        ClosedRowsSameBucket(items, x, res);
      } else {
        ClosedRowsNewBucket(items, x, st, res);
      }
    }
  }

  lemma FirstClosesNothing(x: Item, res: int)
    requires Tier(res)
    ensures ClosedRows([] + [x], res) == map[]
  {
    SeenSnoc([], x, res);
    assert ([] + [x])[|[x]|-1] == x;
  }

  lemma SameTable(t: Table, u: Table)
    requires forall k :: k in t <==> k in u
    requires forall k :: k in t && k in u ==> t[k] == u[k]
    ensures t == u
  {
  }

  /** One reference cell. */
  lemma {:induction false} RowBefore(items: seq<Item>, res: int, open: int, k: Key)
    requires Tier(res)
    ensures k in RowsBefore(items, res, open) <==> k in Seen(items, res) && k.ts < open
    ensures k in RowsBefore(items, res, open) ==> Values(items, k) != [] && RowsBefore(items, res, open)[k] == ToRow(Fold(Values(items, k)))
  {
    SeenTier(items, res);
  }

  lemma ClosedRowsSameBucket(items: seq<Item>, x: Item, res: int)
    requires Tier(res) && items != [] && OpenBucket(items, res) == Bucket(x.ts, res)
    ensures ClosedRows(items + [x], res) == ClosedRows(items, res)
  {
    SeenSnoc(items, x, res);
    SeenTier(items, res);
    var open := OpenBucket(items, res);
    assert OpenBucket(items + [x], res) == open;
    forall k: Key
      ensures k in RowsBefore(items + [x], res, open) <==> k in RowsBefore(items, res, open)
      ensures k in RowsBefore(items, res, open) ==> RowsBefore(items + [x], res, open)[k] == RowsBefore(items, res, open)[k]
    {
      RowBefore(items, res, open, k);
      RowBefore(items + [x], res, open, k);
      if k in Seen(items, res) {
        ValuesSnoc(items, x, k);
      }
    }
    SameTable(RowsBefore(items + [x], res, open), RowsBefore(items, res, open));
  }

  /** The bucket handed out is the one that was open. */
  lemma {:induction false} FlushedCell(items: seq<Item>, st: RollerState, res: int, k: Key)
    requires Tier(res) && items != [] && HoldsOpen(st, items, res)
    ensures k in Emitted(Flushed(res, st)) <==> k in Seen(items, res) && k.ts == OpenBucket(items, res)
    ensures k in Emitted(Flushed(res, st)) ==> Values(items, k) != [] && Emitted(Flushed(res, st))[k] == ToRow(Fold(Values(items, k)))
  {
    SeenTier(items, res);
    var open := OpenBucket(items, res);
    if k.res == res && k.ts == open {
      assert k == Key(res, k.metric, open);
      assert k.metric in st.acc <==> k in Seen(items, res);
    }
  }

  lemma ClosedRowsNewBucket(items: seq<Item>, x: Item, st: RollerState, res: int)
    requires Tier(res) && items != [] && InOrder(items) && HoldsOpen(st, items, res)
    requires OpenBucket(items, res) < Bucket(x.ts, res)
    ensures ClosedRows(items + [x], res) == ClosedRows(items, res) + Emitted(Flushed(res, st))
    ensures Emitted(Flushed(res, st)).Keys !! ClosedRows(items, res).Keys
  {
    var next := Bucket(x.ts, res);
    assert OpenBucket(items + [x], res) == next;
    forall k: Key
      ensures k in RowsBefore(items + [x], res, next) <==> k in ClosedRows(items, res) || k in Emitted(Flushed(res, st))
      ensures !(k in ClosedRows(items, res) && k in Emitted(Flushed(res, st)))
      ensures k in RowsBefore(items + [x], res, next) ==>
                RowsBefore(items + [x], res, next)[k] == (ClosedRows(items, res) + Emitted(Flushed(res, st)))[k]
    {
      NewBucketCell(items, x, st, res, k);
    }
    SameTable(RowsBefore(items + [x], res, next), ClosedRows(items, res) + Emitted(Flushed(res, st)));
  }

  lemma NewBucketCell(items: seq<Item>, x: Item, st: RollerState, res: int, k: Key)
    requires Tier(res) && items != [] && InOrder(items) && HoldsOpen(st, items, res)
    requires OpenBucket(items, res) < Bucket(x.ts, res)
    ensures
      var all, closed, out := RowsBefore(items + [x], res, Bucket(x.ts, res)), ClosedRows(items, res), Emitted(Flushed(res, st));
      && (k in all <==> k in closed || k in out)
      && !(k in closed && k in out)
      && (k in all ==> all[k] == (closed + out)[k])
  {
    var all, closed, out := RowsBefore(items + [x], res, Bucket(x.ts, res)), ClosedRows(items, res), Emitted(Flushed(res, st));
    NewBucketRow(items, x, res, k);
    RowBefore(items, res, OpenBucket(items, res), k);
    FlushedCell(items, st, res, k);
    JoinedCell(RowsBefore(items + [x], res, Bucket(x.ts, res)), ClosedRows(items, res), Emitted(Flushed(res, st)), k, OpenBucket(items, res));
  }

  lemma JoinedCell(all: Table, closed: Table, out: Table, k: Key, open: int)
    requires k in all ==> k.ts <= open
    requires k in closed <==> k in all && k.ts < open
    requires k in out <==> k in all && k.ts == open
    requires k in closed ==> closed[k] == all[k]
    requires k in out ==> out[k] == all[k]
    ensures k in all <==> k in closed || k in out
    ensures !(k in closed && k in out)
    ensures k in all ==> all[k] == (closed + out)[k]
  {
  }

  /** With a new bucket every row seen so far is closed. */
  lemma {:induction false} NewBucketRow(items: seq<Item>, x: Item, res: int, k: Key)
    requires Tier(res) && items != [] && InOrder(items) && OpenBucket(items, res) < Bucket(x.ts, res)
    ensures
      var all := RowsBefore(items + [x], res, Bucket(x.ts, res));
      && (k in all <==> k in Seen(items, res))
      && (k in all ==> k.res == res && k.ts <= OpenBucket(items, res) && Values(items, k) != [] && all[k] == ToRow(Fold(Values(items, k))))
  {
    SeenBeforeNewBucket(items, x, res, k);
    RowBefore(items + [x], res, Bucket(x.ts, res), k);
  }

  /** Before a new bucket starts everything seen is closed or open, with the values it has. */
  lemma {:induction false} SeenBeforeNewBucket(items: seq<Item>, x: Item, res: int, k: Key)
    requires Tier(res) && items != [] && InOrder(items) && OpenBucket(items, res) < Bucket(x.ts, res)
    ensures k in Seen(items + [x], res) && k.ts < Bucket(x.ts, res) <==> k in Seen(items, res)
    ensures k in Seen(items, res) ==> k.res == res && k.ts <= OpenBucket(items, res) && Values(items + [x], k) == Values(items, k)
  {
    SeenSnoc(items, x, res);
    SeenTier(items, res);
    SeenBounded(items, res);
    if k in Seen(items, res) {
      ValuesSnoc(items, x, k);
    }
  }

  lemma HoldsOpenStep(items: seq<Item>, x: Item, st: RollerState, res: int)
    requires Tier(res) && InOrder(items + [x]) && HoldsOpen(st, items, res)
    ensures HoldsOpen(Add(res, st, x.ts, x.points).0, items + [x], res)
  {
    var st' := Add(res, st, x.ts, x.points).0;
    var open := Bucket(x.ts, res);
    assert OpenBucket(items + [x], res) == open;
    forall m
      ensures m in st'.acc <==> Key(res, m, open) in Seen(items + [x], res)
      ensures m in st'.acc ==> Values(items + [x], Key(res, m, open)) != [] && st'.acc[m] == Fold(Values(items + [x], Key(res, m, open)))
    {
      OpenCellStep(items, x, st, res, m);
    }
  }

  /** What one metric of the open bucket has been told so far. */
  ghost predicate CellHolds(acc: map<Metric, Agg>, m: Metric, vs: seq<real>) {
    (m in acc <==> vs != []) && (m in acc && vs != [] ==> acc[m] == Fold(vs))
  }

  lemma AbsorbCell(acc: map<Metric, Agg>, points: Points, m: Metric, vs: seq<real>)
    requires CellHolds(acc, m, vs)
    ensures CellHolds(Absorb(acc, points), m, if m in points then vs + [points[m]] else vs)
  {
    if m in points {
      assert (vs + [points[m]])[..|vs|] == vs;
    }
  }

  /** A bucket that nothing has reached yet. */
  lemma {:induction false} NewBucketIsEmpty(items: seq<Item>, k: Key)
    requires Tier(k.res) && InOrder(items) && (items != [] ==> OpenBucket(items, k.res) < k.ts)
    ensures Values(items, k) == []
  {
    SeenMeaning(items, k);
    if items != [] {
      SeenBounded(items, k.res);
    }
  }

  lemma {:induction false} OpenCellStep(items: seq<Item>, x: Item, st: RollerState, res: int, m: Metric)
    requires Tier(res) && InOrder(items + [x]) && HoldsOpen(st, items, res)
    ensures
      var acc, k := Add(res, st, x.ts, x.points).0.acc, Key(res, m, Bucket(x.ts, res));
      && (m in acc <==> k in Seen(items + [x], res))
      && (m in acc ==> Values(items + [x], k) != [] && acc[m] == Fold(Values(items + [x], k)))
  {
    InOrderPrefix(items, x);
    SeenMeaning(items + [x], Key(res, m, Bucket(x.ts, res)));
    if items != [] && OpenBucket(items, res) == Bucket(x.ts, res) {
      SameBucketCell(items, x, st, res, m);
    } else {
      if items != [] {
        InOrderLast(items, x);
        BucketMonotone(items[|items|-1].ts, x.ts, res);
      }
      FirstInBucketCell(items, x, st, res, m);
    }
  }

  lemma {:induction false} SameBucketCell(items: seq<Item>, x: Item, st: RollerState, res: int, m: Metric)
    requires Tier(res) && items != [] && HoldsOpen(st, items, res) && OpenBucket(items, res) == Bucket(x.ts, res)
    ensures CellHolds(Add(res, st, x.ts, x.points).0.acc, m, Values(items + [x], Key(res, m, Bucket(x.ts, res))))
  {
    var k := Key(res, m, Bucket(x.ts, res));
    ValuesSnoc(items, x, k);
    SeenMeaning(items, k);
    AbsorbCell(st.acc, x.points, m, Values(items, k));
  }

  lemma {:induction false} FirstInBucketCell(items: seq<Item>, x: Item, st: RollerState, res: int, m: Metric)
    requires Tier(res) && InOrder(items) && HoldsOpen(st, items, res)
    requires items != [] ==> OpenBucket(items, res) < Bucket(x.ts, res)
    ensures CellHolds(Add(res, st, x.ts, x.points).0.acc, m, Values(items + [x], Key(res, m, Bucket(x.ts, res))))
  {
    var k := Key(res, m, Bucket(x.ts, res));
    ValuesSnoc(items, x, k);
    NewBucketIsEmpty(items, k);
    AbsorbCell(map[], x.points, m, []);
  }

  lemma InOrderLast(items: seq<Item>, x: Item)
    requires InOrder(items + [x]) && items != []
    ensures items[|items|-1].ts <= x.ts
  {
    assert (items + [x])[|items|-1] == items[|items|-1] && (items + [x])[|items|] == x;
  }

  // ------------------------------------------------------------------ values by time

  /** The raw values of one metric with `lo <= ts < hi`, in arrival order. */
  function ValuesIn(items: seq<Item>, m: Metric, lo: int, hi: int): seq<real> {
    if items == [] then [] else
      var x := items[|items|-1];
      var rest := ValuesIn(items[..|items|-1], m, lo, hi);
      if lo <= x.ts < hi && m in x.points then rest + [x.points[m]] else rest
  }

  lemma BucketIs(ts: int, b: int, res: int)
    requires Tier(res) && Aligned(b, res)
    ensures Bucket(ts, res) == b <==> b <= ts < b + res
  {
    if b <= ts < b + res {
      StartsOnce(b, Bucket(ts, res), ts, res);
    }
  }

  lemma {:induction false} BucketValues(items: seq<Item>, k: Key)
    requires Tier(k.res) && Aligned(k.ts, k.res)
    ensures Values(items, k) == ValuesIn(items, k.metric, k.ts, k.ts + k.res)
  {
    if items != [] {
      BucketValues(items[..|items|-1], k);
      BucketIs(items[|items|-1].ts, k.ts, k.res);
    }
  }

  lemma {:induction false} NoValues(items: seq<Item>, m: Metric, lo: int, hi: int)
    requires forall i :: 0 <= i < |items| ==> !(lo <= items[i].ts < hi)
    ensures ValuesIn(items, m, lo, hi) == []
  {
    if items != [] {
      NoValues(items[..|items|-1], m, lo, hi);
    }
  }

  /** Adjacent spans of an in-order stream concatenate. */
  lemma {:induction false} ValuesInSplit(items: seq<Item>, m: Metric, lo: int, mid: int, hi: int)
    requires InOrder(items) && lo <= mid <= hi
    ensures ValuesIn(items, m, lo, hi) == ValuesIn(items, m, lo, mid) + ValuesIn(items, m, mid, hi)
  {
    if items != [] {
      var init := items[..|items|-1];
      ValuesInSplit(init, m, lo, mid, hi);
      if items[|items|-1].ts < mid {
        NoValues(init, m, mid, hi);
      }
    }
  }

  /** Only buckets that start on a multiple of the tier are ever seen. */
  lemma {:induction false} SeenAligned(items: seq<Item>, res: int)
    requires Tier(res)
    ensures forall k :: k in Seen(items, res) ==> k.res == res && Aligned(k.ts, res)
  {
    SeenTier(items, res);
    forall k | k in Seen(items, res) ensures Aligned(k.ts, res) {
      SeenTouched(items, k);
    }
  }
}
