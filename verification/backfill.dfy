/** The one-off back-fill of `lss-collector/src/rollup.rs`, and why it may run beside the live
    loop. */
module Backfilling {
  import opened Wrappers
  import opened Series
  import opened Rollers
  import opened Store
  import opened Rollup

  /** One-off back-fill of the tiers from the stored samples, one hour of samples at a time:
      whatever the gaps between them, every stored sample of `[0, until)` is folded in exactly
      once and in order, so the result is the one-pass fold, written under what is there. */
  method Backfill(db: Db, until: int) returns (n: nat)
    requires db.Valid()
    modifies db`rollup, db`gatelog
    ensures n == |Between(db.samples, 0, until)|
    ensures db.Rows() == Overlay(old(db.Rows()), Between(db.samples, 0, until), false)
  {
    var pipe := new Pipeline();
    n := 0;
    var from := 0;
    ghost var before := db.Rows();
    NothingFolded(before, db.samples);
    var more := true;
    while more
      invariant 0 <= from && (from <= until || from == 0)
      invariant pipe.Valid() && fresh(pipe) && fresh(pipe.m1) && fresh(pipe.m10)
      invariant db.samples == old(db.samples)
      invariant n == |Between(db.samples, 0, from)|
      invariant FoldedSoFar(pipe.State(), db.Rows(), before, db.samples, from)
      invariant !more ==> Between(db.samples, 0, from) == Between(db.samples, 0, until)
      decreases more, until - from
    {
      var read;
      more, from, read := BackfillHour(db, pipe, from, until, before);
      n := n + read;
    }
    FoldedClosedForm(pipe.State(), db.Rows(), before, db.samples, from, until);
  }

  /** The back-fill has read everything below `from`, and nothing else, into its pipeline. */
  ghost predicate FoldedSoFar(st: PipeState, t: Tables, before: Tables, ss: seq<Sample>, from: int) {
    (st, t) == PushedAll(FreshPipe, before, Between(ss, 0, from), false)
  }

  lemma {:induction false} NothingFolded(before: Tables, ss: seq<Sample>)
    requires Ordered(ss)
    ensures FoldedSoFar(FreshPipe, before, before, ss, 0) && |Between(ss, 0, 0)| == 0
  {
    BetweenNothing(ss, 0, 0);
  }

  lemma {:induction false} FoldedClosedForm(st: PipeState, t: Tables, before: Tables, ss: seq<Sample>, from: int, until: int)
    requires Ordered(ss) && FoldedSoFar(st, t, before, ss, from) && Between(ss, 0, from) == Between(ss, 0, until)
    ensures t == Overlay(before, Between(ss, 0, until), false)
  {
    BetweenMeaning(ss, 0, from);
    PushedAllClosedForm(before, Between(ss, 0, from), false);
  }

  /** One turn of the back-fill: the hour in which the next stored sample lies, cut at `until`. */
  method BackfillHour(db: Db, pipe: Pipeline, from: int, until: int, ghost before: Tables) returns (more: bool, next: int, read: nat)
    requires db.Valid() && pipe.Valid()
    requires 0 <= from && (from <= until || from == 0)
    requires FoldedSoFar(pipe.State(), db.Rows(), before, db.samples, from)
    modifies pipe, pipe.m1, pipe.m10, db`rollup, db`gatelog
    ensures more ==> from < next <= until
    ensures !more ==> next == from && Between(db.samples, 0, from) == Between(db.samples, 0, until)
    ensures FoldedSoFar(pipe.State(), db.Rows(), before, db.samples, next)
    ensures |Between(db.samples, 0, next)| == |Between(db.samples, 0, from)| + read
  {
    var first := db.FirstSampleAtOrAfter(from);
    if first.None? || first.value >= until {
      NothingLeft(db.samples, from, until);
      return false, from, 0;
    }
    var hour := first.value - first.value % 3600 + 3600;
    var to := if hour <= until then hour else until;
    var chunk := db.EachSample(first.value, to);
    ChunkFollows(db.samples, from, first.value, to);
    PushedAllConcat(FreshPipe, before, Between(db.samples, 0, from), chunk, false);
    pipe.Replay(db, chunk);
    return true, to, |chunk|;
  }

  /** The back-fill stops when nothing below `until` is left to read. */
  lemma {:induction false} NothingLeft(ss: seq<Sample>, from: int, until: int)
    requires Ordered(ss) && 0 <= from && (from <= until || from == 0)
    requires forall x :: x in ss ==> x.ts < from || x.ts >= until
    ensures Between(ss, 0, from) == Between(ss, 0, until)
  {
    if from <= until {
      BetweenNothing(ss, from, until);
      BetweenSplit(ss, 0, from, until);
    } else {
      BetweenNothing(ss, 0, 0);
      BetweenNothing(ss, 0, until);
    }
  }

  /** Skipping to the first stored sample skips nothing. */
  lemma {:induction false} ChunkFollows(ss: seq<Sample>, from: int, first: int, to: int)
    requires Ordered(ss) && 0 <= from <= first <= to
    requires forall x :: x in ss ==> x.ts < from || x.ts >= first
    ensures Between(ss, 0, to) == Between(ss, 0, from) + Between(ss, first, to)
  {
    BetweenNothing(ss, from, first);
    BetweenSplit(ss, from, first, to);
    BetweenSplit(ss, 0, from, to);
  }

  // ------------------------------------------------------------------ interleaving

  /** A write to the rollup table or to the gate log: the live loop replaces, the back-fill ignores
      what is there. */
  datatype Write<K, V> = Live(rows: map<K, V>) | Fill(rows: map<K, V>)

  function Applied<K, V>(t: map<K, V>, ws: seq<Write<K, V>>): map<K, V> {
    if ws == [] then t else
      var t1 := Applied(t, ws[..|ws|-1]);
      match ws[|ws|-1]
      case Live(rows) => t1 + rows
      case Fill(rows) => rows + t1
  }

  /** What the live loop alone writes, in its own order. */
  function Lives<K, V>(ws: seq<Write<K, V>>): seq<map<K, V>> {
    if ws == [] then [] else
      var r := Lives(ws[..|ws|-1]);
      match ws[|ws|-1]
      case Live(rows) => r + [rows]
      case Fill(_) => r
  }

  /** The newest row of every key. */
  function NewestOf<K, V>(lives: seq<map<K, V>>): map<K, V> {
    if lives == [] then map[] else NewestOf(lives[..|lives|-1]) + lives[|lives|-1]
  }

  lemma {:induction false} NewestOfOneMore<K, V>(lives: seq<map<K, V>>, a: map<K, V>)
    ensures NewestOf(lives + [a]) == NewestOf(lives) + a
  {
    assert (lives + [a])[..|lives|] == lives;
  }

  /** What the back-fill alone writes, in its own order. */
  function Fills<K, V>(ws: seq<Write<K, V>>): seq<map<K, V>> {
    if ws == [] then [] else
      var r := Fills(ws[..|ws|-1]);
      match ws[|ws|-1]
      case Live(_) => r
      case Fill(rows) => r + [rows]
  }

  /** The oldest row of every key. */
  function FirstOf<K, V>(fills: seq<map<K, V>>): map<K, V> {
    if fills == [] then map[] else fills[|fills|-1] + FirstOf(fills[..|fills|-1])
  }

  /** The outcome of any interleaving is decided by who wrote, not by when: live rows win, then
      what was there, then the back-fill. */
  lemma {:induction false} InterleavingIsIrrelevant<K, V>(t: map<K, V>, ws: seq<Write<K, V>>)
    ensures Applied(t, ws) == FirstOf(Fills(ws)) + (t + NewestOf(Lives(ws)))
  {
    if ws != [] {
      var init := ws[..|ws|-1];
      InterleavingIsIrrelevant(t, init);
      var f, l := FirstOf(Fills(init)), NewestOf(Lives(init));
      match ws[|ws|-1]
      case Live(rows) =>
        NewestOfOneMore(Lives(init), rows);
        MapPlusAssoc(f, t + l, rows);
        MapPlusAssoc(t, l, rows);
      case Fill(rows) =>
        var fills := Fills(ws);
        assert fills[..|fills|-1] == Fills(init);
        MapPlusAssoc(rows, f, t + l);
    }
  }

  /** The rollup batches a pipeline hands out for a stream, in order. */
  function Emissions(st: PipeState, ss: seq<Sample>): seq<Table> {
    if ss == [] then [] else
      var init, s := ss[..|ss|-1], ss[|ss|-1];
      var st1 := PushedAll(st, NoRows, init, false).0;
      var points := SamplePoints(st1.prev, s);
      Emissions(st, init) + [Emitted(Add(RES_1M, st1.m1, s.ts, points).1)] + [Emitted(Add(RES_10M, st1.m10, s.ts, points).1)]
  }

  lemma {:induction false} EmissionsAreTierRows(ss: seq<Sample>)
    requires Ordered(ss)
    ensures FirstOf(Emissions(FreshPipe, ss)) == TierRows(ss)
  {
    if ss != [] {
      var init, s := ss[..|ss|-1], ss[|ss|-1];
      assert ss == init + [s];
      EmissionsAreTierRows(init);
      PushedAllClosedForm(NoRows, init, false);
      var st := PushedAll(FreshPipe, NoRows, init, false).0;
      var points := SamplePoints(st.prev, s);
      var d1, d10 := Add(RES_1M, st.m1, s.ts, points).1, Add(RES_10M, st.m10, s.ts, points).1;
      assert FirstOf(Emissions(FreshPipe, ss)) == Emitted(d10) + (Emitted(d1) + TierRows(init)) by {
        FirstOfTwoMore(Emissions(FreshPipe, init), Emitted(d1), Emitted(d10));
      }
      TierRowsStep(init, s, st, map[], false);
      MapPlusEmpty(TierRows(init));
      MapPlusEmpty(TierRows(ss));
      WriteDoneIsOverlay(TierRows(init), d1, false);
      WriteDoneIsOverlay(Emitted(d1) + TierRows(init), d10, false);
    }
  }

  lemma {:induction false} FirstOfTwoMore<K, V>(fills: seq<map<K, V>>, a: map<K, V>, b: map<K, V>)
    ensures FirstOf(fills + [a] + [b]) == b + (a + FirstOf(fills))
  {
    FirstOfOneMore(fills, a);
    FirstOfOneMore(fills + [a], b);
  }

  lemma {:induction false} FirstOfOneMore<K, V>(fills: seq<map<K, V>>, a: map<K, V>)
    ensures FirstOf(fills + [a]) == a + FirstOf(fills)
  {
    assert (fills + [a])[..|fills|] == fills;
  }

  /** The row of a finished log bucket; an empty log is not stored. */
  function GateEmitted(done: OpenGate): GateTable {
    if done.Some? && !EmptyLog(done.value.1) then map[done.value.0 := done.value.1] else map[]
  }

  /** The gate-log rows a pipeline hands out for a stream, in order. */
  function GateEmissions(st: PipeState, ss: seq<Sample>): seq<GateTable> {
    if ss == [] then [] else
      var init, s := ss[..|ss|-1], ss[|ss|-1];
      GateEmissions(st, init) + [GateEmitted(GateAdd(PushedAll(st, NoRows, init, false).0.gate, s).1)]
  }

  lemma {:induction false} GateEmissionsAreGateRows(ss: seq<Sample>)
    requires Ordered(ss)
    ensures FirstOf(GateEmissions(FreshPipe, ss)) == GateRows(ss)
  {
    if ss != [] {
      var init, s := ss[..|ss|-1], ss[|ss|-1];
      assert ss == init + [s];
      GateEmissionsAreGateRows(init);
      PushedAllClosedForm(NoRows, init, false);
      var gate := PushedAll(FreshPipe, NoRows, init, false).0.gate;
      FirstOfOneMore(GateEmissions(FreshPipe, init), GateEmitted(GateAdd(gate, s).1));
      GateRowsStep(init, s, gate, map[], false);
      MapPlusEmpty(GateRows(init));
      MapPlusEmpty(GateRows(ss));
      GateWrittenUnder(GateRows(init), GateAdd(gate, s).1);
    }
  }

  lemma GateWrittenUnder(t: GateTable, done: OpenGate)
    ensures WriteGateDone(t, done, false) == GateEmitted(done) + t
  {
    MapPlusEmpty(t);
  }

  /** BACK-FILL UNDER LIVE WRITES: however the back-fill's batches interleave with the live loop's, no
      row that was there or that the live loop wrote is changed, and every other row of the stored
      samples is filled in - in the tiers and in the gate log. */
  lemma {:induction false} BackfillInterleaved(t: Tables, ws: seq<Write<Key, Row>>,
                                               gs: seq<Write<int, LogDelta>>, ss: seq<Sample>)
    requires Ordered(ss) && Fills(ws) == Emissions(FreshPipe, ss) && Fills(gs) == GateEmissions(FreshPipe, ss)
    ensures Tables(Applied(t.rollup, ws), Applied(t.gatelog, gs))
            == Overlay(Tables(t.rollup + NewestOf(Lives(ws)), t.gatelog + NewestOf(Lives(gs))), ss, false)
    ensures forall k :: k in t.rollup && k !in NewestOf(Lives(ws)) ==> k in Applied(t.rollup, ws) && Applied(t.rollup, ws)[k] == t.rollup[k]
    ensures forall b :: b in t.gatelog && b !in NewestOf(Lives(gs)) ==> b in Applied(t.gatelog, gs) && Applied(t.gatelog, gs)[b] == t.gatelog[b]
  {
    InterleavingIsIrrelevant(t.rollup, ws);
    InterleavingIsIrrelevant(t.gatelog, gs);
    EmissionsAreTierRows(ss);
    GateEmissionsAreGateRows(ss);
  }

  /** What the live loop writes for a stream, written over a table, is that table after the stream. */
  lemma {:induction false} LiveWrites(st: PipeState, t: Tables, ss: seq<Sample>)
    ensures Tables(t.rollup + NewestOf(Emissions(st, ss)), t.gatelog + NewestOf(GateEmissions(st, ss))) == PushedAll(st, t, ss, true).1
  {
    if ss == [] {
      MapPlusEmpty(t.rollup);
      MapPlusEmpty(t.gatelog);
    } else {
      var init, s := ss[..|ss|-1], ss[|ss|-1];
      LiveWrites(st, t, init);
      PipeIgnoresTables(st, t, NoRows, init, true, false);
      var (st1, t1) := PushedAll(st, t, init, true);
      var points := SamplePoints(st1.prev, s);
      TwoMoreLive(t.rollup, Emissions(st, init), Add(RES_1M, st1.m1, s.ts, points).1, Add(RES_10M, st1.m10, s.ts, points).1);
      OneMoreLog(t.gatelog, GateEmissions(st, init), GateAdd(st1.gate, s).1);
    }
  }

  lemma {:induction false} TwoMoreLive(t: Table, lives: seq<Table>, a: Option<Batch>, b: Option<Batch>)
    ensures t + NewestOf(lives + [Emitted(a)] + [Emitted(b)]) == WriteDone(WriteDone(t + NewestOf(lives), a, true), b, true)
  {
    NewestOfOneMore(lives, Emitted(a));
    NewestOfOneMore(lives + [Emitted(a)], Emitted(b));
    WriteDoneIsOverlay(t + NewestOf(lives), a, true);
    WriteDoneIsOverlay(t + NewestOf(lives) + Emitted(a), b, true);
    MapPlusAssoc(t, NewestOf(lives), Emitted(a));
    MapPlusAssoc(t, NewestOf(lives) + Emitted(a), Emitted(b));
  }

  lemma {:induction false} OneMoreLog(t: GateTable, lives: seq<GateTable>, done: OpenGate)
    ensures t + NewestOf(lives + [GateEmitted(done)]) == WriteGateDone(t + NewestOf(lives), done, true)
  {
    NewestOfOneMore(lives, GateEmitted(done));
    MapPlusAssoc(t, NewestOf(lives), GateEmitted(done));
    MapPlusEmpty(t + NewestOf(lives));
  }
}
