/** The tables of `lss-collector/src/db.rs` that hold samples and their downsampled tiers. */
module Store {
  import opened Wrappers
  import opened Series
  import opened Rollers

  type GateTable = map<int, LogDelta>

  datatype Tables = Tables(rollup: Table, gatelog: GateTable)

  const NoRows := Tables(map[], map[])

  /** `Db::write_gatelog` on values: an empty log is never stored. */
  function GateWritten(t: GateTable, ts: int, log: LogDelta, replace: bool): GateTable {
    if EmptyLog(log) || (!replace && ts in t) then t else t[ts := log]
  }

  /** `samples` is keyed by `ts` and always read in that order. */
  ghost predicate Ordered(ss: seq<Sample>) {
    forall i, j :: 0 <= i < j < |ss| ==> ss[i].ts < ss[j].ts
  }

  /** `[from, to)` of the samples, oldest first. */
  function Between(ss: seq<Sample>, from: int, to: int): seq<Sample> {
    if ss == [] then []
    else
      var rest := Between(ss[..|ss|-1], from, to);
      if from <= ss[|ss|-1].ts < to then rest + [ss[|ss|-1]] else rest
  }

  /** `INSERT OR REPLACE INTO samples`. */
  function Inserted(ss: seq<Sample>, s: Sample): seq<Sample> {
    if ss == [] || ss[|ss|-1].ts < s.ts then ss + [s]
    else if ss[|ss|-1].ts == s.ts then ss[|ss|-1 := s]
    else Inserted(ss[..|ss|-1], s) + [ss[|ss|-1]]
  }

  lemma {:induction false} InsertedMeaning(ss: seq<Sample>, s: Sample)
    requires Ordered(ss)
    ensures Ordered(Inserted(ss, s))
    ensures forall x :: x in Inserted(ss, s) <==> x == s || (x in ss && x.ts != s.ts)
  {
    if ss == [] {
      assert Inserted(ss, s) == [s];
    } else {
      var init, last := ss[..|ss|-1], ss[|ss|-1];
      assert ss == init + [last];
      if last.ts > s.ts {
        InsertedMeaning(init, s);
        assert last.ts != s.ts && Inserted(ss, s) == Inserted(init, s) + [last];
        SnocMeaning(Inserted(init, s), last);
      } else if last.ts < s.ts {
        SnocMeaning(ss, s);
      } else {
        assert Inserted(ss, s) == init + [s];
        SnocMeaning(init, s);
        assert forall x :: x in init ==> x.ts < last.ts;
      }
    }
  }

  lemma SnocMeaning(ss: seq<Sample>, s: Sample)
    requires Ordered(ss) && forall x :: x in ss ==> x.ts < s.ts
    ensures Ordered(ss + [s]) && forall x :: x in ss + [s] <==> x in ss || x == s
  {
  }

  /** Everything from `i` on is newer: the sample goes in front of it, or onto its namesake. */
  lemma {:induction false} InsertedAt(ss: seq<Sample>, i: nat, s: Sample)
    requires i <= |ss| && (forall j :: i <= j < |ss| ==> ss[j].ts > s.ts)
    requires i > 0 ==> ss[i-1].ts <= s.ts
    ensures Inserted(ss, s) == if i > 0 && ss[i-1].ts == s.ts then ss[i-1 := s] else ss[..i] + [s] + ss[i..]
    decreases |ss|
  {
    if i == |ss| {
      assert ss[..i] == ss;
    } else {
      InsertedAt(ss[..|ss|-1], i, s);
    }
  }

  lemma {:induction false} BetweenMeaning(ss: seq<Sample>, from: int, to: int)
    requires Ordered(ss)
    ensures Ordered(Between(ss, from, to))
    ensures forall x :: x in Between(ss, from, to) <==> x in ss && from <= x.ts < to
  {
    if ss != [] {
      var init, last := ss[..|ss|-1], ss[|ss|-1];
      assert ss == init + [last];
      BetweenMeaning(init, from, to);
    }
  }

  /** Two adjacent ranges read one after the other are the whole range. */
  lemma {:induction false} BetweenSplit(ss: seq<Sample>, from: int, mid: int, to: int)
    requires Ordered(ss) && from <= mid <= to
    ensures Between(ss, from, to) == Between(ss, from, mid) + Between(ss, mid, to)
  {
    if ss != [] {
      var init, last := ss[..|ss|-1], ss[|ss|-1];
      assert Ordered(init);
      BetweenSplit(init, from, mid, to);
      if last.ts < mid {
        BetweenNothing(init, mid, to);
      }
    }
  }

  /** A range in which nothing is stored adds nothing. */
  lemma {:induction false} BetweenNothing(ss: seq<Sample>, from: int, to: int)
    requires Ordered(ss)
    requires forall x :: x in ss ==> !(from <= x.ts < to)
    ensures Between(ss, from, to) == []
  {
    BetweenMeaning(ss, from, to);
    assert Between(ss, from, to) != [] ==> Between(ss, from, to)[0] in Between(ss, from, to);
  }

  /** The rows of the batch written but those still to do. */
  ghost predicate SoFar(before: Table, now: Table, batch: Batch, todo: set<Metric>, replace: bool) {
    && (forall k :: k in now <==> k in before || (k in BatchRows(batch) && k.metric !in todo))
    && (forall k :: k in now ==>
          now[k] == if k in BatchRows(batch) && k.metric !in todo && (replace || k !in before) then BatchRows(batch)[k] else before[k])
  }

  lemma OneMoreWritten(before: Table, now: Table, batch: Batch, todo: set<Metric>, m: Metric, replace: bool)
    requires m in todo && todo <= batch.rows.Keys && SoFar(before, now, batch, todo, replace)
    ensures
      var k := Key(batch.res, m, batch.ts);
      SoFar(before, if replace || k !in now then now[k := ToRow(batch.rows[m])] else now, batch, todo - {m}, replace)
  {
  }

  lemma AllWritten(before: Table, now: Table, batch: Batch, replace: bool)
    requires SoFar(before, now, batch, {}, replace)
    ensures now == Written(before, batch, replace)
  {
  }

  class Db {
    var samples: seq<Sample>
    var rollup: Table
    var gatelog: GateTable

    ghost predicate Valid()
      reads this
    {
      Ordered(samples)
    }

    ghost function Rows(): Tables
      reads this
    {
      Tables(rollup, gatelog)
    }

    constructor ()
      ensures Valid() && samples == [] && Rows() == NoRows
    {
      samples, rollup, gatelog := [], map[], map[];
    }

    method InsertSample(s: Sample)
      requires Valid()
      modifies this`samples
      ensures Valid() && samples == Inserted(old(samples), s)
    {
      InsertedMeaning(samples, s);
      var i := |samples|;
      while i > 0 && samples[i-1].ts > s.ts
        invariant 0 <= i <= |samples|
        invariant forall j :: i <= j < |samples| ==> samples[j].ts > s.ts
      {
        i := i - 1;
      }
      InsertedAt(samples, i, s);
      if i > 0 && samples[i-1].ts == s.ts {
        samples := samples[i-1 := s];
      } else {
        samples := samples[..i] + [s] + samples[i..];
      }
    }

    /** One finished bucket; `replace = false` keeps a row that is already there. */
    method WriteRollup(batch: Batch, replace: bool)
      modifies this`rollup
      ensures rollup == Written(old(rollup), batch, replace)
    {
      ghost var before := rollup;
      var todo := batch.rows.Keys;
      while todo != {}
        invariant todo <= batch.rows.Keys
        invariant SoFar(before, rollup, batch, todo, replace)
      {
        var m :| m in todo;
        var k := Key(batch.res, m, batch.ts);
        OneMoreWritten(before, rollup, batch, todo, m, replace);
        if replace || k !in rollup {
          rollup := rollup[k := ToRow(batch.rows[m])];
        }
        todo := todo - {m};
      }
      AllWritten(before, rollup, batch, replace);
    }

    method WriteGatelog(ts: int, log: LogDelta, replace: bool)
      modifies this`gatelog
      ensures gatelog == GateWritten(old(gatelog), ts, log, replace)
    {
      if EmptyLog(log) {
        return;
      }
      if replace || ts !in gatelog {
        gatelog := gatelog[ts := log];
      }
    }

    /** `SELECT MIN(ts) FROM samples WHERE ts >= ?`. */
    method FirstSampleAtOrAfter(from: int) returns (first: Option<int>)
      requires Valid()
      ensures first.None? ==> forall x :: x in samples ==> x.ts < from
      ensures first.Some? ==> first.value >= from && (exists x :: x in samples && x.ts == first.value)
      ensures first.Some? ==> forall x :: x in samples ==> x.ts < from || x.ts >= first.value
    {
      var i := 0;
      while i < |samples| && samples[i].ts < from
        invariant 0 <= i <= |samples|
        invariant forall j :: 0 <= j < i ==> samples[j].ts < from
      {
        i := i + 1;
      }
      if i == |samples| {
        return None;
      }
      first := Some(samples[i].ts);
      assert samples[i] in samples;
      forall x | x in samples ensures x.ts < from || x.ts >= samples[i].ts {
        var j :| 0 <= j < |samples| && samples[j] == x;
      }
    }

    /** Streams the stored samples of `[from, to)`, oldest first. */
    method EachSample(from: int, to: int) returns (chunk: seq<Sample>)
      ensures chunk == Between(samples, from, to)
    {
      chunk := [];
      var i := 0;
      while i < |samples|
        invariant 0 <= i <= |samples|
        invariant chunk == Between(samples[..i], from, to)
      {
        assert samples[..i+1][..i] == samples[..i];
        if from <= samples[i].ts < to {
          chunk := chunk + [samples[i]];
        }
        i := i + 1;
      }
      assert samples[..i] == samples;
    }
  }
}
