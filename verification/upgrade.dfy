/** The first start on a database from before the tiers (`lss-collector/src/main.rs`): the replay of
    the current window, the live loop, and beside it the back-fill of everything older. The back-fill
    ends without closing its own last bucket, and no later sample closes it. */
module Upgrades {
  import opened Wrappers
  import opened Series
  import opened Rollers
  import opened Store
  import opened Rollup
  import opened Restarts
  import opened RestartLosses
  import opened Backfilling

  /** The live collector started at `at` over samples without tiers, after the samples `more`. */
  function Living(ss: seq<Sample>, at: int, more: seq<Sample>): Tables {
    var m := Started(ss, NoRows, at);
    PushedAll(m.pipe, m.t, more, true).1
  }

  /** ... and with the back-fill of `[0, open)` done beside it. */
  function Upgraded(ss: seq<Sample>, at: int, more: seq<Sample>): Tables {
    Overlay(Living(ss, at, more), Between(ss, 0, Bucket(at, RES_10M)), false)
  }

  /** In whatever order the live loop's batches and the back-fill's reach the tables. */
  lemma {:induction false} UpgradedInAnyOrder(ss: seq<Sample>, at: int, more: seq<Sample>,
                                              ws: seq<Write<Key, Row>>, gs: seq<Write<int, LogDelta>>)
    requires Ordered(ss)
    requires
      var older, m := Between(ss, 0, Bucket(at, RES_10M)), Started(ss, NoRows, at);
      && Fills(ws) == Emissions(FreshPipe, older) && Lives(ws) == Emissions(m.pipe, more)
      && Fills(gs) == GateEmissions(FreshPipe, older) && Lives(gs) == GateEmissions(m.pipe, more)
    ensures
      var t := Started(ss, NoRows, at).t;
      Tables(Applied(t.rollup, ws), Applied(t.gatelog, gs)) == Upgraded(ss, at, more)
  {
    var open, m := Bucket(at, RES_10M), Started(ss, NoRows, at);
    BetweenMeaning(ss, 0, open);
    BackfillInterleaved(m.t, ws, gs, Between(ss, 0, open));
    LiveWrites(m.pipe, m.t, more);
  }

  /** The live side alone: the collector that never died, over the samples since the window began. */
  lemma {:induction false} LivingIsOwn(ss: seq<Sample>, at: int, more: seq<Sample>)
    requires Ordered(From(ss, Bucket(at, RES_10M)) + more)
    ensures
      var own := From(ss, Bucket(at, RES_10M)) + more;
      Living(ss, at, more) == Tables(TierRows(own), GateRows(own))
  {
    var w := From(ss, Bucket(at, RES_10M));
    OrderedParts(w, more);
    PushedAllClosedForm(NoRows, w, false);
    FromNoRows(w);
    MapPlusEmpty(TierRows(w));
    MapPlusEmpty(GateRows(w));
    PipeIgnoresTables(FreshPipe, NoRows, NoRows, w, false, true);
    PushedAllConcat(FreshPipe, NoRows, w, more, true);
    FromNoRows(w + more);
  }

  /** The back-fill reads what the replay does not. */
  lemma {:induction false} BetweenAndFrom(ss: seq<Sample>, open: int)
    requires Ordered(ss) && forall s :: s in ss ==> s.ts >= 0
    ensures ss == Between(ss, 0, open) + From(ss, open)
  {
    if ss != [] {
      var init, last := ss[..|ss|-1], ss[|ss|-1];
      assert ss == init + [last];
      BetweenAndFrom(init, open);
      if last.ts < open {
        assert forall s :: s in init ==> s.ts < last.ts;
        NoneFrom(init, open);
      }
    }
  }

  /** Samples from the window on change nothing in older buckets. */
  lemma {:induction false} LaterSamples(older: seq<Sample>, rest: seq<Sample>, open: int, k: Key)
    requires Tier(k.res) && Aligned(open, RES_10M) && k.ts < open && forall s :: s in rest ==> s.ts >= open
    ensures Values(Items(older + rest), k) == Values(Items(older), k)
  {
    if rest == [] {
      assert older + rest == older;
    } else {
      var init, s := rest[..|rest|-1], rest[|rest|-1];
      assert rest == init + [s] && older + rest == older + init + [s];
      LaterSamples(older, init, open, k);
      BucketInWindow(s.ts, open, k.res);
      var ss := older + init;
      ItemsSnoc(ss, s);
      ValuesSnoc(Items(ss), Item(s.ts, SamplePoints(if ss == [] then None else Some(ss[|ss|-1]), s)), k);
    }
  }

  lemma {:induction false} LaterLogs(older: seq<Sample>, rest: seq<Sample>, open: int, b: int)
    requires Aligned(open, RES_10M) && b < open && forall s :: s in rest ==> s.ts >= open
    ensures LogIn(older + rest, b) == LogIn(older, b)
  {
    if rest == [] {
      assert older + rest == older;
    } else {
      var init, s := rest[..|rest|-1], rest[|rest|-1];
      assert rest == init + [s] && older + rest == older + init + [s];
      LaterLogs(older, init, open, b);
      BucketInWindow(s.ts, open, RES_10M);
      LogInSnoc(older + init, s, b);
    }
  }

  /** The bucket the back-fill leaves open: the one of the last sample before the window. */
  ghost predicate LeftOpen(older: seq<Sample>, k: Key)
    requires Tier(k.res)
  {
    older != [] && k.ts == Bucket(older[|older|-1].ts, k.res)
  }

  lemma {:induction false} OlderRow(older: seq<Sample>, rest: seq<Sample>, open: int, k: Key)
    requires SplitAt(older, rest, open) && Ordered(older + rest) && Tier(k.res) && k.ts < open
    ensures k in TierRows(older) <==> k in TierRows(older + rest) && !LeftOpen(older, k)
    ensures k in TierRows(older) ==> TierRows(older)[k] == TierRows(older + rest)[k]
  {
    var all := older + rest;
    OrderedParts(older, rest);
    LaterSamples(older, rest, open, k);
    if rest == [] {
      assert all == older;
    } else {
      assert all[|all|-1] == rest[|rest|-1] && rest[|rest|-1] in rest;
      BucketInWindow(all[|all|-1].ts, open, k.res);
    }
    if all != [] {
      TierRowAt(all, k);
    }
    if older == [] {
      NoTierRows();
      assert Items(older) == [];
    } else {
      TierRowAt(older, k);
      if Values(Items(older), k) != [] {
        SeenAtMostLast(older, k);
      }
    }
  }

  /** AN UPGRADED DATABASE, exactly: from the window of the start on (for a metric that stands alone), and
      for every bucket before it
      but one, the tiers read as if the collector had always written them. Missing is the bucket of the
      last sample before the window - in either tier, whatever touched it - and nothing else. */
  lemma {:induction false} UpgradeExactly(ss: seq<Sample>, at: int, more: seq<Sample>, k: Key)
    requires Ordered(ss + more) && (forall s :: s in ss ==> s.ts >= 0) && (forall s :: s in more ==> s.ts >= at)
    requires Tier(k.res)
    requires k.ts >= Bucket(at, RES_10M) ==> StandsAlone(ss + more, k.metric)
    ensures
      var open := Bucket(at, RES_10M);
      var now, whole := Upgraded(ss, at, more).rollup, Uninterrupted(ss + more).1.rollup;
      && (k in now <==> k in whole && !(k.ts < open && LeftOpen(Between(ss, 0, open), k)))
      && (k in now ==> now[k] == whole[k])
  {
    var open := Bucket(at, RES_10M);
    var older, rest := Between(ss, 0, open), From(ss, open) + more;
    UpgradeParts(ss, at, more);
    LivingIsOwn(ss, at, more);
    FromNoRows(ss + more);
    if k.ts < open {
      ShutTier(rest, open, k);
      OlderRow(older, rest, open, k);
    } else {
      WindowTier(older, rest, open, k);
      NothingOlderAt(older, open, k);
    }
  }

  lemma {:induction false} NothingOlderAt(older: seq<Sample>, open: int, k: Key)
    requires Ordered(older) && Aligned(open, RES_10M) && Tier(k.res) && k.ts >= open && forall s :: s in older ==> s.ts < open
    ensures k !in TierRows(older)
  {
    if older == [] {
      NoTierRows();
    } else {
      var last := older[|older|-1];
      assert last in older;
      BucketBefore(last.ts, open, k.res);
      TierRowAt(older, k);
    }
  }

  lemma {:induction false} UpgradeParts(ss: seq<Sample>, at: int, more: seq<Sample>)
    requires Ordered(ss + more) && (forall s :: s in ss ==> s.ts >= 0) && (forall s :: s in more ==> s.ts >= at)
    ensures
      var open := Bucket(at, RES_10M);
      var older, rest := Between(ss, 0, open), From(ss, open) + more;
      && ss + more == older + rest && SplitAt(older, rest, open) && Ordered(older) && Ordered(rest)
  {
    var open := Bucket(at, RES_10M);
    var older, rest := Between(ss, 0, open), From(ss, open) + more;
    OrderedParts(ss, more);
    BetweenAndFrom(ss, open);
    BetweenMeaning(ss, 0, open);
    var _ := FromIsSuffix(ss, open);
    assert ss + more == older + rest;
    OrderedParts(older, rest);
  }

  /** ... and so does the gate log: what was logged in the bucket of the last sample before the window
      is in no row, everything else is. */
  lemma {:induction false} UpgradeGateExactly(ss: seq<Sample>, at: int, more: seq<Sample>, b: int)
    requires Ordered(ss + more) && (forall s :: s in ss ==> s.ts >= 0) && (forall s :: s in more ==> s.ts >= at)
    ensures
      var open := Bucket(at, RES_10M);
      var older := Between(ss, 0, open);
      var now, whole := Upgraded(ss, at, more).gatelog, Uninterrupted(ss + more).1.gatelog;
      && (b in now <==> b in whole && !(b < open && older != [] && b == Bucket(older[|older|-1].ts, RES_10M)))
      && (b in now ==> now[b] == whole[b])
  {
    var open := Bucket(at, RES_10M);
    var older, rest := Between(ss, 0, open), From(ss, open) + more;
    UpgradeParts(ss, at, more);
    LivingIsOwn(ss, at, more);
    FromNoRows(ss + more);
    if b < open {
      ShutGate(rest, open, b);
      OlderGate(older, rest, open, b);
    } else {
      WindowGate(older, rest, open, b);
      NoOlderGate(older, open, b);
    }
  }

  lemma {:induction false} NoOlderGate(older: seq<Sample>, open: int, b: int)
    requires Aligned(open, RES_10M) && b >= open && forall s :: s in older ==> s.ts < open
    ensures b !in GateRows(older)
  {
    if older != [] {
      var last := older[|older|-1];
      assert last in older;
      BucketBefore(last.ts, open, RES_10M);
      GateRowAt(older, b);
    }
  }

  lemma {:induction false} OlderGate(older: seq<Sample>, rest: seq<Sample>, open: int, b: int)
    requires SplitAt(older, rest, open) && Ordered(older + rest) && b < open
    ensures b in GateRows(older) <==> b in GateRows(older + rest) && !(older != [] && b == Bucket(older[|older|-1].ts, RES_10M))
    ensures b in GateRows(older) ==> GateRows(older)[b] == GateRows(older + rest)[b]
  {
    var all := older + rest;
    LaterLogs(older, rest, open, b);
    if rest == [] {
      assert all == older;
    } else {
      assert all[|all|-1] == rest[|rest|-1] && rest[|rest|-1] in rest;
      BucketInWindow(all[|all|-1].ts, open, RES_10M);
    }
    if all != [] {
      GateRowAt(all, b);
    }
    if older == [] {
      assert LogIn(older, b) == NoLog;
    } else {
      GateRowAt(older, b);
      if LogIn(older, b) != NoLog {
        OrderedParts(older, rest);
        LogAtMostLast(older, b);
      }
    }
  }

  lemma {:induction false} LogAtMostLast(ss: seq<Sample>, b: int)
    requires Ordered(ss) && ss != [] && LogIn(ss, b) != NoLog
    ensures b <= Bucket(ss[|ss|-1].ts, RES_10M)
  {
    if b !in GateBuckets(ss) {
      LogInUnseen(ss, b);
    }
    var i :| 0 <= i < |ss| && Bucket(ss[i].ts, RES_10M) == b;
    BucketMonotone(ss[i].ts, ss[|ss|-1].ts, RES_10M);
  }

  /** One sample in an older window, then the first start of the new collector, then one sample. */
  lemma {:induction false} OlderSampleLost(a: Sample, s: Sample, at: int, k: Key)
    requires 0 <= a.ts < Bucket(at, RES_10M) && at <= s.ts && Tier(k.res) && k.ts == Bucket(a.ts, k.res)
    ensures k !in Upgraded([a], at, [s]).rollup
    ensures Bucket(a.ts, RES_10M) !in Upgraded([a], at, [s]).gatelog
  {
    var open := Bucket(at, RES_10M);
    assert [a] + [s] == [a, s];
    OnlyOlder(a, open);
    BucketBefore(a.ts, open, k.res);
    BucketBefore(a.ts, open, RES_10M);
    UpgradeExactly([a], at, [s], k);
    UpgradeGateExactly([a], at, [s], Bucket(a.ts, RES_10M));
  }

  /** One stored sample at 0, the first start of the new collector at 600: what that sample says is in
      no tier and no gate-log row, though the collector that never died has both rows. */
  lemma {:induction false} UpgradeExample(a: Sample, s: Sample, res: int)
    requires a == Plain(0) && s == Plain(600) && Tier(res)
    ensures Key(res, "serve_up", 0) in Uninterrupted([a, s]).1.rollup && 0 in Uninterrupted([a, s]).1.gatelog
    ensures Key(res, "serve_up", 0) !in Upgraded([a], 600, [s]).rollup && 0 !in Upgraded([a], 600, [s]).gatelog
  {
    ZeroAndSixHundred(res);
    ZeroAndSixHundred(RES_10M);
    PlainTouches(0, res);
    SecondCloses(a, s, Key(res, "serve_up", 0));
    SecondClosesGate(a, s);
    OlderSampleLost(a, s, 600, Key(res, "serve_up", 0));
  }

  lemma {:induction false} OnlyOlder(a: Sample, open: int)
    requires 0 <= a.ts < open
    ensures Between([a], 0, open) == [a]
  {
    var none: seq<Sample> := [];
    assert [a][..0] == none;
    assert Between(none, 0, open) == [];
  }
}
