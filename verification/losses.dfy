/** What restarts lose, exactly, over every run: late restarts, and deaths inside the push that
    closes a window, included. What is lost is said by the events alone: which samples were stored
    before each start, which rows a cut-short push had written, and when the start was. */
module RestartLosses {
  import opened Wrappers
  import opened Series
  import opened Rollers
  import opened Store
  import opened Rollup
  import opened Restarts

  // ------------------------------------------------------------------ runs on a clock

  /** When the collector last started, after at least one restart. */
  function StartedAt(es: seq<Event>): Option<int> {
    if es == [] then None
    else
      match es[|es|-1]
      case Polled(_) => StartedAt(es[..|es|-1])
      case Died(at) => Some(at)
      case Torn(_, _, _, at) => Some(at)
  }

  predicate NotBefore(started: Option<int>, ts: int) {
    started.Some? ==> started.value <= ts
  }

  /** The clock never goes back. */
  predicate Timely(ss: seq<Sample>, started: Option<int>, e: Event) {
    match e
    case Polled(s) => Newer(ss, s) && NotBefore(started, s.ts)
    case Died(at) => (ss == [] || ss[|ss|-1].ts <= at) && NotBefore(started, at)
    case Torn(s, _, _, at) => Newer(ss, s) && NotBefore(started, s.ts) && s.ts <= at
  }

  ghost predicate AllTimely(es: seq<Event>) {
    es == [] || (AllTimely(es[..|es|-1]) && Timely(Run(es[..|es|-1]).samples, StartedAt(es[..|es|-1]), es[|es|-1]))
  }

  /** Before the window of the last start: nothing writes there any more. */
  predicate Shut(started: Option<int>, ts: int) {
    started.Some? && ts < Bucket(started.value, RES_10M)
  }

  // ------------------------------------------------------------------ what a start finds

  function StoredBy(ss: seq<Sample>, e: Event): seq<Sample> {
    match e
    case Polled(s) => ss + [s]
    case Died(_) => ss
    case Torn(s, _, _, _) => ss + [s]
  }

  /** Every sample a run stored. */
  function Sampled(es: seq<Event>): seq<Sample> {
    if es == [] then [] else StoredBy(Sampled(es[..|es|-1]), es[|es|-1])
  }

  /** No stored sample is past this bucket. */
  predicate NotClosed(ss: seq<Sample>, res: int, ts: int)
    requires Tier(res)
  {
    ss == [] || ts >= Bucket(ss[|ss|-1].ts, res)
  }

  /** What happened says that the start at the end of this event finds the row not yet written: its
      bucket was not closed before the last sample, or was to be closed by a push that was cut short
      before it wrote the row. */
  predicate Unwritten(ss: seq<Sample>, e: Event, k: Key)
    requires Tier(k.res)
  {
    match e
    case Polled(_) => false
    case Died(_) => NotClosed(ss, k.res, k.ts)
    case Torn(s, kept, _, _) => NotClosed(ss + [s], k.res, k.ts) || (NotClosed(ss, k.res, k.ts) && k !in kept)
  }

  /** The start does not replay the window of a row not yet written ... */
  predicate LostAt(ss: seq<Sample>, e: Event, k: Key)
    requires Tier(k.res)
  {
    Unwritten(ss, e, k) && k.ts < Bucket(e.at, RES_10M)
  }

  /** ... or replays it, without the sample before it. */
  predicate ForgottenAt(ss: seq<Sample>, e: Event, k: Key)
    requires Tier(k.res)
  {
    Unwritten(ss, e, k) && Bucket(k.ts, RES_10M) == Bucket(e.at, RES_10M)
  }

  predicate Lost(es: seq<Event>, k: Key)
    requires Tier(k.res)
  {
    es != [] && (Lost(es[..|es|-1], k) || LostAt(Sampled(es[..|es|-1]), es[|es|-1], k))
  }

  predicate Forgotten(es: seq<Event>, k: Key)
    requires Tier(k.res)
  {
    es != [] && (Forgotten(es[..|es|-1], k) || ForgottenAt(Sampled(es[..|es|-1]), es[|es|-1], k))
  }

  /** The same for a row of the gate log, which one push writes whole or not at all. */
  predicate GateUnwritten(ss: seq<Sample>, e: Event, b: int) {
    match e
    case Polled(_) => false
    case Died(_) => NotClosed(ss, RES_10M, b)
    case Torn(s, _, gateKept, _) => NotClosed(ss + [s], RES_10M, b) || (NotClosed(ss, RES_10M, b) && !gateKept)
  }

  predicate GateLostAt(ss: seq<Sample>, e: Event, b: int) {
    GateUnwritten(ss, e, b) && b < Bucket(e.at, RES_10M)
  }

  predicate GateLost(es: seq<Event>, b: int) {
    es != [] && (GateLost(es[..|es|-1], b) || GateLostAt(Sampled(es[..|es|-1]), es[|es|-1], b))
  }

  function Touches(ss: seq<Sample>, k: Key): bool
    requires Tier(k.res)
  {
    Values(Items(ss), k) != []
  }

  /** Of the rows something was put into, a start loses those of the bucket of the last sample, and of
      the bucket a cut-short push was closing those it had not written. */
  lemma {:induction false} LostIsTheOpenRow(ss: seq<Sample>, e: Event, k: Key)
    requires Ordered(StoredBy(ss, e)) && Tier(k.res) && Touches(StoredBy(ss, e), k) && !e.Polled? && k.ts < Bucket(e.at, RES_10M)
    ensures
      var last := ss != [] && k.ts == Bucket(ss[|ss|-1].ts, k.res);
      LostAt(ss, e, k) <==>
        match e
        case Polled(_) => false
        case Died(_) => last
        case Torn(s, kept, _, _) => k.ts == Bucket(s.ts, k.res) || (last && k !in kept)
  {
    SeenAtMostLast(StoredBy(ss, e), k);
    if e.Torn? && k.ts < Bucket(e.s.ts, k.res) {
      OrderedParts(ss, [e.s]);
      OtherBucket(ss, e.s, k);
      SeenAtMostLast(ss, k);
    }
  }

  lemma {:induction false} SeenAtMostLast(ss: seq<Sample>, k: Key)
    requires Ordered(ss) && Tier(k.res) && Touches(ss, k)
    ensures ss != [] && k.ts <= Bucket(ss[|ss|-1].ts, k.res)
  {
    assert ss == [] ==> Items(ss) == [];
    SeenMeaning(Items(ss), k);
    ItemsInOrder(ss);
    SeenBounded(Items(ss), k.res);
  }

  lemma {:induction false} OtherBucket(ss: seq<Sample>, s: Sample, k: Key)
    requires Tier(k.res) && k.ts != Bucket(s.ts, k.res)
    ensures Values(Items(ss + [s]), k) == Values(Items(ss), k)
  {
    ItemsSnoc(ss, s);
    ValuesSnoc(Items(ss), Item(s.ts, SamplePoints(if ss == [] then None else Some(ss[|ss|-1]), s)), k);
  }

  /** The tables a start opens. */
  function Survivors(x: Machine, e: Event): Tables {
    match e
    case Polled(s) => Pushed(x.pipe, x.t, s, true).1
    case Died(_) => x.t
    case Torn(s, kept, gateKept, _) => TornTables(x.pipe, x.t, s, kept, gateKept)
  }

  // ------------------------------------------------------------------ the pipeline

  /** The pipeline has seen exactly the samples since the window of the last start. */
  ghost predicate Follows(x: Machine, started: Option<int>, older: seq<Sample>, w: seq<Sample>) {
    && Ordered(x.samples) && x.samples == older + w && Ordered(w)
    && x.pipe == Uninterrupted(w).0
    && (started.None? ==> older == [])
    && (started.Some? ==> SplitAt(older, w, Bucket(started.value, RES_10M)))
  }

  lemma {:induction false} PolledFollows(x: Machine, started: Option<int>, older: seq<Sample>, w: seq<Sample>, s: Sample)
    requires Follows(x, started, older, w) && Newer(x.samples, s) && NotBefore(started, s.ts)
    ensures Follows(Stepped(x, Polled(s)), started, older, w + [s])
  {
    OrderedSnoc(x.samples, s);
    assert x.samples + [s] == older + (w + [s]);
    OrderedParts(older, w + [s]);
    UninterruptedSnoc(w, s);
    if started.Some? {
      assert s.ts >= Bucket(started.value, RES_10M);
    }
  }

  lemma {:induction false} StartFollows(ss: seq<Sample>, t: Tables, at: int) returns (older: seq<Sample>, w: seq<Sample>)
    requires Ordered(ss)
    ensures w == From(ss, Bucket(at, RES_10M))
    ensures Follows(Started(ss, t, at), Some(at), older, w)
  {
    w := From(ss, Bucket(at, RES_10M));
    older := FromIsSuffix(ss, Bucket(at, RES_10M));
    OrderedParts(older, w);
    PipeIgnoresTables(FreshPipe, t, NoRows, w, false, true);
  }

  lemma {:induction false} RunFollows(es: seq<Event>) returns (older: seq<Sample>, w: seq<Sample>)
    requires AllTimely(es)
    ensures Follows(Run(es), StartedAt(es), older, w)
  {
    if es == [] {
      older, w := [], [];
    } else {
      var init, e := es[..|es|-1], es[|es|-1];
      var x := Run(init);
      older, w := RunFollows(init);
      match e {
        case Polled(s) =>
          PolledFollows(x, StartedAt(init), older, w, s);
          w := w + [s];
        case Died(at) =>
          older, w := StartFollows(x.samples, x.t, at);
        case Torn(s, kept, gateKept, at) =>
          OrderedSnoc(x.samples, s);
          older, w := StartFollows(x.samples + [s], TornTables(x.pipe, x.t, s, kept, gateKept), at);
      }
    }
  }

  // ------------------------------------------------------------------ reference rows of a window

  lemma NoTierRows()
    ensures TierRows([]) == map[]
  {
    MapPlusEmpty<Key, Row>(map[]);
  }

  /** From its start on, a window's own rows are the whole stream's - for a metric that stands alone. */
  lemma {:induction false} WindowTier(older: seq<Sample>, w: seq<Sample>, open: int, k: Key)
    requires SplitAt(older, w, open) && StandsAlone(older + w, k.metric) && Tier(k.res) && k.ts >= open
    ensures SameCell(TierRows(w), TierRows(older + w), k)
  {
    if w == [] {
      NoTierRows();
      assert older + w == older;
      if older != [] {
        TierRowAt(older, k);
        assert older[|older|-1] in older;
      }
    } else {
      TierRowAt(w, k);
      TierRowAt(older + w, k);
      WindowCell(older, w, open, k);
    }
  }

  /** Before its start a window touches nothing. */
  lemma {:induction false} ShutTier(w: seq<Sample>, open: int, k: Key)
    requires Tier(k.res) && Aligned(open, RES_10M) && k.ts < open && forall s :: s in w ==> s.ts >= open
    ensures Values(Items(w), k) == [] && k !in TierRows(w)
  {
    if w == [] {
      NoTierRows();
    } else {
      forall i | 0 <= i < |w| ensures Bucket(w[i].ts, k.res) != k.ts {
        assert w[i] in w;
        BucketInWindow(w[i].ts, open, k.res);
      }
      NothingSeen(Items(w), k);
      TierRowAt(w, k);
    }
  }

  // ------------------------------------------------------------------ one row

  /** A push writes no row from before the window of the last start. */
  lemma {:induction false} ShutRowStays(x: Machine, started: Option<int>, older: seq<Sample>, w: seq<Sample>, s: Sample, k: Key)
    requires Follows(x, started, older, w) && Newer(x.samples, s) && NotBefore(started, s.ts)
    requires Tier(k.res) && Shut(started, k.ts)
    ensures SameCell(Pushed(x.pipe, x.t, s, true).1.rollup, x.t.rollup, k)
  {
    var open := Bucket(started.value, RES_10M);
    PolledFollows(x, started, older, w, s);
    PushedAllClosedForm(NoRows, w, true);
    ShutTier(w, open, k);
    ShutTier(w + [s], open, k);
    PushedOnStep(w, s, x.pipe, x.t, k);
  }

  /** One written cell, against a window's reference before and after and the whole stream's. */
  lemma CellStep<K, V>(own: map<K, V>, own': map<K, V>, all: map<K, V>, all': map<K, V>, t: map<K, V>, t': map<K, V>, shut: bool, k: K)
    requires shut ==> k !in own && k !in own'
    requires !shut ==> (k in own <==> k in all) && (k in own && k in all ==> own[k] == all[k])
    requires !shut ==> (k in own' <==> k in all') && (k in own' && k in all' ==> own'[k] == all'[k])
    requires k in all ==> k in all' && all'[k] == all[k]
    requires k in t ==> k in all && t[k] == all[k]
    requires !shut && k in all ==> k in t
    requires k in own' ==> k in t' && t'[k] == own'[k]
    requires k !in own' ==> (k in t' <==> k in t) && (k in t ==> t'[k] == t[k])
    ensures k in t ==> k in t'
    ensures shut ==> (k in t' <==> k in t)
    ensures k in t' ==> k in all' && t'[k] == all'[k]
    ensures !shut && k in all' ==> k in t'
  {
  }

  /** The raw values the run knows of a bucket: those of all samples, or those of its window alone. */
  function Known(ss: seq<Sample>, forgotten: bool, k: Key): seq<real>
    requires Tier(k.res)
  {
    Values(Items(if forgotten then From(ss, Bucket(k.ts, RES_10M)) else ss), k)
  }

  /** What a row is expected to hold. */
  function Expected(ss: seq<Sample>, lost: bool, forgotten: bool, k: Key): seq<real>
    requires Tier(k.res)
  {
    if NotClosed(ss, k.res, k.ts) || lost then [] else Known(ss, forgotten, k)
  }

  lemma {:induction false} FromSnoc(ss: seq<Sample>, s: Sample, open: int)
    ensures From(ss + [s], open) == From(ss, open) + if open <= s.ts then [s] else []
  {
    assert (ss + [s])[..|ss|] == ss;
  }

  /** Another bucket's sample adds nothing. */
  lemma {:induction false} KnownStays(ss: seq<Sample>, s: Sample, forgotten: bool, k: Key)
    requires Tier(k.res) && k.ts != Bucket(s.ts, k.res)
    ensures Known(ss + [s], forgotten, k) == Known(ss, forgotten, k)
  {
    var open := Bucket(k.ts, RES_10M);
    OtherBucket(ss, s, k);
    FromSnoc(ss, s, open);
    OtherBucket(From(ss, open), s, k);
    assert From(ss, open) + [] == From(ss, open);
  }

  lemma {:induction false} ClosedOnly(ss: seq<Sample>, s: Sample, k: Key)
    requires Ordered(ss + [s]) && Tier(k.res) && !NotClosed(ss, k.res, k.ts)
    ensures !NotClosed(ss + [s], k.res, k.ts) && k.ts != Bucket(s.ts, k.res)
  {
    assert (ss + [s])[|ss|-1] == ss[|ss|-1] && (ss + [s])[|ss|] == s;
    BucketMonotone(ss[|ss|-1].ts, s.ts, k.res);
  }

  // what the events say

  lemma {:induction false} SampledIs(es: seq<Event>)
    ensures Run(es).samples == Sampled(es)
  {
    if es != [] {
      SampledIs(es[..|es|-1]);
    }
  }

  /** Only a start that does not replay the row's window loses it; only one that does forgets. */
  lemma {:induction false} StartsDecide(es: seq<Event>, k: Key)
    requires AllTimely(es) && Tier(k.res)
    ensures Lost(es, k) ==> Shut(StartedAt(es), k.ts)
    ensures Forgotten(es, k) ==> StartedAt(es).Some? && Bucket(k.ts, RES_10M) <= Bucket(StartedAt(es).value, RES_10M)
  {
    if es != [] {
      var init, e := es[..|es|-1], es[|es|-1];
      StartsDecide(init, k);
      if !e.Polled? && StartedAt(init).Some? {
        BucketMonotone(StartedAt(init).value, e.at, RES_10M);
      }
    }
  }

  /** A row not yet closed was found unwritten by every start, so also by the last one. */
  lemma {:induction false} NotClosedDecides(es: seq<Event>, k: Key)
    requires AllTimely(es) && Tier(k.res) && StartedAt(es).Some? && NotClosed(Sampled(es), k.res, k.ts)
    ensures Shut(StartedAt(es), k.ts) ==> Lost(es, k)
    ensures Bucket(k.ts, RES_10M) == Bucket(StartedAt(es).value, RES_10M) ==> Forgotten(es, k)
  {
    var init, e := es[..|es|-1], es[|es|-1];
    if e.Polled? {
      var older, w := RunFollows(es);
      SampledIs(es);
      if !NotClosed(Sampled(init), k.res, k.ts) {
        ClosedOnly(Sampled(init), e.s, k);
      }
      NotClosedDecides(init, k);
    }
  }

  // what the pipeline knows of a row not yet closed

  lemma {:induction false} FromSplit(older: seq<Sample>, w: seq<Sample>, open: int)
    requires SplitAt(older, w, open)
    ensures From(older + w, open) == w
  {
    if w == [] {
      assert older + w == older;
      NoneFrom(older, open);
    } else {
      var init, s := w[..|w|-1], w[|w|-1];
      assert w == init + [s] && older + w == older + init + [s] && s in w;
      FromSplit(older, init, open);
      FromSnoc(older + init, s, open);
    }
  }

  /** A whole window after the start's own, the sample before the start is too old to matter. */
  lemma {:induction false} FarFromStart(older: seq<Sample>, w: seq<Sample>, open: int, k: Key)
    requires SplitAt(older, w, open) && Tier(k.res) && k.ts >= open + RES_10M
    ensures Values(Items(older + w), k) == Values(Items(w), k)
  {
    if w == [] {
      assert older + w == older;
      OlderSayNothing(older, k);
    } else {
      WindowRowValues(older, w, k);
      if older != [] {
        assert older[|older|-1] in older;
      }
    }
  }

  ghost predicate Sees(ss: seq<Sample>, w: seq<Sample>, started: Option<int>, lost: bool, forgotten: bool, k: Key)
    requires Tier(k.res)
  {
    && (lost ==> Shut(started, k.ts))
    && (NotClosed(ss, k.res, k.ts) ==> (Shut(started, k.ts) ==> lost) && (!lost ==> Values(Items(w), k) == Known(ss, forgotten, k)))
  }

  lemma {:induction false} RunSees(es: seq<Event>, older: seq<Sample>, w: seq<Sample>, k: Key)
    requires AllTimely(es) && Tier(k.res) && Follows(Run(es), StartedAt(es), older, w)
    ensures Sees(Sampled(es), w, StartedAt(es), Lost(es, k), Forgotten(es, k), k)
  {
    SampledIs(es);
    StartsDecide(es, k);
    var ss, started := Sampled(es), StartedAt(es);
    if NotClosed(ss, k.res, k.ts) {
      if started.None? {
        assert older + w == w;
      } else {
        NotClosedDecides(es, k);
        if k.ts >= Bucket(started.value, RES_10M) {
          WindowOf(k.ts, Bucket(started.value, RES_10M));
          if Bucket(k.ts, RES_10M) == Bucket(started.value, RES_10M) {
            FromSplit(older, w, Bucket(started.value, RES_10M));
          } else {
            FarFromStart(older, w, Bucket(started.value, RES_10M), k);
          }
        }
      }
    }
  }

  lemma WindowOf(ts: int, open: int)
    requires Aligned(open, RES_10M) && ts >= open
    ensures Bucket(ts, RES_10M) >= open
    ensures Bucket(ts, RES_10M) != open ==> ts >= open + RES_10M
  {
    BucketInWindow(ts, open, RES_10M);
    if Bucket(ts, RES_10M) != open {
      AlignedGap(open, Bucket(ts, RES_10M), RES_10M);
    }
  }

  // one push

  lemma FirstPushWritesNothing(t: Tables, s: Sample)
    ensures Pushed(FreshPipe, t, s, true).1 == t
  {
  }

  /** The push that closes the bucket of the last sample writes what the pipeline knows of it. */
  lemma {:induction false} ClosingPush(x: Machine, w: seq<Sample>, s: Sample, k: Key)
    requires x.pipe == Uninterrupted(w).0 && Ordered(w + [s]) && w != [] && Tier(k.res)
    requires k.ts == Bucket(w[|w|-1].ts, k.res) && k !in x.t.rollup
    ensures CellIs(Pushed(x.pipe, x.t, s, true).1.rollup, k, if k.ts < Bucket(s.ts, k.res) then Values(Items(w), k) else [])
  {
    OrderedParts(w, [s]);
    PushedAllClosedForm(NoRows, w, true);
    TierRowAt(w, k);
    PushedOnStep(w, s, x.pipe, x.t, k);
    assert (w + [s])[|w|] == s;
    TierRowAt(w + [s], k);
    if k.ts < Bucket(s.ts, k.res) {
      OtherBucket(w, s, k);
    }
  }

  /** Every other push leaves the row as it is. */
  lemma {:induction false} OtherPush(x: Machine, w: seq<Sample>, s: Sample, k: Key)
    requires x.pipe == Uninterrupted(w).0 && Ordered(w) && Tier(k.res) && (w != [] ==> k.ts != Bucket(w[|w|-1].ts, k.res))
    ensures SameCell(Pushed(x.pipe, x.t, s, true).1.rollup, x.t.rollup, k)
  {
    if w == [] {
      FirstPushWritesNothing(x.t, s);
    } else {
      PushedAllClosedForm(NoRows, w, true);
      OpenOnlyWritten(w, s, x.pipe, x.t, k);
    }
  }

  lemma {:induction false} PolledCell(x: Machine, started: Option<int>, older: seq<Sample>, w: seq<Sample>, s: Sample, lost: bool, forgotten: bool, k: Key)
    requires Follows(x, started, older, w) && Newer(x.samples, s) && NotBefore(started, s.ts) && Tier(k.res)
    requires Sees(x.samples, w, started, lost, forgotten, k)
    requires CellIs(x.t.rollup, k, Expected(x.samples, lost, forgotten, k))
    ensures CellIs(Pushed(x.pipe, x.t, s, true).1.rollup, k, Expected(x.samples + [s], lost, forgotten, k))
  {
    PolledFollows(x, started, older, w, s);
    assert w != [] ==> x.samples[|x.samples|-1] == w[|w|-1];
    PushKeeps(x, started, w, s, lost, forgotten, k);
  }

  lemma {:induction false} PushKeeps(x: Machine, started: Option<int>, w: seq<Sample>, s: Sample, lost: bool, forgotten: bool, k: Key)
    requires Ordered(x.samples + [s]) && Ordered(w) && Ordered(w + [s]) && x.pipe == Uninterrupted(w).0 && Tier(k.res)
    requires w != [] ==> x.samples != [] && x.samples[|x.samples|-1] == w[|w|-1]
    requires started.Some? ==> forall r :: r in w ==> r.ts >= Bucket(started.value, RES_10M)
    requires Sees(x.samples, w, started, lost, forgotten, k)
    requires CellIs(x.t.rollup, k, Expected(x.samples, lost, forgotten, k))
    ensures CellIs(Pushed(x.pipe, x.t, s, true).1.rollup, k, Expected(x.samples + [s], lost, forgotten, k))
  {
    var ss := x.samples;
    ExpectedNext(ss, s, lost, forgotten, k);
    if NotClosed(ss, k.res, k.ts) && !lost && w != [] && k.ts == Bucket(w[|w|-1].ts, k.res) {
      ClosingPush(x, w, s, k);
    } else {
      if lost {
        NothingBefore(w, started, k);
      } else if NotClosed(ss, k.res, k.ts) {
        NothingYet(w, k);
      }
      OtherPush(x, w, s, k);
    }
  }

  /** One more sample changes what is expected of a row only by closing its bucket. */
  lemma {:induction false} ExpectedNext(ss: seq<Sample>, s: Sample, lost: bool, forgotten: bool, k: Key)
    requires Ordered(ss + [s]) && Tier(k.res)
    ensures Expected(ss + [s], lost, forgotten, k) ==
            if !NotClosed(ss, k.res, k.ts) then Expected(ss, lost, forgotten, k)
            else if k.ts < Bucket(s.ts, k.res) && !lost then Known(ss, forgotten, k) else []
  {
    assert (ss + [s])[|ss|] == s;
    if !NotClosed(ss, k.res, k.ts) {
      ClosedOnly(ss, s, k);
    }
    if k.ts != Bucket(s.ts, k.res) {
      KnownStays(ss, s, forgotten, k);
    }
  }

  lemma {:induction false} NothingBefore(w: seq<Sample>, started: Option<int>, k: Key)
    requires Tier(k.res) && Shut(started, k.ts) && forall s :: s in w ==> s.ts >= Bucket(started.value, RES_10M)
    ensures w != [] ==> k.ts != Bucket(w[|w|-1].ts, k.res)
  {
    if w != [] {
      assert w[|w|-1] in w;
      BucketInWindow(w[|w|-1].ts, Bucket(started.value, RES_10M), k.res);
    }
  }

  lemma {:induction false} NothingYet(w: seq<Sample>, k: Key)
    requires Ordered(w) && Tier(k.res) && (w != [] ==> k.ts > Bucket(w[|w|-1].ts, k.res))
    ensures Values(Items(w), k) == []
  {
    if Touches(w, k) {
      SeenAtMostLast(w, k);
    }
  }

  // one start

  lemma {:induction false} SurvivorCell(x: Machine, started: Option<int>, older: seq<Sample>, w: seq<Sample>, e: Event, lost: bool, forgotten: bool, k: Key)
    requires Follows(x, started, older, w) && Timely(x.samples, started, e) && !e.Polled? && Tier(k.res)
    requires Sees(x.samples, w, started, lost, forgotten, k)
    requires CellIs(x.t.rollup, k, Expected(x.samples, lost, forgotten, k))
    ensures
      var all := StoredBy(x.samples, e);
      && Ordered(all)
      && (!Unwritten(x.samples, e, k) ==> !NotClosed(all, k.res, k.ts))
      && CellIs(Survivors(x, e).rollup, k, if Unwritten(x.samples, e, k) || lost then [] else Known(all, forgotten, k))
  {
    if e.Torn? {
      OrderedSnoc(x.samples, e.s);
      PolledCell(x, started, older, w, e.s, lost, forgotten, k);
      if !NotClosed(x.samples, k.res, k.ts) {
        ClosedOnly(x.samples, e.s, k);
        KnownStays(x.samples, e.s, forgotten, k);
      }
    }
  }

  /** A metric that a window's first sample says something about alone, it says something about with
      the sample before it. */
  lemma {:induction false} AloneSaysNoMore(older: seq<Sample>, w: seq<Sample>, k: Key)
    requires Tier(k.res) && (forall s :: s in older ==> s.ts < k.ts) && Values(Items(older + w), k) == []
    ensures Values(Items(w), k) == []
  {
    if w == [] {
      assert Items(w) == [];
    } else {
      WindowRowValues(older, w, k);
    }
  }

  lemma {:induction false} StartCell(ss: seq<Sample>, t: Tables, at: int, lost: bool, forgotten: bool, unwritten: bool, k: Key)
    requires Ordered(ss) && Tier(k.res) && (ss != [] ==> ss[|ss|-1].ts <= at)
    requires CellIs(t.rollup, k, if unwritten || lost then [] else Known(ss, forgotten, k))
    requires !unwritten ==> !NotClosed(ss, k.res, k.ts)
    requires lost ==> k.ts < Bucket(at, RES_10M)
    ensures CellIs(Started(ss, t, at).t.rollup, k,
                   Expected(ss, lost || (unwritten && k.ts < Bucket(at, RES_10M)),
                            forgotten || (unwritten && Bucket(k.ts, RES_10M) == Bucket(at, RES_10M)), k))
  {
    var open := Bucket(at, RES_10M);
    var older, w := StartFollows(ss, t, at);
    PushedAllClosedForm(t, w, false);
    if k.ts < open {
      ShutTier(w, open, k);
    } else {
      FromSplit(older, w, open);
      WindowOf(k.ts, open);
      ReplayedCell(older, w, at, k);
      if !unwritten {
        AloneSaysNoMoreHere(older, w, open, forgotten, k);
      }
    }
  }

  /** What the replay itself would write of a row of its window. */
  lemma {:induction false} ReplayedCell(older: seq<Sample>, w: seq<Sample>, at: int, k: Key)
    requires SplitAt(older, w, Bucket(at, RES_10M)) && Ordered(older + w) && Ordered(w) && Tier(k.res) && k.ts >= Bucket(at, RES_10M)
    requires older + w != [] ==> (older + w)[|older + w|-1].ts <= at
    ensures CellIs(TierRows(w), k, if NotClosed(older + w, k.res, k.ts) then [] else Values(Items(w), k))
    ensures !NotClosed(older + w, k.res, k.ts) ==> Bucket(k.ts, RES_10M) == Bucket(at, RES_10M)
  {
    var open, ss := Bucket(at, RES_10M), older + w;
    if w == [] {
      assert ss == older;
      NoTierRows();
      if older != [] {
        assert older[|older|-1] in older;
        BucketBefore(older[|older|-1].ts, open, k.res);
      }
    } else {
      assert ss[|ss|-1] == w[|w|-1];
      TierRowAt(w, k);
      if k.ts < Bucket(w[|w|-1].ts, k.res) {
        BucketMonotone(k.ts, at, RES_10M);
        WindowOf(k.ts, open);
      }
    }
  }

  lemma {:induction false} AloneSaysNoMoreHere(older: seq<Sample>, w: seq<Sample>, open: int, forgotten: bool, k: Key)
    requires SplitAt(older, w, open) && Tier(k.res) && k.ts >= open && From(older + w, open) == w
    requires forgotten ==> Bucket(k.ts, RES_10M) == open
    ensures Known(older + w, forgotten, k) == [] ==> Values(Items(w), k) == []
  {
    if !forgotten && Known(older + w, forgotten, k) == [] {
      AloneSaysNoMore(older, w, k);
    }
  }

  /** At every moment of every run, for one row of any metric. */
  lemma {:induction false} RowExactly(es: seq<Event>, k: Key)
    requires AllTimely(es) && Tier(k.res)
    ensures CellIs(Run(es).t.rollup, k, Expected(Sampled(es), Lost(es, k), Forgotten(es, k), k))
  {
    if es != [] {
      var init, e := es[..|es|-1], es[|es|-1];
      var x := Run(init);
      RowExactly(init, k);
      SampledIs(init);
      var older, w := RunFollows(init);
      RunSees(init, older, w, k);
      if e.Polled? {
        PolledCell(x, StartedAt(init), older, w, e.s, Lost(init, k), Forgotten(init, k), k);
      } else {
        SurvivorCell(x, StartedAt(init), older, w, e, Lost(init, k), Forgotten(init, k), k);
        if Lost(init, k) {
          BucketMonotone(StartedAt(init).value, e.at, RES_10M);
        }
        StartCell(StoredBy(x.samples, e), Survivors(x, e), e.at, Lost(init, k), Forgotten(init, k), Unwritten(x.samples, e, k), k);
      }
    }
  }

  // ------------------------------------------------------------------ what a run loses

  /** WHAT A RUN LOSES, exactly, said by the events alone: at the end of any run of polls, deaths and
      pushes cut short on a clock that never goes back, a row of a metric that stands alone is there,
      and right, if and only if it is one of the collector's that never died and no start came after
      its window with the row not yet written. */
  lemma {:induction false} RestartExactly(es: seq<Event>, k: Key)
    requires AllTimely(es) && Tier(k.res) && StandsAlone(Sampled(es), k.metric)
    ensures
      var whole := Uninterrupted(Sampled(es)).1.rollup;
      && (k in Run(es).t.rollup <==> k in whole && !Lost(es, k))
      && (k in Run(es).t.rollup && k in whole ==> Run(es).t.rollup[k] == whole[k])
  {
    RowExactly(es, k);
    WholeCell(es, k);
    var ss := Sampled(es);
    if !NotClosed(ss, k.res, k.ts) {
      KnownAlone(ss, k);
    }
  }

  lemma {:induction false} WholeCell(es: seq<Event>, k: Key)
    requires AllTimely(es) && Tier(k.res)
    ensures Ordered(Sampled(es))
    ensures CellIs(Uninterrupted(Sampled(es)).1.rollup, k, Expected(Sampled(es), false, false, k))
  {
    SampledIs(es);
    var older, w := RunFollows(es);
    ReferenceRow(Sampled(es), k);
  }

  lemma {:induction false} ReferenceRow(ss: seq<Sample>, k: Key)
    requires Ordered(ss) && Tier(k.res)
    ensures CellIs(Uninterrupted(ss).1.rollup, k, Expected(ss, false, false, k))
  {
    if NotClosed(ss, k.res, k.ts) {
      FromNoRows(ss);
      if ss == [] {
        NoTierRows();
      } else {
        TierRowAt(ss, k);
      }
    } else {
      ReferenceCell(ss, k);
    }
  }

  lemma {:induction false} KnownAlone(ss: seq<Sample>, k: Key)
    requires Ordered(ss) && Tier(k.res) && StandsAlone(ss, k.metric)
    ensures Known(ss, true, k) == Known(ss, false, k)
  {
    var open := Bucket(k.ts, RES_10M);
    var older := FromIsSuffix(ss, open);
    WindowCell(older, From(ss, open), open, k);
  }

  /** The window's first sample says the same of the row with and without the sample before it. */
  ghost predicate StepUnneeded(ss: seq<Sample>, k: Key)
    requires Tier(k.res)
  {
    var w := From(ss, Bucket(k.ts, RES_10M));
    w == [] || |w| >= |ss| || FirstPoint(Some(ss[|ss| - |w| - 1]), w[0], k) == FirstPoint(None, w[0], k)
  }

  /** ... AND FOR ANY METRIC, also one computed against the sample before: at the end of any run a row
      is as the collector that never died has it if and only if its bucket is not closed; or, lost by
      some start, it was never touched; or, not lost, no start of its own window found it unwritten or
      the window's first sample says the same of it without the sample before. So a run costs at most
      that one step of each window. */
  lemma {:induction false} RestartAnyMetric(es: seq<Event>, k: Key)
    requires AllTimely(es) && Tier(k.res)
    ensures
      var ss := Sampled(es);
      SameCell(Run(es).t.rollup, Uninterrupted(ss).1.rollup, k)
      <==> || NotClosed(ss, k.res, k.ts)
           || (if Lost(es, k) then !Touches(ss, k) else !Forgotten(es, k) || StepUnneeded(ss, k))
  {
    RowExactly(es, k);
    WholeCell(es, k);
    var ss := Sampled(es);
    if !NotClosed(ss, k.res, k.ts) && !Lost(es, k) && Forgotten(es, k) {
      ForgettingCosts(ss, Run(es).t.rollup, Uninterrupted(ss).1.rollup, k);
    }
  }

  lemma {:induction false} ForgettingCosts(ss: seq<Sample>, t: Table, u: Table, k: Key)
    requires Ordered(ss) && Tier(k.res)
    requires CellIs(t, k, Known(ss, true, k)) && CellIs(u, k, Known(ss, false, k))
    ensures SameCell(t, u, k) <==> StepUnneeded(ss, k)
  {
    var open := Bucket(k.ts, RES_10M);
    var w := From(ss, open);
    var older := FromIsSuffix(ss, open);
    if w == [] {
      assert older + w == older;
      OlderSayNothing(older, k);
    } else if older == [] {
      assert older + w == w;
    } else {
      assert ss[|ss| - |w| - 1] == older[|older|-1];
      StepDecides(older, w, t, u, k);
    }
  }

  lemma {:induction false} OlderSayNothing(older: seq<Sample>, k: Key)
    requires Tier(k.res) && forall s :: s in older ==> s.ts < k.ts
    ensures Values(Items(older), k) == [] && Values(Items([]), k) == []
  {
    forall i | 0 <= i < |older| ensures Items(older)[i].ts < k.ts { assert older[i] in older; }
    assert Items(older) + [] == Items(older) && Items([]) == [];
    ValuesOfOlder(Items(older), [], k);
  }

  lemma {:induction false} StepDecides(older: seq<Sample>, w: seq<Sample>, t: Table, u: Table, k: Key)
    requires older != [] && w != [] && Tier(k.res) && forall s :: s in older ==> s.ts < k.ts
    requires CellIs(t, k, Values(Items(w), k)) && CellIs(u, k, Values(Items(older + w), k))
    ensures SameCell(t, u, k) <==> FirstPoint(Some(older[|older|-1]), w[0], k) == FirstPoint(None, w[0], k)
  {
    WindowRowValues(older, w, k);
    CellsDifferInFirst(t, u, k, FirstPoint(Some(older[|older|-1]), w[0], k), FirstPoint(None, w[0], k), Values(Items(w)[1..], k));
  }

  // ------------------------------------------------------------------ one gate-log row

  ghost predicate GateOk(ss: seq<Sample>, g: GateTable, started: Option<int>, b: int) {
    && (b in g ==> b in GateRows(ss) && g[b] == GateRows(ss)[b])
    && (!Shut(started, b) && b in GateRows(ss) ==> b in g)
  }

  lemma {:induction false} GateRowAt(ss: seq<Sample>, b: int)
    requires ss != []
    ensures b in GateRows(ss) <==> LogIn(ss, b) != NoLog && b < Bucket(ss[|ss|-1].ts, RES_10M)
    ensures b in GateRows(ss) ==> GateRows(ss)[b] == LogIn(ss, b)
  {
    if b !in GateBuckets(ss) {
      LogInUnseen(ss, b);
    }
  }

  lemma {:induction false} WindowGate(older: seq<Sample>, w: seq<Sample>, open: int, b: int)
    requires SplitAt(older, w, open) && b >= open
    ensures LogIn(w, b) == LogIn(older + w, b)
    ensures b in GateRows(w) <==> b in GateRows(older + w)
    ensures b in GateRows(w) ==> GateRows(w)[b] == GateRows(older + w)[b]
  {
    forall s | s in older ensures Bucket(s.ts, RES_10M) < b { BucketBefore(s.ts, open, RES_10M); }
    WindowLog(older, w, b);
    if w == [] {
      assert older + w == older;
      if older != [] {
        GateRowAt(older, b);
      }
    } else {
      GateRowAt(w, b);
      GateRowAt(older + w, b);
    }
  }

  lemma {:induction false} ShutGate(w: seq<Sample>, open: int, b: int)
    requires Aligned(open, RES_10M) && b < open && forall s :: s in w ==> s.ts >= open
    ensures LogIn(w, b) == NoLog && b !in GateRows(w)
  {
    if b in GateBuckets(w) {
      var i :| 0 <= i < |w| && Bucket(w[i].ts, RES_10M) == b;
      assert w[i] in w;
      BucketInWindow(w[i].ts, open, RES_10M);
    } else {
      LogInUnseen(w, b);
    }
  }

  ghost predicate GateView(w: seq<Sample>, ss: seq<Sample>, started: Option<int>, b: int) {
    if Shut(started, b) then b !in GateRows(w)
    else (b in GateRows(w) <==> b in GateRows(ss)) && (b in GateRows(w) ==> GateRows(w)[b] == GateRows(ss)[b])
  }

  lemma {:induction false} GateViewOfWindow(older: seq<Sample>, w: seq<Sample>, started: Option<int>, b: int)
    requires started.None? ==> older == []
    requires started.Some? ==> SplitAt(older, w, Bucket(started.value, RES_10M))
    ensures GateView(w, older + w, started, b)
  {
    if started.None? {
      assert older + w == w;
    } else if Shut(started, b) {
      ShutGate(w, Bucket(started.value, RES_10M), b);
    } else {
      WindowGate(older, w, Bucket(started.value, RES_10M), b);
    }
  }

  /** One more sample at one bucket of the gate log. */
  lemma {:induction false} GateCell(w: seq<Sample>, s: Sample, g: OpenGate, t: GateTable, b: int)
    requires Ordered(w + [s]) && HoldsGate(g, w)
    requires b in GateRows(w) ==> b in t && t[b] == GateRows(w)[b]
    ensures
      var u := WriteGateDone(t, GateAdd(g, s).1, true);
      && (b in GateRows(w + [s]) ==> b in u && u[b] == GateRows(w + [s])[b])
      && (b !in GateRows(w + [s]) ==> b !in GateRows(w) && (b in u <==> b in t) && (b in t ==> u[b] == t[b]))
  {
    var done := GateAdd(g, s).1;
    GateRowsStep(w, s, g, t, true);
    GateRowsOnlyGrow(w, s, b);
    GateCellOf(t, GateRows(w), GateRows(w + [s]), done, b);
  }

  lemma GateCellOf(t: GateTable, older: GateTable, now: GateTable, done: OpenGate, b: int)
    requires WriteGateDone(t + older, done, true) == t + now
    requires b in older ==> b in t && t[b] == older[b]
    requires b in older ==> b in now && now[b] == older[b]
    ensures
      var u := WriteGateDone(t, done, true);
      && (b in now ==> b in u && u[b] == now[b])
      && (b !in now ==> b !in older && (b in u <==> b in t) && (b in t ==> u[b] == t[b]))
  {
    var x, y := WriteGateDone(t + older, done, true), WriteGateDone(t, done, true);
    assert b in x <==> b in y || b in older;
    assert b in x <==> b in t || b in now;
  }

  lemma {:induction false} GateRowsOnlyGrow(ss: seq<Sample>, s: Sample, b: int)
    requires Ordered(ss + [s])
    ensures b in GateRows(ss) ==> b in GateRows(ss + [s]) && GateRows(ss + [s])[b] == GateRows(ss)[b]
  {
    if ss != [] && b in GateRows(ss) {
      assert (ss + [s])[|ss|] == s && (ss + [s])[|ss|-1] == ss[|ss|-1];
      BucketMonotone(ss[|ss|-1].ts, s.ts, RES_10M);
      GateRowAt(ss, b);
      GateRowAt(ss + [s], b);
      LogInSnoc(ss, s, b);
    }
  }

  lemma {:induction false} PushedGate(g: OpenGate, t: GateTable, w: seq<Sample>, ss: seq<Sample>, s: Sample, started: Option<int>, b: int)
    requires Ordered(w + [s]) && HoldsGate(g, w) && Ordered(ss + [s])
    requires GateView(w, ss, started, b) && GateView(w + [s], ss + [s], started, b)
    requires GateOk(ss, t, started, b)
    ensures
      var u := WriteGateDone(t, GateAdd(g, s).1, true);
      && (b in t ==> b in u)
      && (Shut(started, b) ==> (b in u <==> b in t))
      && GateOk(ss + [s], u, started, b)
  {
    GateRowsOnlyGrow(ss, s, b);
    GateCell(w, s, g, t, b);
    CellStep(GateRows(w), GateRows(w + [s]), GateRows(ss), GateRows(ss + [s]),
             t, WriteGateDone(t, GateAdd(g, s).1, true), Shut(started, b), b);
  }

  lemma {:induction false} PolledGate(x: Machine, started: Option<int>, older: seq<Sample>, w: seq<Sample>, s: Sample, b: int)
    requires Follows(x, started, older, w) && Newer(x.samples, s) && NotBefore(started, s.ts)
    requires GateOk(x.samples, x.t.gatelog, started, b)
    ensures b in x.t.gatelog ==> b in Pushed(x.pipe, x.t, s, true).1.gatelog
    ensures Shut(started, b) ==> (b in Pushed(x.pipe, x.t, s, true).1.gatelog <==> b in x.t.gatelog)
    ensures GateOk(x.samples + [s], Pushed(x.pipe, x.t, s, true).1.gatelog, started, b)
  {
    PolledFollows(x, started, older, w, s);
    PushedAllClosedForm(NoRows, w, true);
    assert x.samples + [s] == older + (w + [s]);
    GateViewOfWindow(older, w, started, b);
    GateViewOfWindow(older, w + [s], started, b);
    PushedGate(x.pipe.gate, x.t.gatelog, w, x.samples, s, started, b);
  }

  lemma {:induction false} StartGate(ss: seq<Sample>, t: Tables, at: int, b: int)
    requires Ordered(ss)
    requires b in t.gatelog ==> b in GateRows(ss) && t.gatelog[b] == GateRows(ss)[b]
    ensures GateOk(ss, Started(ss, t, at).t.gatelog, Some(at), b)
    ensures Shut(Some(at), b) ==> (b in Started(ss, t, at).t.gatelog <==> b in t.gatelog)
  {
    var older, w := StartFollows(ss, t, at);
    PushedAllClosedForm(t, w, false);
    GateViewOfWindow(older, w, Some(at), b);
  }

  lemma {:induction false} SurvivorGate(x: Machine, started: Option<int>, older: seq<Sample>, w: seq<Sample>, e: Event, b: int)
    requires Follows(x, started, older, w) && Timely(x.samples, started, e) && !e.Polled?
    requires GateOk(x.samples, x.t.gatelog, started, b)
    ensures Ordered(StoredBy(x.samples, e))
    ensures b in Survivors(x, e).gatelog ==> b in GateRows(StoredBy(x.samples, e)) && Survivors(x, e).gatelog[b] == GateRows(StoredBy(x.samples, e))[b]
    ensures Shut(started, b) ==> (b in Survivors(x, e).gatelog <==> b in x.t.gatelog)
  {
    if e.Torn? {
      OrderedSnoc(x.samples, e.s);
      PolledGate(x, started, older, w, e.s, b);
      GateRowsOnlyGrow(x.samples, e.s, b);
    }
  }

  lemma {:induction false} LogStays(ss: seq<Sample>, s: Sample, open: int, b: int)
    requires Aligned(open, RES_10M) && b < open <= s.ts
    ensures LogIn(ss + [s], b) == LogIn(ss, b)
  {
    BucketInWindow(s.ts, open, RES_10M);
    LogInSnoc(ss, s, b);
  }

  /** Across one restart: what the next start finds of a row from before its window. */
  lemma {:induction false} GateFound(x: Machine, started: Option<int>, older: seq<Sample>, w: seq<Sample>, e: Event, lost: bool, b: int)
    requires Follows(x, started, older, w) && Timely(x.samples, started, e) && !e.Polled?
    requires GateOk(x.samples, x.t.gatelog, started, b)
    requires lost ==> Shut(started, b)
    requires Shut(started, b) ==> (b in x.t.gatelog <==> LogIn(x.samples, b) != NoLog && !lost)
    ensures
      var all := StoredBy(x.samples, e);
      b in Survivors(x, e).gatelog <==> LogIn(all, b) != NoLog && !lost && !GateUnwritten(x.samples, e, b)
  {
    var ss := x.samples;
    StoredGate(ss, b);
    if e.Torn? {
      OrderedSnoc(ss, e.s);
      PolledGate(x, started, older, w, e.s, b);
      StoredGate(ss + [e.s], b);
      if Shut(started, b) {
        LogStays(ss, e.s, Bucket(started.value, RES_10M), b);
      }
      if !NotClosed(ss, RES_10M, b) {
        ClosedLogStays(ss, e.s, b);
      }
    }
  }

  /** A log row of the collector that never died: something logged, in a closed bucket. */
  lemma {:induction false} StoredGate(ss: seq<Sample>, b: int)
    ensures b in GateRows(ss) <==> LogIn(ss, b) != NoLog && !NotClosed(ss, RES_10M, b)
  {
    if ss == [] {
      assert LogIn(ss, b) == NoLog;
    } else {
      GateRowAt(ss, b);
    }
  }

  lemma {:induction false} ClosedLogStays(ss: seq<Sample>, s: Sample, b: int)
    requires Ordered(ss + [s]) && !NotClosed(ss, RES_10M, b)
    ensures LogIn(ss + [s], b) == LogIn(ss, b) && !NotClosed(ss + [s], RES_10M, b)
  {
    assert (ss + [s])[|ss|-1] == ss[|ss|-1] && (ss + [s])[|ss|] == s;
    BucketMonotone(ss[|ss|-1].ts, s.ts, RES_10M);
    LogInSnoc(ss, s, b);
  }

  /** At every moment of every run, for one bucket of the gate log. */
  lemma {:induction false} GateExactly(es: seq<Event>, b: int)
    requires AllTimely(es)
    ensures GateOk(Run(es).samples, Run(es).t.gatelog, StartedAt(es), b)
    ensures Shut(StartedAt(es), b) ==> (b in Run(es).t.gatelog <==> LogIn(Run(es).samples, b) != NoLog && !GateLost(es, b))
    ensures GateLost(es, b) ==> Shut(StartedAt(es), b)
  {
    if es != [] {
      var init, e := es[..|es|-1], es[|es|-1];
      var x := Run(init);
      SampledIs(init);
      assert Run(es) == Stepped(x, e) && Run(es).samples == StoredBy(x.samples, e);
      GateExactly(init, b);
      var older, w := RunFollows(init);
      if e.Polled? {
        PolledGate(x, StartedAt(init), older, w, e.s, b);
        if Shut(StartedAt(init), b) {
          LogStays(x.samples, e.s, Bucket(StartedAt(init).value, RES_10M), b);
        }
      } else {
        SurvivorGate(x, StartedAt(init), older, w, e, b);
        StartGate(StoredBy(x.samples, e), Survivors(x, e), e.at, b);
        GateFound(x, StartedAt(init), older, w, e, GateLost(init, b), b);
        if GateLost(init, b) {
          BucketMonotone(StartedAt(init).value, e.at, RES_10M);
        }
      }
    }
  }

  /** ... AND OF THE GATE LOG, exactly: a bucket's row is there, and right, if and only if it is one
      of the collector's that never died and no start came after its window with the row not yet
      written. */
  lemma {:induction false} RestartGateExactly(es: seq<Event>, b: int)
    requires AllTimely(es)
    ensures
      var whole := Uninterrupted(Sampled(es)).1.gatelog;
      && (b in Run(es).t.gatelog <==> b in whole && !GateLost(es, b))
      && (b in Run(es).t.gatelog && b in whole ==> Run(es).t.gatelog[b] == whole[b])
  {
    SampledIs(es);
    GateExactly(es, b);
    StoredGate(Sampled(es), b);
    var older, w := RunFollows(es);
    FromNoRows(Sampled(es));
  }

  // ------------------------------------------------------------------ a push cut short

  /** One more event leaves a row before the window of the last start as it is. */
  lemma {:induction false} ShutRowStep(es: seq<Event>, e: Event, k: Key)
    requires AllTimely(es) && Timely(Run(es).samples, StartedAt(es), e) && Tier(k.res) && Shut(StartedAt(es), k.ts)
    ensures SameCell(Stepped(Run(es), e).t.rollup, Run(es).t.rollup, k)
    ensures !e.Polled? ==> Shut(Some(e.at), k.ts)
  {
    var x := Run(es);
    var older, w := RunFollows(es);
    if !e.Died? {
      OrderedSnoc(x.samples, e.s);
      ShutRowStays(x, StartedAt(es), older, w, e.s, k);
    }
    if !e.Polled? {
      BucketMonotone(StartedAt(es).value, e.at, RES_10M);
      StartKeepsShut(StoredBy(x.samples, e), Survivors(x, e), e.at, k);
    }
  }

  lemma {:induction false} StartKeepsShut(ss: seq<Sample>, t: Tables, at: int, k: Key)
    requires Ordered(ss) && Tier(k.res) && Shut(Some(at), k.ts)
    ensures SameCell(Started(ss, t, at).t.rollup, t.rollup, k)
  {
    var older, w := StartFollows(ss, t, at);
    PushedAllClosedForm(t, w, false);
    ShutTier(w, Bucket(at, RES_10M), k);
  }

  lemma {:induction false} ShutGateStep(es: seq<Event>, e: Event, b: int)
    requires AllTimely(es) && Timely(Run(es).samples, StartedAt(es), e) && Shut(StartedAt(es), b)
    ensures b in Stepped(Run(es), e).t.gatelog <==> b in Run(es).t.gatelog
    ensures !e.Polled? ==> Shut(Some(e.at), b)
  {
    var x := Run(es);
    var older, w := RunFollows(es);
    GateExactly(es, b);
    if e.Polled? {
      PolledGate(x, StartedAt(es), older, w, e.s, b);
    } else {
      SurvivorGate(x, StartedAt(es), older, w, e, b);
      StartGate(StoredBy(x.samples, e), Survivors(x, e), e.at, b);
      BucketMonotone(StartedAt(es).value, e.at, RES_10M);
    }
  }

  lemma {:induction false} TimelyPrefix(es: seq<Event>, more: seq<Event>)
    requires AllTimely(es + more)
    ensures AllTimely(es)
  {
    if more == [] {
      assert es + more == es;
    } else {
      assert (es + more)[..|es + more|-1] == es + more[..|more|-1];
      TimelyPrefix(es, more[..|more|-1]);
    }
  }

  /** What is before the window of a start is decided for good. */
  lemma {:induction false} ShutForGood(es: seq<Event>, more: seq<Event>, k: Key)
    requires AllTimely(es + more) && Tier(k.res) && Shut(StartedAt(es), k.ts)
    ensures Shut(StartedAt(es + more), k.ts)
    ensures SameCell(Run(es + more).t.rollup, Run(es).t.rollup, k)
    ensures k.ts in Run(es + more).t.gatelog <==> k.ts in Run(es).t.gatelog
  {
    if more == [] {
      assert es + more == es;
    } else {
      var init, e := more[..|more|-1], more[|more|-1];
      assert (es + more)[..|es + more|-1] == es + init && (es + more)[|es + more|-1] == e;
      ShutForGood(es, init, k);
      ShutRowStep(es + init, e, k);
      ShutGateStep(es + init, e, k.ts);
    }
  }

  /** What a torn push and the start after it leave of a row from before the replayed window. */
  lemma {:induction false} TornRow(es: seq<Event>, s: Sample, kept: set<Key>, gateKept: bool, at: int, k: Key)
    requires AllTimely(es + [Torn(s, kept, gateKept, at)]) && Tier(k.res) && Shut(Some(at), k.ts)
    ensures
      var x := Run(es);
      var torn := TornTables(x.pipe, x.t, s, kept, gateKept).rollup;
      SameCell(Run(es + [Torn(s, kept, gateKept, at)]).t.rollup, torn, k)
  {
    var e := Torn(s, kept, gateKept, at);
    assert (es + [e])[..|es|] == es && (es + [e])[|es|] == e;
    var x := Run(es);
    var older, w := RunFollows(es);
    OrderedSnoc(x.samples, s);
    StartKeepsShut(x.samples + [s], TornTables(x.pipe, x.t, s, kept, gateKept), at, k);
  }

  lemma {:induction false} TornLog(es: seq<Event>, s: Sample, kept: set<Key>, gateKept: bool, at: int, b: int)
    requires AllTimely(es + [Torn(s, kept, gateKept, at)]) && Shut(Some(at), b)
    ensures
      var x := Run(es);
      b in Run(es + [Torn(s, kept, gateKept, at)]).t.gatelog <==> b in TornTables(x.pipe, x.t, s, kept, gateKept).gatelog
  {
    var e := Torn(s, kept, gateKept, at);
    assert (es + [e])[..|es|] == es && (es + [e])[|es|] == e;
    var x := Run(es);
    var older, w := RunFollows(es);
    OrderedSnoc(x.samples, s);
    GateExactly(es, b);
    SurvivorGate(x, StartedAt(es), older, w, e, b);
    StartGate(x.samples + [s], Survivors(x, e), at, b);
  }

  /** A PUSH CUT SHORT, exactly, whatever happens afterwards: a row it was to write or found there,
      from before the window the next start replays, is there in the end if and only if it got
      written before the death (then it is the new one) or was stored already (then it is as it
      was) - and the gate-log row likewise. Rows of the replayed window are never lost
      (`RestartExactly`). */
  lemma {:induction false} TornPushExactly(es: seq<Event>, s: Sample, kept: set<Key>, gateKept: bool, at: int, more: seq<Event>, k: Key)
    requires AllTimely(es + [Torn(s, kept, gateKept, at)] + more) && Tier(k.res) && k.ts < Bucket(at, RES_10M)
    ensures
      var x := Run(es);
      var whole, end := Pushed(x.pipe, x.t, s, true).1, Run(es + [Torn(s, kept, gateKept, at)] + more).t;
      && (k in whole.rollup ==> (k in end.rollup <==> k in kept || k in x.t.rollup))
      && (k in kept && k in whole.rollup ==> end.rollup[k] == whole.rollup[k])
      && (k !in kept && k in x.t.rollup ==> k in end.rollup && end.rollup[k] == x.t.rollup[k])
      && (k.ts in whole.gatelog ==> (k.ts in end.gatelog <==> gateKept || k.ts in x.t.gatelog))
  {
    var torn := es + [Torn(s, kept, gateKept, at)];
    TimelyPrefix(torn, more);
    assert torn[|torn|-1] == Torn(s, kept, gateKept, at);
    TornRow(es, s, kept, gateKept, at, k);
    TornLog(es, s, kept, gateKept, at, k.ts);
    ShutForGood(torn, more, k);
  }

  // ------------------------------------------------------------------ inputs that fail

  function Plain(ts: int): Sample {
    Sample(ts, map["serve_up" := 1.0], None, LogDelta(LaneLog(1, 0), LaneLog(0, 0)))
  }

  lemma {:induction false} PlainTouches(ts: int, res: int)
    requires Tier(res)
    ensures Values(Items([Plain(ts)]), Key(res, "serve_up", Bucket(ts, res))) == [1.0]
    ensures Touched([Plain(ts)], Key(res, "serve_up", Bucket(ts, res)))
  {
    var k := Key(res, "serve_up", Bucket(ts, res));
    assert Items([]) == [] && [] + [Plain(ts)] == [Plain(ts)];
    ItemsSnoc([], Plain(ts));
    ValuesSnoc(Items([]), Item(ts, SamplePoints(None, Plain(ts))), k);
    assert ([Plain(ts)])[0] == Plain(ts) && ItemAt([Plain(ts)], 0) == Item(ts, SamplePoints(None, Plain(ts)));
  }

  lemma ZeroAndSixHundred(res: int)
    requires Tier(res)
    ensures Bucket(0, res) == 0 && Bucket(600, res) == 600
  {
    StartsOnce(0, Bucket(0, res), 0, res);
    StartsOnce(600, Bucket(600, res), 600, res);
  }

  /** A second sample opens a new window and its push dies before it writes: what the first sample
      touched is in no table, ever. */
  lemma {:induction false} TornSecondPush(a: Sample, s: Sample, at: int, more: seq<Event>, k: Key)
    requires Ordered([a, s]) && !SameWindow([a], s.ts) && AllTimely([Polled(a)] + [Torn(s, {}, false, at)] + more)
    requires Tier(k.res) && k.ts == Bucket(a.ts, k.res) && k.ts < Bucket(at, RES_10M) && Touched([a], k)
    ensures k in Uninterrupted([a, s]).1.rollup
    ensures k !in Run([Polled(a)] + [Torn(s, {}, false, at)] + more).t.rollup
    ensures k.ts in Uninterrupted([a, s]).1.gatelog ==> k.ts !in Run([Polled(a)] + [Torn(s, {}, false, at)] + more).t.gatelog
  {
    OneSampleRun(a);
    OneSampleStoresNothing(a, k);
    SecondCloses(a, s, k);
    TornPushExactly([Polled(a)], s, {}, false, at, more, k);
  }

  /** TORN AT THE BOUNDARY: samples at 0 and 600, the second one's push cut short before it wrote
      anything, the next start at 600 - inside the window of the last stored sample. The minute
      row, the ten-minute row and the gate-log row of time 0 are gone for good. */
  lemma {:induction false} TornAtTheBoundary(a: Sample, s: Sample, more: seq<Event>, res: int)
    requires a == Plain(0) && s == Plain(600) && Tier(res)
    requires AllTimely([Polled(a)] + [Torn(s, {}, false, 600)] + more)
    ensures SameWindow([a, s], 600)
    ensures Key(res, "serve_up", 0) in Uninterrupted([a, s]).1.rollup && 0 in Uninterrupted([a, s]).1.gatelog
    ensures
      var end := Run([Polled(a)] + [Torn(s, {}, false, 600)] + more).t;
      Key(res, "serve_up", 0) !in end.rollup && 0 !in end.gatelog
  {
    ZeroAndSixHundred(res);
    ZeroAndSixHundred(RES_10M);
    PlainTouches(0, res);
    SecondClosesGate(a, s);
    TornSecondPush(a, s, 600, more, Key(res, "serve_up", 0));
  }

  /** Such runs exist: two samples in order, a restart not before the second. */
  lemma TornRunIsTimely(a: Sample, s: Sample, at: int)
    requires a.ts < s.ts <= at
    ensures AllTimely([Polled(a)] + [Torn(s, {}, false, at)] + [])
  {
    var es := [Polled(a)] + [Torn(s, {}, false, at)] + [];
    OneSampleRun(a);
    assert es[..|es|-1] == [Polled(a)] && es[|es|-1] == Torn(s, {}, false, at);
  }

  lemma OneSampleRun(s: Sample)
    ensures AllTimely([Polled(s)]) && StartedAt([Polled(s)]) == None
    ensures Run([Polled(s)]) == Machine([s], Uninterrupted([s]).0, Uninterrupted([s]).1)
  {
    var es := [Polled(s)];
    assert es[..|es|-1] == [] && es[|es|-1] == Polled(s) && [] + [s] == [s];
    assert Timely(Run([]).samples, StartedAt([]), Polled(s));
    assert Run(es) == Stepped(Fresh, Polled(s));
    UninterruptedSnoc([], s);
  }

  /** One sample closes nothing. */
  lemma {:induction false} OneSampleStoresNothing(s: Sample, k: Key)
    requires Tier(k.res)
    ensures k !in Uninterrupted([s]).1.rollup && k.ts !in Uninterrupted([s]).1.gatelog
  {
    FromNoRows([s]);
    TierRowAt([s], k);
    TouchedHasValues([s], k);
    GateRowAt([s], k.ts);
    assert [s][..0] == [];
  }

  lemma {:induction false} SecondCloses(a: Sample, s: Sample, k: Key)
    requires Ordered([a, s]) && !SameWindow([a], s.ts) && Tier(k.res) && k.ts == Bucket(a.ts, k.res)
    ensures k in Uninterrupted([a, s]).1.rollup <==> Touched([a], k)
    ensures Uninterrupted([a, s]).1 == Pushed(Uninterrupted([a]).0, Uninterrupted([a]).1, s, true).1
  {
    assert [a] + [s] == [a, s];
    UninterruptedSnoc([a], s);
    FromNoRows([a, s]);
    OpenRowClosedByNext([a], s, k);
  }

  lemma {:induction false} SecondClosesGate(a: Sample, s: Sample)
    requires Ordered([a, s]) && !SameWindow([a], s.ts) && a.log != NoLog
    ensures Bucket(a.ts, RES_10M) in Uninterrupted([a, s]).1.gatelog
  {
    var b := Bucket(a.ts, RES_10M);
    FromNoRows([a, s]);
    LogOfTwo(a, s);
    BucketMonotone(a.ts, s.ts, RES_10M);
    GateRowAt([a, s], b);
  }

  /** What the first of two windows logged. */
  lemma {:induction false} LogOfTwo(a: Sample, s: Sample)
    requires !SameWindow([a], s.ts)
    ensures LogIn([a, s], Bucket(a.ts, RES_10M)) == a.log
  {
    var none: seq<Sample> := [];
    var b := Bucket(a.ts, RES_10M);
    assert none + [a] == [a] && [a] + [s] == [a, s];
    LogInSnoc(none, a, b);
    LogInSnoc([a], s, b);
  }

  /** A LATE RESTART: a sample at 0, the next start at 600. Both open rows, which the collector that
      never died writes with the sample at 600, are never written. */
  lemma LateRestartExample(res: int)
    requires Tier(res)
    ensures
      var k, reborn := Key(res, "serve_up", 0), Started([Plain(0)], Uninterrupted([Plain(0)]).1, 600);
      && k in Uninterrupted([Plain(0), Plain(600)]).1.rollup
      && k !in Pushed(reborn.pipe, reborn.t, Plain(600), true).1.rollup
  {
    ZeroAndSixHundred(res);
    ZeroAndSixHundred(RES_10M);
    PlainTouches(0, res);
    assert [Plain(0)] + [Plain(600)] == [Plain(0), Plain(600)];
    LateRestartLosesTheOpenRow([Plain(0)], 600, Plain(600), Key(res, "serve_up", 0));
  }

  function Counting(ts: int, total: real): Sample {
    Sample(ts, map[], Some(Counters(map["tok_gen" := total], 1)), NoLog)
  }

  /** The first sample of a window counted something against the one before it: lost by a restart
      between it and the next window. */
  lemma {:induction false} StepLost(a: Sample, s: Sample, at: int, next: Sample, k: Key)
    requires Ordered([a] + [s] + [next]) && a.ts < Bucket(at, RES_10M) <= s.ts && SameWindow([s], at)
    requires k.res == RES_10M && k.ts == Bucket(at, RES_10M) < Bucket(next.ts, RES_10M)
    requires FirstPoint(Some(a), s, k) != FirstPoint(None, s, k)
    ensures
      var reborn := Started([a] + [s], Uninterrupted([a] + [s]).1, at);
      !SameCell(PushedAll(reborn.pipe, reborn.t, [next], true).1.rollup, Uninterrupted([a] + [s] + [next]).1.rollup, k)
  {
    OrderedParts([a] + [s], [next]);
    SecondSampleFrom(a, s, Bucket(at, RES_10M));
    NotYetClosed([a] + [s], k);
    RestartCostsOneStep([a], [s], at, [next], k);
  }

  /** ONE STEP OF A COUNTER: five tokens between 595 and 600, a restart at 600, and they are in no
      ten-minute row. */
  lemma CounterStepExample()
    ensures
      var a, s, next, k := Counting(595, 0.0), Counting(600, 5.0), Counting(1200, 5.0), Key(RES_10M, "tok_gen", 600);
      var reborn := Started([a] + [s], Uninterrupted([a] + [s]).1, 600);
      && FirstPoint(Some(a), s, k) == [5.0] && FirstPoint(None, s, k) == []
      && !SameCell(PushedAll(reborn.pipe, reborn.t, [next], true).1.rollup, Uninterrupted([a] + [s] + [next]).1.rollup, k)
  {
    CounterTimes();
    CounterPoints();
    StepLost(Counting(595, 0.0), Counting(600, 5.0), 600, Counting(1200, 5.0), Key(RES_10M, "tok_gen", 600));
  }

  lemma CounterTimes()
    ensures Bucket(595, RES_10M) == 0 && Bucket(600, RES_10M) == 600 && Bucket(1200, RES_10M) == 1200
  {
    StartsOnce(0, Bucket(595, RES_10M), 595, RES_10M);
    StartsOnce(600, Bucket(600, RES_10M), 600, RES_10M);
    StartsOnce(1200, Bucket(1200, RES_10M), 1200, RES_10M);
  }

  lemma {:induction false} SecondSampleFrom(a: Sample, s: Sample, open: int)
    requires a.ts < open <= s.ts
    ensures From([a] + [s], open) == [s]
  {
    assert ([a] + [s])[..1] == [a] && [a][..0] == [];
    assert From([a], open) == [];
  }

  lemma {:induction false} NotYetClosed(ss: seq<Sample>, k: Key)
    requires Ordered(ss) && ss != [] && Tier(k.res) && k.ts >= Bucket(ss[|ss|-1].ts, k.res)
    ensures k !in Uninterrupted(ss).1.rollup
  {
    FromNoRows(ss);
    TierRowAt(ss, k);
  }

  lemma CounterPoints()
    ensures
      var k := Key(RES_10M, "tok_gen", 600);
      && FirstPoint(Some(Counting(595, 0.0)), Counting(600, 5.0), k) == [5.0]
      && FirstPoint(None, Counting(600, 5.0), k) == []
  {
    CounterTimes();
  }
}
