/** The hot journal read of `lss-collector/src/collect.rs`: a bounded window, a dedupe queue, and
    a gap handed on when the window could not reach back far enough. */
module HotPath {
  import opened Wrappers

  const HOT_LOOKBACK_SECS := 600
  const XID_DEDUPE_SECS := 900

  /** One `NVRM: Xid` line of the kernel journal. */
  datatype Line = Line(ts: int, pci: string, xid: nat, rest: string)

  /** `[from, until)` of the journal. */
  datatype Span = Span(from: int, until: int) {
    predicate Has(ts: int) { from <= ts < until }
  }

  /** Where the hot path reads from, and what its clamp leaves to the streamed back-fill. No read
      reaches back more than ten minutes, and window and gap together leave no second out. */
  function HotWindow(lastOk: int, now: int): (r: (int, Option<Span>))
    ensures now - r.0 <= 600
    ensures r.1.None? <==> lastOk - 5 >= now - 600
    ensures r.1.None? ==> r.0 == lastOk - 5
    ensures r.1.Some? ==> r.1.value.from == lastOk - 5 < r.1.value.until == r.0
  {
    var floor := now - HOT_LOOKBACK_SECS;
    if lastOk - 5 >= floor then (lastOk - 5, None) else (floor, Some(Span(lastOk - 5, floor)))
  }

  /** The hot path's own memory: its last successful read, the lines it handed on lately. */
  datatype HotState = HotState(since: int, seen: seq<Line>)

  /** The lines not seen before, each once, in the order read. */
  function Fresh(seen: seq<Line>, lines: seq<Line>): seq<Line> {
    if lines == [] then []
    else
      var f := Fresh(seen, lines[..|lines|-1]);
      if lines[|lines|-1] in seen + f then f else f + [lines[|lines|-1]]
  }

  /** Old lines leave from the front only. */
  function Forget(seen: seq<Line>, now: int): seq<Line> {
    if seen != [] && seen[0].ts < now - XID_DEDUPE_SECS then Forget(seen[1..], now) else seen
  }

  lemma {:induction false} FreshMeaning(seen: seq<Line>, lines: seq<Line>)
    ensures forall l :: l in Fresh(seen, lines) <==> l in lines && l !in seen
    ensures forall i, j :: 0 <= i < j < |Fresh(seen, lines)| ==> Fresh(seen, lines)[i] != Fresh(seen, lines)[j]
  {
    if lines != [] {
      var init, last := lines[..|lines|-1], lines[|lines|-1];
      assert lines == init + [last];
      FreshMeaning(seen, init);
    }
  }

  /** Lines go from the front of the queue while they are older than fifteen minutes, and no other goes. */
  lemma {:induction false} ForgetMeaning(seen: seq<Line>, now: int)
    ensures forall l :: l in Forget(seen, now) ==> l in seen
    ensures forall l :: l in seen && l.ts >= now - 900 ==> l in Forget(seen, now)
    ensures |Forget(seen, now)| <= |seen| && Forget(seen, now) == seen[|seen| - |Forget(seen, now)|..]
    ensures Forget(seen, now) != [] ==> Forget(seen, now)[0].ts >= now - 900
  {
    if seen != [] && seen[0].ts < now - XID_DEDUPE_SECS {
      ForgetMeaning(seen[1..], now);
    }
  }

  datatype HotResult = HotResult(xids: seq<Line>, ok: bool, gap: Option<Span>)

  /** One poll's journal part on values; `text` is what the read returned, `None` = it failed. */
  function HotRead(st: HotState, now: int, text: Option<seq<Line>>): (HotState, HotResult) {
    if text.None? then (HotState(st.since, Forget(st.seen, now)), HotResult([], false, None))
    else
      var news := Fresh(st.seen, text.value);
      (HotState(now, Forget(st.seen + news, now)), HotResult(news, true, HotWindow(st.since, now).1))
  }

  class Poller {
    var xidSince: int
    var xidSeen: seq<Line>

    ghost function State(): HotState
      reads this
    {
      HotState(xidSince, xidSeen)
    }

    constructor (now: int)
      ensures State() == HotState(now, [])
    {
      xidSince, xidSeen := now, [];
    }

    method Poll(now: int, text: Option<seq<Line>>) returns (r: HotResult)
      modifies this
      ensures (State(), r) == HotRead(old(State()), now, text)
    {
      var gap := HotWindow(xidSince, now).1;
      var xids: seq<Line> := [];
      if text.Some? {
        ghost var before := xidSeen;
        var lines := text.value;
        for i := 0 to |lines|
          invariant xids == Fresh(before, lines[..i])
          invariant xidSeen == before + xids
          invariant xidSince == old(xidSince)
        {
          assert lines[..i+1][..i] == lines[..i];
          if lines[i] !in xidSeen {
            xidSeen := xidSeen + [lines[i]];
            xids := xids + [lines[i]];
          }
        }
        assert lines[..|lines|] == lines;
        xidSince := now;
      }
      ghost var full, since := xidSeen, xidSince;
      while xidSeen != [] && xidSeen[0].ts < now - XID_DEDUPE_SECS
        invariant xidSince == since && Forget(xidSeen, now) == Forget(full, now)
        decreases |xidSeen|
      {
        xidSeen := xidSeen[1..];
      }
      r := HotResult(xids, text.Some?, if text.Some? then gap else None);
    }
  }

  // ------------------------------------------------------------------ over a run of polls

  /** When a poll looked, and whether the journal could be read. */
  datatype Look = Look(now: int, ok: bool)

  function SinceAfter(start: int, looks: seq<Look>): int {
    if looks == [] then start
    else if looks[|looks|-1].ok then looks[|looks|-1].now
    else SinceAfter(start, looks[..|looks|-1])
  }

  ghost predicate ClockMonotone(start: int, looks: seq<Look>) {
    && (forall i :: 0 <= i < |looks| ==> start <= looks[i].now)
    && (forall i, j :: 0 <= i <= j < |looks| ==> looks[i].now <= looks[j].now)
  }

  /** The window and the reported gap of the `i`-th poll. */
  function WindowAt(start: int, looks: seq<Look>, i: nat): (int, Option<Span>)
    requires i < |looks|
  {
    HotWindow(SinceAfter(start, looks[..i]), looks[i].now)
  }

  ghost predicate CoveredBy(start: int, looks: seq<Look>, i: nat, t: int)
    requires i < |looks|
  {
    && looks[i].ok
    && var (from, gap) := WindowAt(start, looks, i);
       from <= t <= looks[i].now || (gap.Some? && gap.value.Has(t))
  }

  /** NO SECOND IS LEFT OUT: the successful reads and the gaps they report cover everything from
      five seconds before the start to the last successful read, and no read reaches back more
      than ten minutes. */
  lemma {:induction false} ReadsAndGapsCover(start: int, looks: seq<Look>, t: int)
    requires ClockMonotone(start, looks)
    requires looks != [] && start - 5 <= t <= SinceAfter(start, looks) && exists i :: 0 <= i < |looks| && looks[i].ok
    ensures exists i :: 0 <= i < |looks| && CoveredBy(start, looks, i, t)
    ensures forall i :: 0 <= i < |looks| ==> looks[i].now - WindowAt(start, looks, i).0 <= 600
  {
    var init, last := looks[..|looks|-1], looks[|looks|-1];
    var n := |looks| - 1;
    assert looks[..n] == init;
    if last.ok && t >= SinceAfter(start, init) - 5 {
      assert CoveredBy(start, looks, n, t);
    } else {
      LooksBefore(start, looks, t);
      ReadsAndGapsCover(start, init, t);
      var i :| 0 <= i < |init| && CoveredBy(start, init, i, t);
      assert looks[..i] == init[..i];
      assert CoveredBy(start, looks, i, t);
    }
  }

  lemma {:induction false} LooksBefore(start: int, looks: seq<Look>, t: int)
    requires ClockMonotone(start, looks) && looks != [] && start - 5 <= t <= SinceAfter(start, looks)
    requires exists i :: 0 <= i < |looks| && looks[i].ok
    requires !looks[|looks|-1].ok || t < SinceAfter(start, looks[..|looks|-1]) - 5
    ensures
      var init := looks[..|looks|-1];
      ClockMonotone(start, init) && init != [] && t <= SinceAfter(start, init) && exists i :: 0 <= i < |init| && init[i].ok
  {
    var init := looks[..|looks|-1];
    NoLookNoProgress(start, init);
    var i :| 0 <= i < |looks| && looks[i].ok;
    if i < |init| {
      assert init[i].ok;
    }
  }

  lemma {:induction false} NoLookNoProgress(start: int, looks: seq<Look>)
    ensures (exists i :: 0 <= i < |looks| && looks[i].ok) || SinceAfter(start, looks) == start
  {
    if looks != [] {
      NoLookNoProgress(start, looks[..|looks|-1]);
      var init := looks[..|looks|-1];
      if exists i :: 0 <= i < |init| && init[i].ok {
        var i :| 0 <= i < |init| && init[i].ok;
        assert looks[i].ok;
      }
    }
  }

  /** A gap is reported once: two gaps never overlap. */
  lemma GapsAreDisjoint(start: int, looks: seq<Look>, i: nat, j: nat, t: int)
    requires ClockMonotone(start, looks) && i < j < |looks| && looks[i].ok
    requires WindowAt(start, looks, i).1.Some? && WindowAt(start, looks, j).1.Some?
    ensures !(WindowAt(start, looks, i).1.value.Has(t) && WindowAt(start, looks, j).1.value.Has(t))
  {
    SinceGrows(start, looks[..j], i);
  }

  lemma {:induction false} SinceGrows(start: int, looks: seq<Look>, i: nat)
    requires ClockMonotone(start, looks) && i < |looks| && looks[i].ok
    ensures looks[i].now <= SinceAfter(start, looks)
  {
    if i < |looks| - 1 {
      SinceGrows(start, looks[..|looks|-1], i);
    }
  }
}
