/** The Xid scan as a whole (`lss-collector/src/main.rs`): hot polls, two persisted markers, a
    start-up back-fill, back-fills of reported gaps, crashes and restarts, over a journal that
    only grows, and the hourly pruning. */
module XidScan {
  import opened Wrappers
  import opened Incidents
  import opened IncidentTable
  import opened HotPath

  const HORIZON := 7 * 86_400
  const SCAN_MARK_SECS := 60
  const KEEP_INCIDENTS := 90 * 86_400

  // ------------------------------------------------------------------ booking

  /** PCI address to GPU index, as `nvidia-smi` answered: any answer, each time it is asked. */
  type PciMap = map<string, nat>

  function LabelOf(l: Line, m: PciMap): string {
    if l.pci in m then GpuLabel(m[l.pci]) else PciLabel(l.pci)
  }

  function KeyOf(l: Line, m: PciMap): string {
    XidKey(LabelOf(l, m), l.xid, l.ts)
  }

  /** One report handed to `event_incident`, with the answer of `nvidia-smi` it was labelled by. */
  datatype Booking = Booking(l: Line, m: PciMap)

  /** The incident table, its next row id, every booking ever made, and before which time pruning has
      deleted. The last two are not in the program: they only say what happened. */
  datatype Books = Books(rows: Rows, next: nat, bookings: set<Booking>, cut: int)

  /** A row with an Xid key ended when it began, at the time in its key. */
  ghost predicate Stamped(t: Rows) {
    forall i, g, xid, ts :: i in t && t[i].key == Some(XidKey(g, xid, ts)) ==> t[i].end == Some(ts)
  }

  ghost predicate Good(b: Books) {
    Below(b.rows, b.next) && UniqueKeys(b.rows) && Stamped(b.rows)
  }

  /** `Db::prune` on the incidents: closed ones past their retention go. */
  function Pruned(b: Books, now: int): Books {
    Books(map i | i in b.rows && !(b.rows[i].end.Some? && b.rows[i].end.value < now - KEEP_INCIDENTS) :: b.rows[i],
          b.next, b.bookings, Most(b.cut, now - KEEP_INCIDENTS))
  }

  /** The operator hint for an Xid number. */
  type Hints = nat -> string

  /** The wording: label, number, whatever hint the collector has for the number, the kernel's text.
      No key depends on the hint. */
  function Wording(l: Line, m: PciMap, hints: Hints): string {
    XidDetail(LabelOf(l, m), l.xid, hints(l.xid), l.rest)
  }

  /** Exactly the incidents that ended more than ninety days ago are gone; open ones stay. */
  lemma PrunedExactly(b: Books, now: int, i: Id)
    requires i in b.rows
    ensures i !in Pruned(b, now).rows <==> b.rows[i].end.Some? && now - b.rows[i].end.value > 90 * 24 * 3600
    ensures i in Pruned(b, now).rows ==> Pruned(b, now).rows[i] == b.rows[i]
  {
  }

  function BookLine(b: Books, l: Line, m: PciMap, hints: Hints): Books {
    var detail, key := Wording(l, m, hints), Some(KeyOf(l, m));
    Books(Booked(b.rows, b.next, KIND_XID, l.ts, detail, key),
          if Known(b.rows, KIND_XID, l.ts, detail, key) then b.next else b.next + 1,
          b.bookings + {Booking(l, m)}, b.cut)
  }

  lemma BookLineMeaning(b: Books, l: Line, m: PciMap, hints: Hints)
    requires Good(b)
    ensures Good(BookLine(b, l, m, hints))
    ensures forall k :: HasKey(BookLine(b, l, m, hints).rows, k) <==> HasKey(b.rows, k) || k == KeyOf(l, m)
  {
    var c := BookLine(b, l, m, hints);
    BookedKeepsKeysUnique(b.rows, b.next, KIND_XID, l.ts, Wording(l, m, hints), Some(KeyOf(l, m)));
    forall i, g, xid, ts | i in c.rows && c.rows[i].key == Some(XidKey(g, xid, ts)) ensures c.rows[i].end == Some(ts) {
      if i !in b.rows {
        XidKeyInjective(LabelOf(l, m), l.xid, l.ts, g, xid, ts);
      }
    }
  }

  /** Each report in turn through `event_incident`. */
  function BookAll(b: Books, lines: seq<Line>, m: PciMap, hints: Hints): Books {
    if lines == [] then b else BookLine(BookAll(b, lines[..|lines|-1], m, hints), lines[|lines|-1], m, hints)
  }

  lemma {:induction false} BookAllMeaning(b: Books, lines: seq<Line>, m: PciMap, hints: Hints)
    requires Good(b)
    ensures Good(BookAll(b, lines, m, hints)) && BookAll(b, lines, m, hints).cut == b.cut
    ensures forall k :: HasKey(BookAll(b, lines, m, hints).rows, k) <==> HasKey(b.rows, k) || exists l :: l in lines && KeyOf(l, m) == k
    ensures forall x :: x in BookAll(b, lines, m, hints).bookings <==> x in b.bookings || (x.l in lines && x.m == m)
  {
    if lines != [] {
      var init, last := lines[..|lines|-1], lines[|lines|-1];
      assert lines == init + [last];
      BookAllMeaning(b, init, m, hints);
      BookLineMeaning(BookAll(b, init, m, hints), last, m, hints);
    }
  }

  /** The report was booked, and its row stands under the very label that booking gave it ... */
  ghost predicate Standing(b: Books, l: Line) {
    exists m: PciMap :: Booking(l, m) in b.bookings && HasKey(b.rows, KeyOf(l, m))
  }

  /** ... or is so old that pruning has deleted it. */
  ghost predicate InBook(b: Books, l: Line) {
    Standing(b, l) || (l.ts < b.cut && exists m: PciMap :: Booking(l, m) in b.bookings)
  }

  // ------------------------------------------------------------------ the system

  /** A poll between its journal read and the end of its loop body. */
  datatype Phase = Read | GapHanded | Noted
  datatype Batch = Batch(now: int, result: HotResult, phase: Phase)

  /** The start-up back-fill: still to be read, read and not yet booked, booked with its marker
      not yet deleted; or over - done or failed. */
  datatype Job = Over | Owed(from: int) | Held(from: int, lines: seq<Line>) | Clearing(from: int)

  /** One run of the collector. `settled` = up to where the hot path has booked; `handed` = every
      line it ever handed on. Neither is in the program: they only say what happened. */
  datatype Proc = Proc(startedAt: int, hot: HotState, lastPoll: int, batch: Option<Batch>, lastMark: int,
                       job: Job, gaps: set<Span>, settled: int, handed: set<Line>)

  /** `mark` and `marker` are the two kv entries; `lost` collects the gap back-fills that failed or
      died; `omitted` the lines that a read which answered should have listed and did not; `horizon` =
      seven days before the newest start. */
  datatype Sys = Sys(clock: int, journal: set<Line>, books: Books, mark: Option<int>, marker: Option<int>,
                     horizon: int, lost: set<Span>, omitted: set<Line>, proc: Option<Proc>)

  datatype Step =
    | Kernel(l: Line)
    | Tick(to: int)
    | Start
    | Poll(now: int, text: Option<seq<Line>>)
    | HandGap
    | BookSome(lines: seq<Line>, m: PciMap)
    | BookPoll(m: PciMap)
    | EndPoll
    | JobRead(lines: seq<Line>)
    | JobFail
    | JobBook(m: PciMap)
    | JobClear
    | GapBook(span: Span, lines: seq<Line>, m: PciMap)
    | GapFail(span: Span)
    | Prune(now: int)
    | Crash

  predicate InRange(l: Line, from: int, until: Option<int>) {
    from <= l.ts && (until.Some? ==> l.ts < until.value)
  }

  /** What a read of a span may answer: any part of its journal. All of it when `journalctl` worked; some
      or none when it failed - its exit status is dropped by the pipeline -, or a line cap cut it. */
  ghost predicate Answers(text: seq<Line>, journal: set<Line>, from: int, until: Option<int>) {
    forall l :: l in text ==> l in journal && InRange(l, from, until)
  }

  /** What it left out. */
  function Unlisted(text: seq<Line>, journal: set<Line>, from: int, until: Option<int>): set<Line> {
    set l | l in journal && InRange(l, from, until) && l !in text
  }

  ghost predicate Enabled(s: Sys, e: Step) {
    match e
    case Kernel(l) => l.ts == s.clock
    case Tick(to) => s.clock <= to
    case Start => s.proc.None?
    case Poll(now, text) =>
      && s.proc.Some? && s.proc.value.batch.None? && s.proc.value.lastPoll <= now <= s.clock
      && (text.Some? ==> Answers(text.value, s.journal, HotWindow(s.proc.value.hot.since, now).0, None))
    case HandGap => s.proc.Some? && s.proc.value.batch.Some? && s.proc.value.batch.value.phase == Read
    case BookSome(lines, m) => s.proc.Some? && forall l :: l in lines ==> l in s.journal
    case BookPoll(m) => s.proc.Some? && s.proc.value.batch.Some? && s.proc.value.batch.value.phase == GapHanded
    case EndPoll => s.proc.Some? && s.proc.value.batch.Some? && s.proc.value.batch.value.phase == Noted
    case JobRead(lines) => s.proc.Some? && s.proc.value.job.Owed? && Answers(lines, s.journal, s.proc.value.job.from, None)
    case JobFail => s.proc.Some? && s.proc.value.job.Owed?
    case JobBook(m) => s.proc.Some? && s.proc.value.job.Held?
    case JobClear => s.proc.Some? && s.proc.value.job.Clearing?
    case GapBook(span, lines, m) =>
      && s.proc.Some? && span in s.proc.value.gaps
      && Answers(lines, s.journal, span.from, Some(span.until))
    case GapFail(span) => s.proc.Some? && span in s.proc.value.gaps
    case Prune(now) => s.proc.Some? && now <= s.clock
    case Crash => s.proc.Some?
  }

  /** Where the start-up back-fill begins. */
  function BackfillFrom(s: Sys): int {
    Most(if s.marker.Some? then s.marker.value else if s.mark.Some? then s.mark.value else 0, s.clock - HORIZON)
  }

  function Started(s: Sys): Sys {
    var from := BackfillFrom(s);
    s.(marker := Some(from), horizon := s.clock - HORIZON,
       proc := Some(Proc(s.clock, HotState(s.clock, []), s.clock, None, 0, Owed(from), {}, s.clock, {})))
  }

  function Polled(p: Proc, now: int, text: Option<seq<Line>>): Proc {
    var (hot, result) := HotRead(p.hot, now, text);
    p.(hot := hot, lastPoll := now, batch := Some(Batch(now, result, Read)), handed := p.handed + set l | l in result.xids)
  }

  function GapOf(b: Batch): set<Span> {
    if b.result.gap.Some? then {b.result.gap.value} else {}
  }

  /** The end of the loop body: at most once a minute, and only after a journal read that worked,
      the point reached is written down. */
  function Marked(s: Sys, p: Proc, b: Batch): Sys
  {
    if b.result.ok && b.now - p.lastMark >= SCAN_MARK_SECS
    then s.(mark := Some(b.now), proc := Some(p.(lastMark := b.now, batch := None)))
    else s.(proc := Some(p.(batch := None)))
  }

  /** The lines a step's read answered without. */
  function Omits(s: Sys, e: Step): set<Line> {
    match e
    case Poll(now, Some(text)) => if s.proc.Some? then Unlisted(text, s.journal, HotWindow(s.proc.value.hot.since, now).0, None) else {}
    case JobRead(lines) => if s.proc.Some? && s.proc.value.job.Owed? then Unlisted(lines, s.journal, s.proc.value.job.from, None) else {}
    case GapBook(span, lines, _) => Unlisted(lines, s.journal, span.from, Some(span.until))
    case _ => {}
  }

  ghost function After(s: Sys, e: Step, hints: Hints): Sys
    requires Enabled(s, e)
  {
    match e
    case Kernel(l) => s.(journal := s.journal + {l})
    case Tick(to) => s.(clock := to)
    case Start => Started(s)
    case Poll(now, text) => s.(omitted := s.omitted + Omits(s, e), proc := Some(Polled(s.proc.value, now, text)))
    case HandGap =>
      var p := s.proc.value;
      s.(proc := Some(p.(gaps := p.gaps + GapOf(p.batch.value), batch := Some(p.batch.value.(phase := GapHanded)))))
    case BookSome(lines, m) => s.(books := BookAll(s.books, lines, m, hints))
    case BookPoll(m) =>
      var p := s.proc.value;
      s.(books := BookAll(s.books, p.batch.value.result.xids, m, hints),
         proc := Some(p.(batch := Some(p.batch.value.(phase := Noted)), settled := p.hot.since)))
    case EndPoll => Marked(s, s.proc.value, s.proc.value.batch.value)
    case JobRead(lines) => s.(omitted := s.omitted + Omits(s, e), proc := Some(s.proc.value.(job := Held(s.proc.value.job.from, lines))))
    case JobFail => s.(proc := Some(s.proc.value.(job := Over)))
    case JobBook(m) =>
      s.(books := BookAll(s.books, s.proc.value.job.lines, m, hints), proc := Some(s.proc.value.(job := Clearing(s.proc.value.job.from))))
    case JobClear => s.(marker := None, proc := Some(s.proc.value.(job := Over)))
    case GapBook(span, lines, m) =>
      s.(books := BookAll(s.books, lines, m, hints), omitted := s.omitted + Omits(s, e),
         proc := Some(s.proc.value.(gaps := s.proc.value.gaps - {span})))
    case GapFail(span) => s.(lost := s.lost + {span}, proc := Some(s.proc.value.(gaps := s.proc.value.gaps - {span})))
    case Prune(now) => s.(books := Pruned(s.books, now))
    case Crash => s.(lost := s.lost + s.proc.value.gaps, proc := None)
  }

  /** Before anything ever ran, at any time. */
  ghost predicate Initial(s: Sys) {
    && s.clock >= 0 && s.journal == {} && s.mark.None? && s.marker.None? && s.horizon <= s.clock - HORIZON && s.lost == {} && s.omitted == {} && s.proc.None?
    && Good(s.books) && s.books.bookings == {} && s.books.cut <= s.clock - KEEP_INCIDENTS
  }

  /** A run: the states passed through, one more than the steps between them. */
  ghost predicate Behaves(states: seq<Sys>, run: seq<Step>, hints: Hints) {
    && |states| == |run| + 1
    && Initial(states[0])
    && forall i :: 0 <= i < |run| ==> Enabled(states[i], run[i]) && After(states[i], run[i], hints) == states[i+1]
  }

  // ------------------------------------------------------------------ the invariant

  ghost predicate InSpans(spans: set<Span>, ts: int) {
    exists sp :: sp in spans && sp.Has(ts)
  }

  function Gaps(s: Sys): set<Span> {
    s.lost + if s.proc.Some? then s.proc.value.gaps else {}
  }

  /** Booked, or in a gap back-fill - running, failed or dead -, or left out by a read that answered. */
  ghost predicate Settled(s: Sys, l: Line) {
    InBook(s.books, l) || InSpans(Gaps(s), l.ts) || l in s.omitted
  }

  ghost predicate OwedByMarker(s: Sys, l: Line) {
    s.marker.Some? && s.marker.value <= l.ts
  }

  ghost predicate Accounted(s: Sys, l: Line) {
    Settled(s, l) || OwedByMarker(s, l)
  }

  ghost predicate BatchTimes(p: Proc) {
    match p.batch
    case None => p.hot.since == p.settled
    case Some(b) =>
      && b.now == p.lastPoll
      && (b.result.ok ==> p.hot.since == b.now)
      && (!b.result.ok || b.phase == Noted ==> p.hot.since == p.settled)
      && (b.result.gap.Some? ==> b.result.gap.value.until <= b.now)
  }

  ghost predicate ProcTimes(s: Sys, p: Proc) {
    && p.startedAt <= p.settled <= p.hot.since <= p.lastPoll <= s.clock
    && s.horizon == p.startedAt - HORIZON
    && (s.mark.Some? ==> s.mark.value <= p.settled)
    && (p.job != Over ==> s.marker == Some(p.job.from))
    && BatchTimes(p)
  }

  ghost predicate Times(s: Sys) {
    && s.horizon <= s.clock - HORIZON && s.clock >= 0
    && s.books.cut <= s.clock - KEEP_INCIDENTS
    && (s.mark.Some? ==> s.mark.value <= s.clock)
    && (s.marker.Some? ==> s.marker.value <= s.clock)
    && (s.proc.Some? ==> ProcTimes(s, s.proc.value))
  }

  /** A line this run has handed on is booked or in the hands of the current poll. */
  ghost predicate HandedOk(s: Sys, p: Proc, l: Line) {
    l in p.handed ==>
      InBook(s.books, l) || (p.batch.Some? && p.batch.value.phase != Noted && l in p.batch.value.result.xids)
  }

  /** What the hot path has read but not yet settled. */
  ghost predicate HotOk(s: Sys, p: Proc, l: Line) {
    && (p.startedAt <= l.ts < p.settled ==> Settled(s, l))
    && (p.startedAt <= l.ts < p.hot.since && p.batch.Some? ==>
          || Settled(s, l)
          || (p.batch.value.phase != Noted && l in p.batch.value.result.xids)
          || (p.batch.value.phase == Read && InSpans(GapOf(p.batch.value), l.ts)))
  }

  ghost predicate JobOk(s: Sys, p: Proc, l: Line) {
    && (s.horizon <= l.ts < p.startedAt ==> Accounted(s, l))
    && (p.job.Held? && p.job.from <= l.ts < p.startedAt ==> l in p.job.lines || Settled(s, l))
    && (p.job.Clearing? && p.job.from <= l.ts < p.startedAt ==> Settled(s, l))
  }

  ghost predicate LineOk(s: Sys, l: Line) {
    && 0 <= l.ts <= s.clock
    && (s.mark.Some? && s.horizon <= l.ts < s.mark.value ==> Accounted(s, l))
    && (s.marker.Some? && s.horizon <= l.ts < s.marker.value ==> Settled(s, l))
    && (s.proc.Some? ==>
          && HandedOk(s, s.proc.value, l) && HotOk(s, s.proc.value, l) && JobOk(s, s.proc.value, l))
  }

  /** The dedupe queue holds every line handed on that a read could still return. */
  ghost predicate QueueOk(p: Proc) {
    && (forall l :: l in p.hot.seen ==> l in p.handed)
    && (forall l :: l in p.handed && l.ts >= p.lastPoll - XID_DEDUPE_SECS ==> l in p.hot.seen)
  }

  ghost predicate JournalOk(s: Sys) {
    s.proc.Some? ==>
      && (forall l :: l in s.proc.value.handed ==> l in s.journal)
      && (s.proc.value.batch.Some? ==> forall l :: l in s.proc.value.batch.value.result.xids ==> l in s.proc.value.handed)
  }

  ghost predicate Inv(s: Sys) {
    && Times(s) && Good(s.books) && JournalOk(s)
    && (s.proc.Some? ==> QueueOk(s.proc.value))
    && forall l :: l in s.journal ==> LineOk(s, l)
  }

  // ------------------------------------------------------------------ every step keeps it

  lemma {:induction false} BookedNow(b: Books, lines: seq<Line>, m: PciMap, hints: Hints, l: Line)
    requires Good(b)
    ensures InBook(b, l) ==> InBook(BookAll(b, lines, m, hints), l)
    ensures l in lines ==> InBook(BookAll(b, lines, m, hints), l)
  {
    BookAllMeaning(b, lines, m, hints);
    var c := BookAll(b, lines, m, hints);
    if Standing(b, l) {
      var n :| Booking(l, n) in b.bookings && HasKey(b.rows, KeyOf(l, n));
      assert Booking(l, n) in c.bookings && HasKey(c.rows, KeyOf(l, n));
    } else if InBook(b, l) {
      var n :| Booking(l, n) in b.bookings;
      assert Booking(l, n) in c.bookings;
    }
    if l in lines {
      assert Booking(l, m) in c.bookings && HasKey(c.rows, KeyOf(l, m));
    }
  }

  lemma {:induction false} BookedNowAll(b: Books, lines: seq<Line>, m: PciMap, hints: Hints)
    requires Good(b)
    ensures Good(BookAll(b, lines, m, hints)) && BookAll(b, lines, m, hints).cut == b.cut
    ensures forall l :: InBook(b, l) ==> InBook(BookAll(b, lines, m, hints), l)
    ensures forall l :: l in lines ==> InBook(BookAll(b, lines, m, hints), l)
  {
    BookAllMeaning(b, lines, m, hints);
    forall l
      ensures InBook(b, l) ==> InBook(BookAll(b, lines, m, hints), l)
      ensures l in lines ==> InBook(BookAll(b, lines, m, hints), l)
    {
      BookedNow(b, lines, m, hints, l);
    }
  }

  /** More booked, and nothing else: nothing is unsettled by that. */
  lemma BooksGrow(s: Sys, books: Books)
    requires Inv(s) && Good(books) && books.cut <= s.clock - KEEP_INCIDENTS
    requires forall l :: InBook(s.books, l) ==> InBook(books, l)
    ensures Inv(s.(books := books))
  {
    var t := s.(books := books);
    assert Gaps(t) == Gaps(s);
    forall l | l in t.journal ensures LineOk(t, l) {
      assert LineOk(s, l);
    }
  }

  lemma OmittedGrows(s: Sys, omitted: set<Line>)
    requires Inv(s) && s.omitted <= omitted
    ensures Inv(s.(omitted := omitted))
  {
    var t := s.(omitted := omitted);
    assert Gaps(t) == Gaps(s);
    forall l | l in t.journal ensures LineOk(t, l) {
      assert LineOk(s, l);
    }
  }

  lemma KernelStep(s: Sys, l: Line, hints: Hints)
    requires Inv(s) && Enabled(s, Kernel(l))
    ensures Inv(After(s, Kernel(l), hints))
  {
    var t := After(s, Kernel(l), hints);
    assert Gaps(t) == Gaps(s);
    forall x | x in t.journal ensures LineOk(t, x) {
      if x in s.journal {
        assert LineOk(s, x);
      } else {
        assert x == l && (s.proc.Some? ==> l !in s.proc.value.handed);
      }
    }
  }

  lemma TickStep(s: Sys, to: int, hints: Hints)
    requires Inv(s) && Enabled(s, Tick(to))
    ensures Inv(After(s, Tick(to), hints))
  {
    var t := After(s, Tick(to), hints);
    assert Gaps(t) == Gaps(s);
    forall x | x in t.journal ensures LineOk(t, x) {
      assert LineOk(s, x);
    }
  }

  lemma StartLine(s: Sys, l: Line)
    requires Times(s) && s.proc.None? && LineOk(s, l)
    ensures LineOk(Started(s), l)
  {
    var t := Started(s);
    assert Gaps(t) == Gaps(s);
    assert Settled(s, l) ==> Settled(t, l);
  }

  lemma StartStep(s: Sys, hints: Hints)
    requires Inv(s) && Enabled(s, Start)
    ensures Inv(After(s, Start, hints))
  {
    forall l | l in s.journal ensures LineOk(Started(s), l) {
      StartLine(s, l);
    }
  }

  lemma CrashStep(s: Sys, hints: Hints)
    requires Inv(s) && Enabled(s, Crash)
    ensures Inv(After(s, Crash, hints))
  {
    var t := After(s, Crash, hints);
    assert Gaps(t) == Gaps(s);
    forall x | x in t.journal ensures LineOk(t, x) {
      assert LineOk(s, x);
    }
  }

  // the hot path

  lemma PollLine(s: Sys, now: int, text: Option<seq<Line>>, hints: Hints, l: Line)
    requires Inv(s) && Enabled(s, Poll(now, text)) && l in s.journal
    ensures LineOk(After(s, Poll(now, text), hints), l)
  {
    var p, t := s.proc.value, After(s, Poll(now, text), hints);
    assert Gaps(t) == Gaps(s);
    assert LineOk(s, l);
    assert Settled(s, l) ==> Settled(t, l);
    if text.Some? {
      FreshMeaning(p.hot.seen, text.value);
      var w := HotWindow(p.hot.since, now);
      if w.0 <= l.ts {
        assert l in text.value || l in t.omitted;
        if l in p.hot.seen {
          assert l in p.handed;
        }
      } else if w.1.Some? && w.1.value.Has(l.ts) {
        assert GapOf(t.proc.value.batch.value) == {w.1.value};
        assert w.1.value in GapOf(t.proc.value.batch.value);
      }
    }
  }

  lemma PollQueue(p: Proc, now: int, text: Option<seq<Line>>)
    requires QueueOk(p) && p.lastPoll <= now
    ensures QueueOk(Polled(p, now, text))
  {
    if text.Some? {
      FreshMeaning(p.hot.seen, text.value);
      ForgetMeaning(p.hot.seen + Fresh(p.hot.seen, text.value), now);
    } else {
      ForgetMeaning(p.hot.seen, now);
    }
  }

  lemma PollStep(s: Sys, now: int, text: Option<seq<Line>>, hints: Hints)
    requires Inv(s) && Enabled(s, Poll(now, text))
    ensures Inv(After(s, Poll(now, text), hints))
  {
    var t := After(s, Poll(now, text), hints);
    PollQueue(s.proc.value, now, text);
    if text.Some? {
      FreshMeaning(s.proc.value.hot.seen, text.value);
    }
    forall l | l in t.journal ensures LineOk(t, l) {
      PollLine(s, now, text, hints, l);
    }
  }

  lemma HandGapStep(s: Sys, hints: Hints)
    requires Inv(s) && Enabled(s, HandGap)
    ensures Inv(After(s, HandGap, hints))
  {
    var t := After(s, HandGap, hints);
    assert Gaps(t) == Gaps(s) + GapOf(s.proc.value.batch.value);
    forall l | l in t.journal ensures LineOk(t, l) {
      assert LineOk(s, l);
    }
  }

  lemma BookPollStep(s: Sys, m: PciMap, hints: Hints)
    requires Inv(s) && Enabled(s, BookPoll(m))
    ensures Inv(After(s, BookPoll(m), hints))
  {
    var t := After(s, BookPoll(m), hints);
    var lines := s.proc.value.batch.value.result.xids;
    BookedNowAll(s.books, lines, m, hints);
    BooksGrow(s, t.books);
    var u := s.(books := t.books);
    assert Gaps(t) == Gaps(u);
    forall l | l in t.journal ensures LineOk(t, l) {
      assert LineOk(u, l);
    }
  }

  lemma EndPollStep(s: Sys, hints: Hints)
    requires Inv(s) && Enabled(s, EndPoll)
    ensures Inv(After(s, EndPoll, hints))
  {
    var t := After(s, EndPoll, hints);
    assert Gaps(t) == Gaps(s);
    forall l | l in t.journal ensures LineOk(t, l) {
      assert LineOk(s, l);
    }
  }

  // the back-fills

  lemma JobStep(s: Sys, e: Step, hints: Hints)
    requires Inv(s) && Enabled(s, e) && (e.JobRead? || e.JobFail? || e.JobClear?)
    ensures Inv(After(s, e, hints))
  {
    var t := After(s, e, hints);
    assert Gaps(t) == Gaps(s);
    forall l | l in t.journal ensures LineOk(t, l) {
      assert LineOk(s, l);
    }
  }

  lemma JobBookStep(s: Sys, m: PciMap, hints: Hints)
    requires Inv(s) && Enabled(s, JobBook(m))
    ensures Inv(After(s, JobBook(m), hints))
  {
    var t := After(s, JobBook(m), hints);
    BookedNowAll(s.books, s.proc.value.job.lines, m, hints);
    BooksGrow(s, t.books);
    var u := s.(books := t.books);
    assert Gaps(t) == Gaps(u);
    forall l | l in t.journal ensures LineOk(t, l) {
      assert LineOk(u, l);
    }
  }

  lemma GapBookStep(s: Sys, span: Span, lines: seq<Line>, m: PciMap, hints: Hints)
    requires Inv(s) && Enabled(s, GapBook(span, lines, m))
    ensures Inv(After(s, GapBook(span, lines, m), hints))
  {
    var t := After(s, GapBook(span, lines, m), hints);
    BookedNowAll(s.books, lines, m, hints);
    BooksGrow(s, t.books);
    var u := s.(books := t.books, omitted := t.omitted);
    OmittedGrows(s.(books := t.books), t.omitted);
    forall l | l in t.journal ensures LineOk(t, l) {
      assert LineOk(u, l);
      GapBooked(u, t, span, l) by {
        assert span.Has(l.ts) ==> l in lines || l in t.omitted;
      }
    }
  }

  /** A gap back-fill that finished leaves every line of its span booked. */
  lemma GapBooked(u: Sys, t: Sys, span: Span, l: Line)
    requires u.proc.Some? && span in u.proc.value.gaps
    requires t == u.(proc := Some(u.proc.value.(gaps := u.proc.value.gaps - {span})))
    requires span.Has(l.ts) ==> InBook(u.books, l) || l in u.omitted
    ensures Settled(u, l) ==> Settled(t, l)
  {
    if Settled(u, l) && !InBook(u.books, l) && l !in u.omitted {
      var sp :| sp in Gaps(u) && sp.Has(l.ts);
      assert sp in Gaps(t);
    }
  }

  lemma GapFailStep(s: Sys, span: Span, hints: Hints)
    requires Inv(s) && Enabled(s, GapFail(span))
    ensures Inv(After(s, GapFail(span), hints))
  {
    var t := After(s, GapFail(span), hints);
    assert Gaps(t) == Gaps(s);
    forall l | l in t.journal ensures LineOk(t, l) {
      assert LineOk(s, l);
    }
  }

  /** Pruning takes a row away only when it is older than its retention. */
  lemma PruneStep(s: Sys, now: int, hints: Hints)
    requires Inv(s) && Enabled(s, Prune(now))
    ensures Inv(After(s, Prune(now), hints))
  {
    var b, c := s.books, Pruned(s.books, now);
    forall l | InBook(b, l) ensures InBook(c, l) {
      if Standing(b, l) {
        var m :| Booking(l, m) in b.bookings && HasKey(b.rows, KeyOf(l, m));
        var i :| i in b.rows && b.rows[i].key == Some(KeyOf(l, m));
        assert b.rows[i].end == Some(l.ts);
        assert l.ts >= now - KEEP_INCIDENTS ==> i in c.rows && c.rows[i].key == Some(KeyOf(l, m));
        assert Booking(l, m) in c.bookings;
      }
    }
    BooksGrow(s, c);
  }

  lemma InvStep(s: Sys, e: Step, hints: Hints)
    requires Inv(s) && Enabled(s, e)
    ensures Inv(After(s, e, hints))
  {
    match e
    case Kernel(l) => KernelStep(s, l, hints);
    case Tick(to) => TickStep(s, to, hints);
    case Start => StartStep(s, hints);
    case Poll(now, text) => PollStep(s, now, text, hints);
    case HandGap => HandGapStep(s, hints);
    case BookSome(lines, m) =>
      BookedNowAll(s.books, lines, m, hints);
      BooksGrow(s, BookAll(s.books, lines, m, hints));
    case BookPoll(m) => BookPollStep(s, m, hints);
    case EndPoll => EndPollStep(s, hints);
    case JobRead(_) => JobStep(s, e, hints);
    case JobFail => JobStep(s, e, hints);
    case JobBook(m) => JobBookStep(s, m, hints);
    case JobClear => JobStep(s, e, hints);
    case GapBook(span, lines, m) => GapBookStep(s, span, lines, m, hints);
    case GapFail(span) => GapFailStep(s, span, hints);
    case Prune(now) => PruneStep(s, now, hints);
    case Crash => CrashStep(s, hints);
  }

  lemma {:induction false} InvAlways(states: seq<Sys>, run: seq<Step>, hints: Hints, i: nat)
    requires Behaves(states, run, hints) && i < |states|
    ensures Inv(states[i])
  {
    if i > 0 {
      InvAlways(states, run, hints, i - 1);
      InvStep(states[i-1], run[i-1], hints);
    }
  }

  // ------------------------------------------------------------------ what the steps alone say

  /** When the collector was last started. */
  ghost function NewestStart(states: seq<Sys>, run: seq<Step>, i: nat): Option<int>
    requires |states| == |run| + 1 && i < |states|
  {
    if i == 0 then None
    else if run[i-1].Start? then Some(states[i-1].clock) else NewestStart(states, run, i - 1)
  }

  /** Not older than seven days at the newest start. */
  ghost predicate InReach(states: seq<Sys>, run: seq<Step>, i: nat, ts: int)
    requires |states| == |run| + 1 && i < |states|
  {
    NewestStart(states, run, i).Some? ==> NewestStart(states, run, i).value - 7 * 86_400 <= ts
  }

  function LastPoll(run: seq<Step>, i: nat): Option<Step>
    requires i <= |run|
  {
    if i == 0 then None else if run[i-1].Poll? then Some(run[i-1]) else LastPoll(run, i - 1)
  }

  /** Up to where the hot path has booked: the last poll whose journal read answered and whose lines
      were booked, or the newest start. */
  ghost function Passed(states: seq<Sys>, run: seq<Step>, i: nat): int
    requires |states| == |run| + 1 && i < |states|
  {
    if i == 0 then 0
    else
      match run[i-1]
      case Start => states[i-1].clock
      case BookPoll(_) =>
        var poll := LastPoll(run, i - 1);
        if poll.Some? && poll.value.Poll? && poll.value.text.Some? then poll.value.now else Passed(states, run, i - 1)
      case _ => Passed(states, run, i - 1)
  }

  ghost predicate SaysSo(states: seq<Sys>, run: seq<Step>, i: nat)
    requires |states| == |run| + 1 && i < |states|
  {
    var s := states[i];
    && (NewestStart(states, run, i).None? ==> s.proc.None?)
    && (NewestStart(states, run, i).Some? ==> s.horizon == NewestStart(states, run, i).value - HORIZON)
    && (s.proc.Some? ==> s.proc.value.settled == Passed(states, run, i))
    && (s.proc.Some? && s.proc.value.batch.Some? ==>
          var b, poll := s.proc.value.batch.value, LastPoll(run, i);
          poll.Some? && poll.value.Poll? && poll.value.now == b.now && (poll.value.text.Some? <==> b.result.ok))
  }

  ghost predicate MarkSays(states: seq<Sys>, run: seq<Step>, i: nat)
    requires |states| == |run| + 1 && i < |states|
  {
    && (NewestStart(states, run, i).None? ==> states[i].mark.None? && states[i].proc.None?)
    && (states[i].proc.Some? ==> states[i].proc.value.lastMark == 0 || states[i].mark == Some(states[i].proc.value.lastMark))
  }

  lemma {:induction false} MarksSaySo(states: seq<Sys>, run: seq<Step>, hints: Hints, i: nat)
    requires Behaves(states, run, hints) && i < |states|
    ensures MarkSays(states, run, i)
  {
    if i > 0 {
      MarksSaySo(states, run, hints, i - 1);
      assert Enabled(states[i-1], run[i-1]) && After(states[i-1], run[i-1], hints) == states[i];
    }
  }

  lemma {:induction false} StepsSaySo(states: seq<Sys>, run: seq<Step>, hints: Hints, i: nat)
    requires Behaves(states, run, hints) && i < |states|
    ensures SaysSo(states, run, i)
  {
    if i > 0 {
      StepsSaySo(states, run, hints, i - 1);
      InvAlways(states, run, hints, i - 1);
      assert Enabled(states[i-1], run[i-1]) && After(states[i-1], run[i-1], hints) == states[i];
    }
  }

  /** THE MARK KEEPS UP: at the end of every poll whose journal read answered, it is less than a minute
      behind that poll. */
  lemma MarkKeepsUp(states: seq<Sys>, run: seq<Step>, hints: Hints, i: nat, now: int, text: seq<Line>)
    requires Behaves(states, run, hints) && i < |run| && run[i] == EndPoll && LastPoll(run, i) == Some(Poll(now, Some(text))) && now >= 60
    ensures states[i+1].mark.Some? && 0 <= now - states[i+1].mark.value < 60
  {
    StepsSaySo(states, run, hints, i);
    MarksSaySo(states, run, hints, i);
    InvAlways(states, run, hints, i);
    assert Enabled(states[i], run[i]) && After(states[i], run[i], hints) == states[i+1];
  }

  /** The newest change of the mark by the collector that runs now. */
  ghost function OwnMark(states: seq<Sys>, run: seq<Step>, i: nat): Option<int>
    requires |states| == |run| + 1 && i < |states|
  {
    if i == 0 || run[i-1].Start? then None
    else if states[i].mark != states[i-1].mark then states[i].mark else OwnMark(states, run, i - 1)
  }

  lemma {:induction false} OwnMarkIsOld(states: seq<Sys>, run: seq<Step>, hints: Hints, i: nat)
    requires Behaves(states, run, hints) && i < |states| && states[i].proc.Some?
    ensures OwnMark(states, run, i).Some? ==> OwnMark(states, run, i).value <= states[i].proc.value.lastMark
  {
    if i > 0 && !run[i-1].Start? {
      var s, e := states[i-1], run[i-1];
      assert Enabled(s, e) && After(s, e, hints) == states[i];
      OwnMarkIsOld(states, run, hints, i - 1);
    }
  }

  /** ... AND IS WRITTEN ONCE A MINUTE AT MOST by one collector, only ever by the end of a poll whose
      journal read answered, and then it says that poll. */
  lemma MarkedOnceAMinute(states: seq<Sys>, run: seq<Step>, hints: Hints, i: nat)
    requires Behaves(states, run, hints) && i < |run| && states[i+1].mark != states[i].mark
    ensures run[i] == EndPoll && LastPoll(run, i).Some? && LastPoll(run, i).value.Poll? && LastPoll(run, i).value.text.Some?
    ensures states[i+1].mark == Some(LastPoll(run, i).value.now)
    ensures OwnMark(states, run, i).Some? ==> states[i+1].mark.value - OwnMark(states, run, i).value >= 60
  {
    StepsSaySo(states, run, hints, i);
    assert Enabled(states[i], run[i]) && After(states[i], run[i], hints) == states[i+1];
    OwnMarkIsOld(states, run, hints, i);
  }

  predicate Idles(e: Step) {
    e.Kernel? || e.Tick? || e.Crash?
  }

  lemma {:induction false} MarkStands(states: seq<Sys>, run: seq<Step>, hints: Hints, j: nat, i: nat)
    requires Behaves(states, run, hints) && j <= i < |states| && forall k :: j <= k < i ==> Idles(run[k])
    ensures states[i].mark == states[j].mark
  {
    if j < i {
      MarkStands(states, run, hints, j, i - 1);
      assert After(states[i-1], run[i-1], hints) == states[i];
    }
  }

  /** A RESTART READS BACK NO MORE THAN IT MUST: with no back-fill left over, from less than a minute
      before the last poll that answered, and never more than seven days. */
  lemma {:induction false} RestartReadsLittle(states: seq<Sys>, run: seq<Step>, hints: Hints, j: nat, i: nat, now: int, text: seq<Line>)
    requires Behaves(states, run, hints) && j < i < |run|
    requires run[j] == EndPoll && LastPoll(run, j) == Some(Poll(now, Some(text))) && now >= 60
    requires run[i] == Start && states[i].marker.None? && forall k :: j < k < i ==> Idles(run[k])
    ensures
      var week := states[i].clock - 7 * 86_400;
      exists from :: states[i+1].proc.value.job == Owed(from)
                     && (if week > now then from == week else now - 60 < from <= now || from == week)
  {
    MarkKeepsUp(states, run, hints, j, now, text);
    MarkStands(states, run, hints, j + 1, i);
    assert Enabled(states[i], run[i]) && After(states[i], run[i], hints) == states[i+1];
    var mark, week := states[i].mark.value, states[i].clock - 7 * 86_400;
    var from := if mark >= week then mark else week;
    assert states[i+1].proc.value.job == Owed(from);
  }

  /** What a start owes: from where an unfinished back-fill left its mark, else from the hot path's
      mark, else everything - of the last seven days. */
  lemma StartOwes(s: Sys)
    ensures
      var t, week := Started(s), s.clock - 7 * 86_400;
      && t.marker.Some? && t.proc.Some? && t.proc.value.job == Owed(t.marker.value) && week <= t.marker.value
      && (t.marker.value > week ==> t.marker == if s.marker.Some? then s.marker else if s.mark.Some? then s.mark else Some(0))
  {
  }

  /** Some poll reported this gap. */
  ghost predicate Reported(states: seq<Sys>, run: seq<Step>, i: nat, sp: Span) {
    exists j :: 0 <= j < i && j < |run| && j + 1 < |states| && GapAt(states, run, j, sp)
  }

  ghost predicate GapAt(states: seq<Sys>, run: seq<Step>, j: nat, sp: Span)
    requires j < |run| && j + 1 < |states|
  {
    && run[j].Poll? && run[j].text.Some? && states[j].proc.Some?
    && HotWindow(states[j].proc.value.hot.since, run[j].now).1 == Some(sp)
  }

  /** Every gap that counts as accounted for is one that a poll left between two of its reads. */
  lemma {:induction false} GapsAreReported(states: seq<Sys>, run: seq<Step>, hints: Hints, i: nat, sp: Span)
    requires Behaves(states, run, hints) && i < |states|
    requires sp in Gaps(states[i])
             || (states[i].proc.Some? && states[i].proc.value.batch.Some? && sp in GapOf(states[i].proc.value.batch.value))
    ensures Reported(states, run, i, sp)
  {
    if i > 0 {
      var s, e := states[i-1], run[i-1];
      assert Enabled(s, e) && After(s, e, hints) == states[i];
      if sp in Gaps(s) || (s.proc.Some? && s.proc.value.batch.Some? && sp in GapOf(s.proc.value.batch.value)) {
        GapsAreReported(states, run, hints, i - 1, sp);
        var j :| 0 <= j < i - 1 && j < |run| && j + 1 < |states| && GapAt(states, run, j, sp);
        assert j < i;
      } else {
        assert e.Poll? && GapAt(states, run, i - 1, sp);
      }
    }
  }

  // ------------------------------------------------------------------ what the scan promises

  /** Some read of the run answered without this line of its span. */
  ghost predicate LeftOut(states: seq<Sys>, run: seq<Step>, i: nat, l: Line) {
    exists j :: 0 <= j < i && j < |run| && j < |states| && l in Omits(states[j], run[j])
  }

  lemma {:induction false} OmittedIs(states: seq<Sys>, run: seq<Step>, hints: Hints, i: nat, l: Line)
    requires Behaves(states, run, hints) && i < |states|
    ensures l in states[i].omitted <==> LeftOut(states, run, i, l)
  {
    if i > 0 {
      OmittedIs(states, run, hints, i - 1, l);
      assert Enabled(states[i-1], run[i-1]) && After(states[i-1], run[i-1], hints) == states[i];
      OmittedStep(states[i-1], run[i-1], hints);
    }
  }

  lemma OmittedStep(s: Sys, e: Step, hints: Hints)
    requires Enabled(s, e)
    ensures After(s, e, hints).omitted == s.omitted + Omits(s, e)
  {
  }

  /** THE SCAN LOSES NO REPORT THAT IS READ TO IT: in every state of every run, every kernel line before
      the persisted scan mark and inside the seven days before the newest start is booked, or is still
      owed by the persisted back-fill marker, or lies in a gap back-fill - running, failed or died with
      a crash -, or was left out by a read of its span that answered all the same. */
  lemma XidScanSafety(states: seq<Sys>, run: seq<Step>, hints: Hints, i: nat, l: Line)
    requires Behaves(states, run, hints) && i < |states|
    requires l in states[i].journal && InReach(states, run, i, l.ts) && states[i].mark.Some? && l.ts < states[i].mark.value
    ensures InBook(states[i].books, l) || OwedByMarker(states[i], l) || InSpans(Gaps(states[i]), l.ts) || LeftOut(states, run, i, l)
  {
    InvAlways(states, run, hints, i);
    StepsSaySo(states, run, hints, i);
    MarksSaySo(states, run, hints, i);
    OmittedIs(states, run, hints, i, l);
    assert LineOk(states[i], l);
  }

  /** ONLY A GAP BACK-FILL OR A READ THAT LEAVES IT OUT CAN LOSE ONE: with the marker gone, and no gap
      back-fill pending, failed or dead, everything up to the last poll whose read answered is booked,
      but for what such a read left out. */
  lemma {:induction false} NothingOwedNothingMissing(states: seq<Sys>, run: seq<Step>, hints: Hints, i: nat, l: Line)
    requires Behaves(states, run, hints) && i < |states|
    requires states[i].marker.None? && Gaps(states[i]) == {} && states[i].proc.Some?
    requires l in states[i].journal && InReach(states, run, i, l.ts) && l.ts < Passed(states, run, i)
    ensures InBook(states[i].books, l) || LeftOut(states, run, i, l)
  {
    InvAlways(states, run, hints, i);
    StepsSaySo(states, run, hints, i);
    MarksSaySo(states, run, hints, i);
    OmittedIs(states, run, hints, i, l);
    assert LineOk(states[i], l);
  }

  /** Every read that answered listed all of its span. */
  ghost predicate ReadsComplete(states: seq<Sys>, run: seq<Step>, i: nat) {
    forall j :: 0 <= j < i && j < |run| && j < |states| ==> Omits(states[j], run[j]) == {}
  }

  /** ... so with reads that list what they should, the scan loses nothing but gap back-fills. */
  lemma {:induction false} CompleteReadsLoseNothing(states: seq<Sys>, run: seq<Step>, hints: Hints, i: nat, l: Line)
    requires Behaves(states, run, hints) && i < |states| && ReadsComplete(states, run, i) && l in states[i].journal
    ensures
      var s := states[i];
      && (s.mark.Some? && InReach(states, run, i, l.ts) && l.ts < s.mark.value ==>
            InBook(s.books, l) || OwedByMarker(s, l) || InSpans(Gaps(s), l.ts))
      && (s.marker.None? && Gaps(s) == {} && s.proc.Some? && InReach(states, run, i, l.ts) && l.ts < Passed(states, run, i) ==> InBook(s.books, l))
  {
    var s := states[i];
    if s.mark.Some? && InReach(states, run, i, l.ts) && l.ts < s.mark.value {
      XidScanSafety(states, run, hints, i, l);
    }
    if s.marker.None? && Gaps(s) == {} && s.proc.Some? && InReach(states, run, i, l.ts) && l.ts < Passed(states, run, i) {
      NothingOwedNothingMissing(states, run, hints, i, l);
    }
  }

  /** Of what is booked only what is past its ninety days can be without its row. */
  lemma YoungRowStands(states: seq<Sys>, run: seq<Step>, hints: Hints, i: nat, l: Line)
    requires Behaves(states, run, hints) && i < |states|
    requires InBook(states[i].books, l) && l.ts >= states[i].clock - KEEP_INCIDENTS
    ensures Standing(states[i].books, l)
  {
    InvAlways(states, run, hints, i);
  }

  // what was never listed

  predicate Listed(e: Step, l: Line) {
    match e
    case Poll(_, Some(text)) => l in text
    case JobRead(lines) => l in lines
    case GapBook(_, lines, _) => l in lines
    case BookSome(lines, _) => l in lines
    case _ => false
  }

  /** Nothing of this collector has ever seen the line. */
  ghost predicate Unseen(s: Sys, l: Line) {
    && (forall x :: x in s.books.bookings ==> x.l != l)
    && (s.proc.Some? && s.proc.value.batch.Some? ==> l !in s.proc.value.batch.value.result.xids)
    && (s.proc.Some? && s.proc.value.job.Held? ==> l !in s.proc.value.job.lines)
  }

  lemma UnseenStep(s: Sys, e: Step, hints: Hints, l: Line)
    requires Inv(s) && Enabled(s, e) && Unseen(s, l) && !Listed(e, l)
    ensures Unseen(After(s, e, hints), l)
  {
    match e {
      case Poll(now, Some(text)) => FreshMeaning(s.proc.value.hot.seen, text);
      case BookSome(lines, m) => BookAllMeaning(s.books, lines, m, hints);
      case BookPoll(m) => BookAllMeaning(s.books, s.proc.value.batch.value.result.xids, m, hints);
      case JobBook(m) => BookAllMeaning(s.books, s.proc.value.job.lines, m, hints);
      case GapBook(_, lines, m) => BookAllMeaning(s.books, lines, m, hints);
      case _ =>
    }
  }

  lemma {:induction false} UnseenAlways(states: seq<Sys>, run: seq<Step>, hints: Hints, i: nat, l: Line)
    requires Behaves(states, run, hints) && i < |states| && forall j :: 0 <= j < i ==> !Listed(run[j], l)
    ensures Unseen(states[i], l)
  {
    if i > 0 {
      UnseenAlways(states, run, hints, i - 1, l);
      InvAlways(states, run, hints, i - 1);
      assert Enabled(states[i-1], run[i-1]) && After(states[i-1], run[i-1], hints) == states[i];
      UnseenStep(states[i-1], run[i-1], hints, l);
    }
  }

  /** A LINE NO READ EVER LISTED IS NEVER BOOKED: what one read that answered left out, only another one
      can bring back. */
  lemma NeverListedNeverBooked(states: seq<Sys>, run: seq<Step>, hints: Hints, i: nat, l: Line)
    requires Behaves(states, run, hints) && i < |states| && forall j :: 0 <= j < i ==> !Listed(run[j], l)
    ensures !InBook(states[i].books, l)
  {
    UnseenAlways(states, run, hints, i, l);
  }

  // runs that lose a line

  predicate ListsNothing(e: Step) {
    match e
    case Poll(_, Some(text)) => text == []
    case JobRead(lines) => lines == []
    case GapBook(_, lines, _) => lines == []
    case BookSome(lines, _) => lines == []
    case _ => true
  }

  /** A run whose reads, if any, all came back empty, and the state it is in. */
  ghost predicate Silent(states: seq<Sys>, run: seq<Step>, hints: Hints, now: Sys) {
    Behaves(states, run, hints) && states[|run|] == now && forall j :: 0 <= j < |run| ==> ListsNothing(run[j])
  }

  lemma SilentBooksNothing(states: seq<Sys>, run: seq<Step>, hints: Hints, now: Sys, l: Line)
    requires Silent(states, run, hints, now)
    ensures !InBook(now.books, l)
  {
    forall j | 0 <= j < |run| ensures !Listed(run[j], l) {
      assert ListsNothing(run[j]);
    }
    NeverListedNeverBooked(states, run, hints, |run|, l);
  }

  /** Such a run taken one step further. */
  lemma Extended(states: seq<Sys>, run: seq<Step>, hints: Hints, s: Sys, e: Step) returns (more: seq<Sys>, longer: seq<Step>, now: Sys)
    requires Silent(states, run, hints, s) && Enabled(s, e) && ListsNothing(e)
    ensures now == After(s, e, hints) && Silent(more, longer, hints, now)
  {
    now := After(s, e, hints);
    more, longer := states + [now], run + [e];
    forall i | 0 <= i < |longer| ensures Enabled(more[i], longer[i]) && After(more[i], longer[i], hints) == more[i+1] {
      if i < |run| {
        assert more[i] == states[i] && more[i+1] == states[i+1] && longer[i] == run[i];
      }
    }
  }

  /** A start-up back-fill that reads nothing. */
  lemma EmptyBackfill(states: seq<Sys>, run: seq<Step>, hints: Hints, s: Sys, m: PciMap) returns (more: seq<Sys>, longer: seq<Step>, now: Sys)
    requires Silent(states, run, hints, s) && s.proc.Some? && s.proc.value.job.Owed?
    ensures Silent(more, longer, hints, now)
    ensures now == s.(marker := None, omitted := now.omitted, proc := Some(s.proc.value.(job := Over)))
  {
    more, longer, now := Extended(states, run, hints, s, JobRead([]));
    more, longer, now := Extended(more, longer, hints, now, JobBook(m));
    assert now.books == s.books;
    more, longer, now := Extended(more, longer, hints, now, JobClear);
  }

  /** A line appears in the journal, and time goes on. */
  lemma LineAppears(states: seq<Sys>, run: seq<Step>, hints: Hints, s: Sys, l: Line, later: int) returns (more: seq<Sys>, longer: seq<Step>, now: Sys)
    requires Silent(states, run, hints, s) && s.clock <= l.ts <= later
    ensures Silent(more, longer, hints, now) && now == s.(clock := later, journal := s.journal + {l})
  {
    more, longer, now := Extended(states, run, hints, s, Tick(l.ts));
    more, longer, now := Extended(more, longer, hints, now, Kernel(l));
    more, longer, now := Extended(more, longer, hints, now, Tick(later));
  }

  /** A poll whose journal read answers with nothing, not too long after the last one, up to its mark. */
  lemma EmptyPoll(states: seq<Sys>, run: seq<Step>, hints: Hints, s: Sys, m: PciMap) returns (more: seq<Sys>, longer: seq<Step>, now: Sys)
    requires Silent(states, run, hints, s) && s.proc.Some? && s.proc.value.batch.None? && s.proc.value.lastPoll <= s.clock
    requires s.proc.value.hot.since <= s.clock <= s.proc.value.hot.since + 60 && s.clock - s.proc.value.lastMark >= SCAN_MARK_SECS
    ensures Silent(more, longer, hints, now) && now.mark == Some(s.clock)
    ensures now.journal == s.journal && now.marker == s.marker && now.horizon == s.horizon && now.lost == s.lost
    ensures now.proc.Some? && now.proc.value.gaps == s.proc.value.gaps
  {
    more, longer, now := Extended(states, run, hints, s, Poll(s.clock, Some([])));
    assert now.proc.value.batch.value.result == HotResult([], true, None);
    more, longer, now := Extended(more, longer, hints, now, HandGap);
    assert now.proc.value.gaps == s.proc.value.gaps;
    more, longer, now := Extended(more, longer, hints, now, BookPoll(m));
    more, longer, now := Extended(more, longer, hints, now, EndPoll);
  }

  /** The collector has started for the first time, on an empty journal. */
  lemma FirstStart(hints: Hints, t: int) returns (states: seq<Sys>, run: seq<Step>, now: Sys)
    requires t >= 0
    ensures Silent(states, run, hints, now)
    ensures now.clock == t && now.journal == {} && now.mark == None && now.lost == {} && now.horizon == t - HORIZON
    ensures now.proc.Some? && now.proc == Some(Proc(t, HotState(t, []), t, None, 0, now.proc.value.job, {}, t, {})) && now.proc.value.job.Owed?
  {
    now := Sys(t, {}, Books(map[], 0, {}, t - KEEP_INCIDENTS), None, None, t - HORIZON, {}, {}, None);
    states, run := [now], [];
    assert Initial(now);
    states, run, now := Extended(states, run, hints, now, Start);
  }

  /** AN UNREADABLE JOURNAL COUNTS AS READ: a report five seconds after the start; `journalctl` fails,
      and the poll reads nothing. The mark passes the report, nothing owes it, no gap is noted, and it is
      not booked. */
  lemma UnreadableCountsAsRead(hints: Hints, m: PciMap, l: Line, t: int) returns (states: seq<Sys>, run: seq<Step>, now: Sys)
    requires t >= 60 && l.ts == t + 5
    ensures Behaves(states, run, hints) && states[|run|] == now
    ensures l in now.journal && now.mark == Some(t + 10) && InReach(states, run, |run|, l.ts) && l.ts < t + 10
    ensures now.marker.None? && Gaps(now) == {} && !InBook(now.books, l)
  {
    states, run, now := FirstStart(hints, t);
    states, run, now := EmptyBackfill(states, run, hints, now, m);
    states, run, now := LineAppears(states, run, hints, now, l, t + 10);
    states, run, now := EmptyPoll(states, run, hints, now, m);
    SilentBooksNothing(states, run, hints, now, l);
    StepsSaySo(states, run, hints, |run|);
  }

  /** ... and so does a back-fill's: a report while the collector is down; the next start's back-fill
      reads nothing, and its marker is cleared. */
  lemma MarkerClearedUnread(hints: Hints, m: PciMap, l: Line, t: int) returns (states: seq<Sys>, run: seq<Step>, now: Sys)
    requires t >= 0 && l.ts == t + 5
    ensures Behaves(states, run, hints) && states[|run|] == now
    ensures l in now.journal && now.proc.Some? && InReach(states, run, |run|, l.ts) && l.ts < Passed(states, run, |run|)
    ensures now.marker.None? && Gaps(now) == {} && !InBook(now.books, l)
  {
    states, run, now := FirstStart(hints, t);
    states, run, now := Extended(states, run, hints, now, Crash);
    states, run, now := LineAppears(states, run, hints, now, l, t + 10);
    states, run, now := Extended(states, run, hints, now, Start);
    states, run, now := EmptyBackfill(states, run, hints, now, m);
    SilentBooksNothing(states, run, hints, now, l);
    StepsSaySo(states, run, hints, |run|);
  }

  /** NO LINE IS HANDED ON TWICE by one run of the collector: the queue outlives the window. */
  lemma HandedOnce(states: seq<Sys>, run: seq<Step>, hints: Hints, i: nat, l: Line)
    requires Behaves(states, run, hints) && i < |run| && run[i].Poll?
    requires l in states[i+1].proc.value.batch.value.result.xids
    ensures l in states[i].journal && l !in states[i].proc.value.handed
  {
    InvAlways(states, run, hints, i);
    assert Enabled(states[i], run[i]) && After(states[i], run[i], hints) == states[i+1];
    var p := states[i].proc.value;
    FreshMeaning(p.hot.seen, run[i].text.value);
  }

  ghost predicate Hands(states: seq<Sys>, run: seq<Step>, i: nat, l: Line)
    requires i < |run| && i + 1 < |states|
  {
    run[i].Poll? && states[i+1].proc.Some? && states[i+1].proc.value.batch.Some? && l in states[i+1].proc.value.batch.value.result.xids
  }

  ghost predicate HasHanded(s: Sys, l: Line) {
    s.proc.Some? && l in s.proc.value.handed
  }

  lemma HandedKept(s: Sys, e: Step, hints: Hints, t: Sys, l: Line)
    requires Enabled(s, e) && t == After(s, e, hints)
    ensures e != Crash && HasHanded(s, l) ==> HasHanded(t, l)
    ensures e.Poll? && t.proc.Some? && t.proc.value.batch.Some? && l in t.proc.value.batch.value.result.xids ==> HasHanded(t, l)
  {
  }

  lemma {:induction false} HandedStays(states: seq<Sys>, run: seq<Step>, hints: Hints, j: nat, i: nat, l: Line)
    requires Behaves(states, run, hints) && j < i < |states| && HasHanded(states[j+1], l)
    requires forall k :: j < k < i ==> run[k] != Crash
    ensures HasHanded(states[i], l)
  {
    if j < i - 1 {
      HandedStays(states, run, hints, j, i - 1, l);
      HandedKept(states[i-1], run[i-1], hints, states[i], l);
    }
  }

  /** ... nor by two polls with no crash in between. */
  lemma NeverHandedAgain(states: seq<Sys>, run: seq<Step>, hints: Hints, j: nat, i: nat, l: Line)
    requires Behaves(states, run, hints) && j < i < |run| && Hands(states, run, j, l)
    requires forall k :: j < k < i ==> run[k] != Crash
    ensures !Hands(states, run, i, l)
  {
    HandedKept(states[j], run[j], hints, states[j+1], l);
    HandedStays(states, run, hints, j, i, l);
    if Hands(states, run, i, l) {
      HandedOnce(states, run, hints, i, l);
    }
  }

  /** The table never holds two rows of one key, in any state of any run. */
  lemma OneRowPerKey(states: seq<Sys>, run: seq<Step>, hints: Hints, i: nat)
    requires Behaves(states, run, hints) && i < |states|
    ensures UniqueKeys(states[i].books.rows)
  {
    InvAlways(states, run, hints, i);
  }

  // ------------------------------------------------------------------ rows and reports

  lemma LabelsDiffer(i: nat, pci: string)
    ensures GpuLabel(i) != PciLabel(pci)
  {
    assert GpuLabel(i)[0] == 'G' && PciLabel(pci)[0] == 'P';
  }

  lemma GpuLabelInjective(i: nat, j: nat)
    requires GpuLabel(i) == GpuLabel(j)
    ensures i == j
  {
    DigitsMeaning(i);
    DigitsMeaning(j);
    assert Digits(i) == GpuLabel(i)[3..] && Digits(j) == GpuLabel(j)[3..];
  }

  /** Two answers of `nvidia-smi` name the same card: by one index, or neither knows and the
      addresses agree. */
  predicate SameName(l: Line, m: PciMap, x: Line, n: PciMap) {
    if l.pci in m && x.pci in n then m[l.pci] == n[x.pci]
    else l.pci !in m && x.pci !in n && l.pci == x.pci
  }

  lemma SameLabel(l: Line, m: PciMap, x: Line, n: PciMap)
    ensures LabelOf(l, m) == LabelOf(x, n) <==> SameName(l, m, x, n)
  {
    if LabelOf(l, m) == LabelOf(x, n) {
      if l.pci in m && x.pci in n {
        GpuLabelInjective(m[l.pci], n[x.pci]);
      } else if l.pci in m {
        LabelsDiffer(m[l.pci], x.pci);
      } else if x.pci in n {
        LabelsDiffer(n[x.pci], l.pci);
      } else {
        assert l.pci == PciLabel(l.pci)[4..] && x.pci == PciLabel(x.pci)[4..];
      }
    }
  }

  /** TWO REPORTS SHARE A ROW, exactly: same number, same second, and the answers by which they were
      labelled name the same card. So two different cards' reports share one only if both were
      resolved to one index - which takes two answers that disagree about it. */
  lemma SharedRowExactly(l: Line, m: PciMap, x: Line, n: PciMap)
    ensures KeyOf(l, m) == KeyOf(x, n) <==> l.xid == x.xid && l.ts == x.ts && SameName(l, m, x, n)
  {
    SameLabel(l, m, x, n);
    if KeyOf(l, m) == KeyOf(x, n) {
      XidKeyInjective(LabelOf(l, m), l.xid, l.ts, LabelOf(x, n), x.xid, x.ts);
    }
  }

  ghost predicate MadeBy(b: Books, k: string) {
    exists x :: x in b.bookings && KeyOf(x.l, x.m) == k
  }

  /** Every keyed row was there from the start or comes from a booking. */
  lemma {:induction false} RowOrigin(states: seq<Sys>, run: seq<Step>, hints: Hints, i: nat, k: string)
    requires Behaves(states, run, hints) && i < |states| && HasKey(states[i].books.rows, k)
    ensures HasKey(states[0].books.rows, k) || MadeBy(states[i].books, k)
  {
    if i > 0 {
      InvAlways(states, run, hints, i - 1);
      var s, e := states[i-1], run[i-1];
      assert Enabled(s, e) && After(s, e, hints) == states[i];
      RowOriginStep(s, e, hints, k);
      if HasKey(s.books.rows, k) {
        RowOrigin(states, run, hints, i - 1, k);
      }
    }
  }

  lemma RowOriginStep(s: Sys, e: Step, hints: Hints, k: string)
    requires Good(s.books) && Enabled(s, e)
    ensures MadeBy(s.books, k) ==> MadeBy(After(s, e, hints).books, k)
    ensures HasKey(After(s, e, hints).books.rows, k) ==> HasKey(s.books.rows, k) || MadeBy(After(s, e, hints).books, k)
  {
    match e {
      case BookSome(lines, m) => OriginStep(s.books, lines, m, hints, k);
      case BookPoll(m) => OriginStep(s.books, s.proc.value.batch.value.result.xids, m, hints, k);
      case JobBook(m) => OriginStep(s.books, s.proc.value.job.lines, m, hints, k);
      case GapBook(_, lines, m) => OriginStep(s.books, lines, m, hints, k);
      case Prune(now) => PrunedKey(s.books, now, k);
      case _ => assert After(s, e, hints).books == s.books;
    }
  }

  lemma PrunedKey(b: Books, now: int, k: string)
    ensures HasKey(Pruned(b, now).rows, k) ==> HasKey(b.rows, k)
    ensures MadeBy(b, k) ==> MadeBy(Pruned(b, now), k)
  {
    var c := Pruned(b, now);
    if HasKey(c.rows, k) {
      var i :| i in c.rows && c.rows[i].key == Some(k);
      assert i in b.rows && b.rows[i].key == Some(k);
    }
    if MadeBy(b, k) {
      var x :| x in b.bookings && KeyOf(x.l, x.m) == k;
      assert x in c.bookings;
    }
  }

  lemma {:induction false} OriginStep(b: Books, lines: seq<Line>, m: PciMap, hints: Hints, k: string)
    requires Good(b)
    ensures MadeBy(b, k) ==> MadeBy(BookAll(b, lines, m, hints), k)
    ensures HasKey(BookAll(b, lines, m, hints).rows, k) ==> HasKey(b.rows, k) || MadeBy(BookAll(b, lines, m, hints), k)
  {
    BookAllMeaning(b, lines, m, hints);
    if l :| l in lines && KeyOf(l, m) == k {
      assert Booking(l, m) in BookAll(b, lines, m, hints).bookings;
    }
  }

  /** The row a report makes: an Xid of one instant, worded after the card, the number, the hint and
      the kernel's words, and keyed by card, number and second. */
  ghost predicate Tells(r: Incident, x: Booking, hints: Hints) {
    var card := if x.l.pci in x.m then "GPU" + Digits(x.m[x.l.pci]) else "PCI " + x.l.pci;
    && r.kind == "xid" && r.start == x.l.ts && r.end == Some(x.l.ts)
    && r.detail == Trim(card + " Xid " + Digits(x.l.xid) + " (" + hints(x.l.xid) + ") " + x.l.rest)
    && r.key == Some("xid|" + card + "|" + Digits(x.l.xid) + "|" + Signed(x.l.ts))
  }

  lemma NewRowTells(l: Line, m: PciMap, hints: Hints)
    ensures Tells(Incident(l.ts, Some(l.ts), KIND_XID, Wording(l, m, hints), Some(KeyOf(l, m))), Booking(l, m), hints)
  {
  }

  ghost predicate TellsOne(r: Incident, b: Books, hints: Hints) {
    exists x :: x in b.bookings && Tells(r, x, hints)
  }

  ghost predicate KeptOrTold(first: Rows, b: Books, hints: Hints, id: Id) {
    id in b.rows ==> (id in first && b.rows[id] == first[id]) || TellsOne(b.rows[id], b, hints)
  }

  lemma LineTold(first: Rows, b: Books, l: Line, m: PciMap, hints: Hints, id: Id)
    requires KeptOrTold(first, b, hints, id)
    ensures KeptOrTold(first, BookLine(b, l, m, hints), hints, id)
  {
    NewRowTells(l, m, hints);
    var c := BookLine(b, l, m, hints);
    assert Booking(l, m) in c.bookings;
    if id in b.rows && TellsOne(b.rows[id], b, hints) {
      var x :| x in b.bookings && Tells(b.rows[id], x, hints);
      assert x in c.bookings;
    }
  }

  lemma {:induction false} LinesTold(first: Rows, b: Books, lines: seq<Line>, m: PciMap, hints: Hints, id: Id)
    requires KeptOrTold(first, b, hints, id)
    ensures KeptOrTold(first, BookAll(b, lines, m, hints), hints, id)
  {
    if lines != [] {
      var init := lines[..|lines|-1];
      LinesTold(first, b, init, m, hints, id);
      LineTold(first, BookAll(b, init, m, hints), lines[|lines|-1], m, hints, id);
    }
  }

  lemma StepTold(first: Rows, s: Sys, e: Step, hints: Hints, id: Id)
    requires Enabled(s, e) && KeptOrTold(first, s.books, hints, id)
    ensures KeptOrTold(first, After(s, e, hints).books, hints, id)
  {
    match e {
      case BookSome(lines, m) => LinesTold(first, s.books, lines, m, hints, id);
      case BookPoll(m) => LinesTold(first, s.books, s.proc.value.batch.value.result.xids, m, hints, id);
      case JobBook(m) => LinesTold(first, s.books, s.proc.value.job.lines, m, hints, id);
      case GapBook(_, lines, m) => LinesTold(first, s.books, lines, m, hints, id);
      case Prune(now) =>
        if id in Pruned(s.books, now).rows && TellsOne(s.books.rows[id], s.books, hints) {
          var x :| x in s.books.bookings && Tells(s.books.rows[id], x, hints);
          assert x in Pruned(s.books, now).bookings;
        }
      case _ => assert After(s, e, hints).books == s.books;
    }
  }

  /** WHAT EVERY ROW SAYS: it is a row of the beginning, untouched, or says exactly what one booked
      report says - and is never reworded by a later booking of the same report. */
  lemma {:induction false} RowSaysItsReport(states: seq<Sys>, run: seq<Step>, hints: Hints, i: nat, id: Id)
    requires Behaves(states, run, hints) && i < |states| && id in states[i].books.rows
    ensures (id in states[0].books.rows && states[i].books.rows[id] == states[0].books.rows[id])
            || TellsOne(states[i].books.rows[id], states[i].books, hints)
  {
    AllTold(states, run, hints, i, id);
  }

  lemma {:induction false} AllTold(states: seq<Sys>, run: seq<Step>, hints: Hints, i: nat, id: Id)
    requires Behaves(states, run, hints) && i < |states|
    ensures KeptOrTold(states[0].books.rows, states[i].books, hints, id)
  {
    if i > 0 {
      AllTold(states, run, hints, i - 1, id);
      assert Enabled(states[i-1], run[i-1]) && After(states[i-1], run[i-1], hints) == states[i];
      StepTold(states[0].books.rows, states[i-1], run[i-1], hints, id);
    }
  }

  /** BOOKED ONCE: while every answer of `nvidia-smi` that came into a booking of this address gave it
      the same label, a row for this number and second under any other label is no row of this
      report - it was there from the start, or a booking of another address made it. */
  lemma {:induction false} BookedOnce(states: seq<Sys>, run: seq<Step>, hints: Hints, i: nat, l: Line, mine: string, other: string)
    requires Behaves(states, run, hints) && i < |states| && other != mine
    requires forall x :: x in states[i].books.bookings && x.l.pci == l.pci ==> LabelOf(x.l, x.m) == mine
    requires HasKey(states[i].books.rows, XidKey(other, l.xid, l.ts))
    ensures HasKey(states[0].books.rows, XidKey(other, l.xid, l.ts))
            || exists x :: x in states[i].books.bookings && KeyOf(x.l, x.m) == XidKey(other, l.xid, l.ts) && x.l.pci != l.pci
  {
    var k := XidKey(other, l.xid, l.ts);
    RowOrigin(states, run, hints, i, k);
    if x :| x in states[i].books.bookings && KeyOf(x.l, x.m) == k {
      XidKeyInjective(LabelOf(x.l, x.m), x.l.xid, x.l.ts, other, l.xid, l.ts);
    }
  }

  lemma {:induction false} BookAllOne(b: Books, l: Line, m: PciMap, hints: Hints)
    ensures BookAll(b, [l], m, hints) == BookLine(b, l, m, hints)
  {
    var none: seq<Line> := [];
    var one := [l];
    assert one[..|one| - 1] == none && one[|one| - 1] == l;
    assert BookAll(b, none, m, hints) == b;
  }

  /** Booking one line adds one row, or none when its key is known. */
  lemma {:induction false} BookOneCounts(b: Books, l: Line, m: PciMap, hints: Hints)
    requires Good(b)
    ensures Good(BookAll(b, [l], m, hints))
    ensures |BookAll(b, [l], m, hints).rows| == |b.rows| + if HasKey(b.rows, KeyOf(l, m)) then 0 else 1
    ensures forall k :: HasKey(BookAll(b, [l], m, hints).rows, k) <==> HasKey(b.rows, k) || k == KeyOf(l, m)
  {
    BookAllMeaning(b, [l], m, hints);
    BookAllOne(b, l, m, hints);
    var c := BookAll(b, [l], m, hints);
    BookedKeepsKeysUnique(b.rows, b.next, KIND_XID, l.ts, Wording(l, m, hints), Some(KeyOf(l, m)));
    if !HasKey(b.rows, KeyOf(l, m)) {
      assert Id(b.next) !in b.rows;
      assert !Known(b.rows, KIND_XID, l.ts, Wording(l, m, hints), Some(KeyOf(l, m)));
      assert c.rows.Keys == b.rows.Keys + {Id(b.next)};
      assert |c.rows| == |c.rows.Keys| && |b.rows| == |b.rows.Keys|;
    }
  }

  /** BOOKED TWICE, exactly: two bookings of one new report make two rows if and only if the two
      answers of `nvidia-smi` gave it different labels - one of them none, or another index. */
  lemma {:induction false} BookedTwiceExactly(b: Books, l: Line, first: PciMap, second: PciMap, hints: Hints)
    requires Good(b) && !HasKey(b.rows, KeyOf(l, first)) && !HasKey(b.rows, KeyOf(l, second))
    ensures
      var c := BookAll(BookAll(b, [l], first, hints), [l], second, hints);
      && |c.rows| == |b.rows| + (if LabelOf(l, first) != LabelOf(l, second) then 2 else 1)
      && (LabelOf(l, first) != LabelOf(l, second) <==> !SameName(l, first, l, second))
  {
    BookOneCounts(b, l, first, hints);
    BookOneCounts(BookAll(b, [l], first, hints), l, second, hints);
    SharedRowExactly(l, first, l, second);
    SameLabel(l, first, l, second);
  }

  const NoBooks := Books(map[], 0, {}, 0)

  /** The two ways: the index known once and not the other time, and a card renumbered between. */
  lemma BookedTwiceExamples(hints: Hints)
    ensures
      var l := Line(0, "0000:f1:00", 79, "");
      && |BookAll(BookAll(NoBooks, [l], map[], hints), [l], map[l.pci := 3], hints).rows| == 2
      && |BookAll(BookAll(NoBooks, [l], map[l.pci := 0], hints), [l], map[l.pci := 1], hints).rows| == 2
  {
    var l := Line(0, "0000:f1:00", 79, "");
    BookedTwiceExactly(NoBooks, l, map[], map[l.pci := 3], hints);
    BookedTwiceExactly(NoBooks, l, map[l.pci := 0], map[l.pci := 1], hints);
  }

  /** ... and two cards' reports in one row: the second card took the first one's index. */
  lemma SharedRowExample(hints: Hints)
    ensures
      var l, x := Line(0, "0000:f1:00", 79, ""), Line(0, "0000:a1:00", 79, "");
      |BookAll(BookAll(NoBooks, [l], map[l.pci := 0], hints), [x], map[x.pci := 0], hints).rows| == 1
  {
    var l, x := Line(0, "0000:f1:00", 79, ""), Line(0, "0000:a1:00", 79, "");
    BookOneCounts(NoBooks, l, map[l.pci := 0], hints);
    BookOneCounts(BookAll(NoBooks, [l], map[l.pci := 0], hints), x, map[x.pci := 0], hints);
    SharedRowExactly(l, map[l.pci := 0], x, map[x.pci := 0]);
  }
}
