/** One benchmark at a time (`lss-collector/src/bench_run.rs`, `db.rs`): the lock file, the rows that
    say `running`, and what a crash leaves behind. Each `take_lock` is one step. */
module BenchRuns {
  import opened Wrappers

  datatype RunId = RunId(n: nat)
  datatype Session = Session(n: nat)

  /** How far one accepted request has come: lock taken; its row inserted; its row's end written -
      or the write failed; lock released. */
  datatype Phase = Locked | Recorded(id: RunId) | Stored(id: RunId) | Released

  /** One collector process. `recovered` = `recover` has run. */
  datatype Proc = Proc(pid: int, recovered: bool, sessions: map<Session, Phase>)

  /** `open` = the rows that say `running`; `file` = the pid in the lock file; `others` = every
      other live process of the machine; `unstored` = runs whose end could not be written. */
  datatype Sys = Sys(open: set<RunId>, next: nat, file: Option<int>, proc: Option<Proc>, others: set<int>, unstored: set<RunId>)

  datatype Step =
    | Boot(pid: int)
    | Recover(closed: bool)
    | Take(s: Session)
    | Record(s: Session, ok: bool)
    | Finish(s: Session, ok: bool)
    | Release(s: Session)
    | Crash
    | Born(pid: int)
    | Dies(pid: int)

  predicate Alive(y: Sys, pid: int) {
    pid in y.others || (y.proc.Some? && y.proc.value.pid == pid)
  }

  predicate InPhase(y: Sys, s: Session, p: Phase) {
    y.proc.Some? && s in y.proc.value.sessions && y.proc.value.sessions[s] == p
  }

  predicate HasRow(y: Sys, s: Session) {
    y.proc.Some? && s in y.proc.value.sessions && y.proc.value.sessions[s].Recorded?
  }

  predicate HasEnded(y: Sys, s: Session) {
    y.proc.Some? && s in y.proc.value.sessions && y.proc.value.sessions[s].Stored?
  }

  predicate Enabled(y: Sys, e: Step) {
    match e
    case Boot(pid) => y.proc.None? && pid > 0 && pid !in y.others
    case Recover(_) => y.proc.Some? && !y.proc.value.recovered
    case Take(s) => y.proc.Some? && y.proc.value.recovered && s !in y.proc.value.sessions
    case Record(s, _) => InPhase(y, s, Locked)
    case Finish(s, _) => HasRow(y, s)
    case Release(s) => HasEnded(y, s)
    case Crash => y.proc.Some?
    case Born(pid) => !Alive(y, pid)
    case Dies(pid) => pid in y.others
  }

  function Put(y: Sys, s: Session, p: Phase): Option<Proc>
    requires y.proc.Some?
  {
    Some(y.proc.value.(sessions := y.proc.value.sessions[s := p]))
  }

  /** `recover`: a lock of a dead process, or of this very pid, goes; every open row is closed. */
  function Recovered(y: Sys, closed: bool): Sys
    requires y.proc.Some?
  {
    var stale := y.file.Some? && (!Alive(y, y.file.value) || y.file.value == y.proc.value.pid);
    y.(file := if stale then None else y.file,
       open := if closed then {} else y.open,
       unstored := if closed then {} else y.unstored + y.open,
       proc := Some(y.proc.value.(recovered := true)))
  }

  /** `take_lock`: refused by a live holder; a dead one's lock is taken over. */
  function Taken(y: Sys, s: Session): Sys
    requires y.proc.Some?
  {
    if y.file.Some? && Alive(y, y.file.value) then y
    else y.(file := Some(y.proc.value.pid), proc := Put(y, s, Locked))
  }

  function After(y: Sys, e: Step): Sys
    requires Enabled(y, e)
  {
    match e
    case Boot(pid) => y.(proc := Some(Proc(pid, false, map[])))
    case Recover(closed) => Recovered(y, closed)
    case Take(s) => Taken(y, s)
    case Record(s, ok) =>
      if ok then y.(open := y.open + {RunId(y.next)}, next := y.next + 1, proc := Put(y, s, Recorded(RunId(y.next))))
      else y.(file := None, proc := Put(y, s, Released))
    case Finish(s, ok) =>
      var id := y.proc.value.sessions[s].id;
      y.(open := if ok then y.open - {id} else y.open,
         unstored := if ok then y.unstored else y.unstored + {id},
         proc := Put(y, s, Stored(id)))
    case Release(s) => y.(file := None, proc := Put(y, s, Released))
    case Crash => y.(proc := None)
    case Born(pid) => y.(others := y.others + {pid})
    case Dies(pid) => y.(others := y.others - {pid})
  }

  ghost predicate Initial(y: Sys) {
    y.open == {} && y.file.None? && y.proc.None? && y.unstored == {}
  }

  ghost predicate Behaves(states: seq<Sys>, run: seq<Step>) {
    && |states| == |run| + 1
    && Initial(states[0])
    && forall i :: 0 <= i < |run| ==> Enabled(states[i], run[i]) && After(states[i], run[i]) == states[i+1]
  }

  // ------------------------------------------------------------------ the invariant

  /** The session is between taking and releasing the lock. */
  predicate Holder(y: Sys, s: Session) {
    y.proc.Some? && s in y.proc.value.sessions && y.proc.value.sessions[s] != Released
  }

  ghost predicate HolderOk(y: Sys, s: Session) {
    && y.proc.Some? && s in y.proc.value.sessions
    && y.proc.value.recovered && y.file == Some(y.proc.value.pid)
    && match y.proc.value.sessions[s] {
         case Recorded(id) => id in y.open && id !in y.unstored
         case Stored(id) => id in y.open <==> id in y.unstored
         case _ => true
       }
  }

  /** An open row is one whose end could not be written, or the row of the session that has the lock. */
  ghost predicate RowOk(y: Sys, id: RunId) {
    id in y.unstored || exists s :: InPhase(y, s, Recorded(id))
  }

  ghost predicate Inv(y: Sys) {
    && (forall id :: id in y.open || id in y.unstored ==> id.n < y.next)
    && (y.proc.Some? ==> y.proc.value.pid !in y.others && y.proc.value.pid > 0)
    && (forall s, r :: Holder(y, s) && Holder(y, r) ==> s == r)
    && (forall s :: Holder(y, s) ==> HolderOk(y, s))
    && (y.proc.Some? && y.proc.value.recovered ==> forall id :: id in y.open ==> RowOk(y, id))
    && (y.proc.Some? && !y.proc.value.recovered ==> y.proc.value.sessions == map[])
    && (y.proc.Some? && y.proc.value.recovered && y.file == Some(y.proc.value.pid) ==> exists s :: Holder(y, s))
  }

  lemma RowsStay(y: Sys, z: Sys, e: Step)
    requires Inv(y) && Enabled(y, e) && z == After(y, e)
    requires y.proc.Some? && y.proc.value.recovered && z.proc.Some?
    ensures forall id :: id in z.open ==> RowOk(z, id)
  {
    forall id | id in z.open ensures RowOk(z, id) {
      if id in y.open {
        assert RowOk(y, id);
        if id !in y.unstored {
          var s :| InPhase(y, s, Recorded(id));
          assert Holder(y, s);
          assert HolderOk(y, s);
          assert InPhase(z, s, Recorded(id)) || id in z.unstored;
        }
      } else {
        assert InPhase(z, e.s, Recorded(id));
      }
    }
  }

  lemma HolderStays(y: Sys, z: Sys, e: Step, s: Session)
    requires Inv(y) && Enabled(y, e) && z == After(y, e) && Holder(z, s)
    ensures HolderOk(z, s)
    ensures Holder(y, s) || (e.Take? && s == e.s && forall r :: !Holder(y, r))
  {
    if Holder(y, s) {
      assert HolderOk(y, s);
      if e.Record? || e.Finish? || e.Release? {
        assert Holder(y, e.s);
        assert s == e.s;
      }
    }
  }

  lemma InvStep(y: Sys, e: Step)
    requires Inv(y) && Enabled(y, e)
    ensures Inv(After(y, e))
  {
    var z := After(y, e);
    forall s | Holder(z, s)
      ensures HolderOk(z, s)
      ensures Holder(y, s) || (e.Take? && s == e.s && forall r :: !Holder(y, r))
    {
      HolderStays(y, z, e, s);
    }
    if y.proc.Some? && y.proc.value.recovered && z.proc.Some? {
      RowsStay(y, z, e);
    }
    if e.Finish? {
      assert Holder(y, e.s);
      assert HolderOk(y, e.s);
    }
    FileStays(y, z, e);
  }

  /** The lock file names this process only while a session has the lock. */
  lemma FileStays(y: Sys, z: Sys, e: Step)
    requires Inv(y) && Enabled(y, e) && z == After(y, e)
    ensures z.proc.Some? && z.proc.value.recovered && z.file == Some(z.proc.value.pid) ==> exists s :: Holder(z, s)
  {
    if e.Take? && z != y {
      assert Holder(z, e.s);
    } else if e.Record? || e.Finish? {
      assert Holder(y, e.s);
      assert z.file.Some? ==> Holder(z, e.s);
    } else if Up(y) && y.file == Some(y.proc.value.pid) && z.proc.Some? && !e.Release? {
      var s :| Holder(y, s);
      assert Holder(z, s);
    }
  }

  lemma {:induction false} InvAlways(states: seq<Sys>, run: seq<Step>, i: nat)
    requires Behaves(states, run) && i < |states|
    ensures Inv(states[i])
  {
    if i > 0 {
      InvAlways(states, run, i - 1);
      InvStep(states[i-1], run[i-1]);
    }
  }

  // ------------------------------------------------------------------ what is promised

  predicate Up(y: Sys) { y.proc.Some? && y.proc.value.recovered }

  /** The lock file is written by taking the lock, removed by giving it back, by a run that could not
      be recorded or by the recovery of a new start - and by nothing else; above all it outlives a
      crash. */
  lemma FileOutlives(states: seq<Sys>, run: seq<Step>, i: nat)
    requires Behaves(states, run) && i < |run| && states[i+1].file != states[i].file
    ensures match run[i]
            case Take(_) => states[i].proc.Some? && states[i+1].file == Some(states[i].proc.value.pid)
            case Release(_) => states[i+1].file == None
            case Record(_, ok) => !ok && states[i+1].file == None
            case Recover(_) => states[i+1].file == None
            case _ => false
  {
    assert Enabled(states[i], run[i]) && After(states[i], run[i]) == states[i+1];
  }

  /** ONE BENCH AT A TIME: after start-up recovery, the rows that say `running` are at most one plus
      those whose end could not be written; that one belongs to the session that has the lock, and
      the lock file names this process. */
  lemma OneRunAtATime(states: seq<Sys>, run: seq<Step>, i: nat, a: RunId, b: RunId)
    requires Behaves(states, run) && i < |states| && Up(states[i])
    requires a in states[i].open && a !in states[i].unstored && b in states[i].open && b !in states[i].unstored
    ensures a == b
    ensures exists s :: InPhase(states[i], s, Recorded(a))
    ensures states[i].file == Some(states[i].proc.value.pid)
  {
    InvAlways(states, run, i);
    assert RowOk(states[i], a) && RowOk(states[i], b);
    var s :| InPhase(states[i], s, Recorded(a));
    var r :| InPhase(states[i], r, Recorded(b));
    assert Holder(states[i], s) && Holder(states[i], r);
  }

  /** The steps at which a write of the database failed. */
  predicate WriteFailed(e: Step) {
    match e
    case Recover(closed) => !closed
    case Finish(_, ok) => !ok
    case _ => false
  }

  lemma {:induction false} NothingUnstored(states: seq<Sys>, run: seq<Step>, i: nat)
    requires Behaves(states, run) && i < |states| && forall k :: 0 <= k < |run| ==> !WriteFailed(run[k])
    ensures states[i].unstored == {}
  {
    if i > 0 {
      NothingUnstored(states, run, i - 1);
      assert !WriteFailed(run[i-1]) && After(states[i-1], run[i-1]) == states[i];
    }
  }

  /** Without a failed write there is at most one row `running`, full stop. */
  lemma AtMostOneRunning(states: seq<Sys>, run: seq<Step>, i: nat, a: RunId, b: RunId)
    requires Behaves(states, run) && i < |states| && Up(states[i])
    requires forall k :: 0 <= k < |run| ==> !WriteFailed(run[k])
    requires a in states[i].open && b in states[i].open
    ensures a == b
  {
    NothingUnstored(states, run, i);
    OneRunAtATime(states, run, i, a, b);
  }

  /** The step failed to write the end of this run. */
  ghost predicate FailedFor(y: Sys, e: Step, id: RunId) {
    match e
    case Recover(closed) => !closed && id in y.open
    case Finish(s, ok) => !ok && InPhase(y, s, Recorded(id))
    case _ => false
  }

  lemma {:induction false} UnstoredHasACause(states: seq<Sys>, run: seq<Step>, i: nat, id: RunId)
    requires Behaves(states, run) && i < |states| && id in states[i].unstored
    ensures exists k :: 0 <= k < i && FailedFor(states[k], run[k], id)
  {
    var y, e := states[i-1], run[i-1];
    assert Enabled(y, e) && After(y, e) == states[i];
    if id in y.unstored {
      UnstoredHasACause(states, run, i - 1, id);
    } else {
      assert FailedFor(y, e, id);
    }
  }

  /** NO LOCK IS RELEASED WHILE ITS ROW STILL SAYS RUNNING, except - exactly - when writing the end
      of that run failed. */
  lemma ReleasedRowIsClosed(states: seq<Sys>, run: seq<Step>, i: nat, s: Session, id: RunId)
    requires Behaves(states, run) && i < |run| && run[i] == Release(s) && InPhase(states[i], s, Stored(id))
    ensures id in states[i+1].open <==> id in states[i].unstored
    ensures id in states[i+1].open ==> exists k :: 0 <= k < i && FailedFor(states[k], run[k], id)
  {
    InvAlways(states, run, i);
    assert After(states[i], run[i]) == states[i+1];
    assert Holder(states[i], s) && HolderOk(states[i], s);
    if id in states[i].unstored {
      UnstoredHasACause(states, run, i, id);
    }
  }

  /** The end of a run closes its row if and only if it could be written. */
  lemma FinishCloses(states: seq<Sys>, run: seq<Step>, i: nat, s: Session, ok: bool, id: RunId)
    requires Behaves(states, run) && i < |run| && run[i] == Finish(s, ok) && InPhase(states[i], s, Recorded(id))
    ensures id in states[i+1].open <==> !ok
    ensures forall x :: x != id ==> (x in states[i+1].open <==> x in states[i].open)
  {
    InvAlways(states, run, i);
    assert After(states[i], run[i]) == states[i+1];
    assert Holder(states[i], s) && HolderOk(states[i], s);
  }

  /** A NEW BENCH GETS IN exactly when no live process holds the lock - so after recovery a crash
      blocks nothing, unless the dead collector's pid now belongs to some other process. */
  lemma TakenExactlyWhenFree(states: seq<Sys>, run: seq<Step>, i: nat, s: Session)
    requires Behaves(states, run) && i < |run| && run[i] == Take(s)
    ensures InPhase(states[i+1], s, Locked) <==> states[i].file.None? || !Alive(states[i], states[i].file.value)
    ensures InPhase(states[i+1], s, Locked) ==> forall r :: !Holder(states[i], r)
  {
    InvAlways(states, run, i);
    assert After(states[i], run[i]) == states[i+1];
    forall r | Holder(states[i], r) ensures HolderOk(states[i], r) {}
  }

  /** ... said of the sessions: a bench is refused exactly while another one of this collector is between
      taking and releasing the lock, or another live process is named in the file. */
  lemma RefusedExactlyWhileHeld(states: seq<Sys>, run: seq<Step>, i: nat, s: Session)
    requires Behaves(states, run) && i < |run| && run[i] == Take(s)
    ensures !InPhase(states[i+1], s, Locked) <==>
              (exists r :: Holder(states[i], r)) || (states[i].file.Some? && states[i].file.value in states[i].others)
  {
    InvAlways(states, run, i);
    TakenExactlyWhenFree(states, run, i, s);
    assert Enabled(states[i], run[i]);
    if r :| Holder(states[i], r) {
      assert HolderOk(states[i], r);
    }
  }

  /** THE LOCK COMES FREE: whoever asks right after a bench was released, or could not be recorded, gets
      it. */
  lemma TakenAfterRelease(states: seq<Sys>, run: seq<Step>, i: nat, s: Session, r: Session)
    requires Behaves(states, run) && i + 1 < |run| && run[i+1] == Take(r)
    requires run[i] == Release(s) || run[i] == Record(s, false)
    ensures InPhase(states[i+2], r, Locked)
  {
    InvAlways(states, run, i);
    assert Enabled(states[i], run[i]) && After(states[i], run[i]) == states[i+1];
    assert Holder(states[i], s) && HolderOk(states[i], s);
    TakenExactlyWhenFree(states, run, i + 1, r);
  }

  /** Recovery leaves a lock file only if some other live process is named in it. */
  lemma RecoveryClears(states: seq<Sys>, run: seq<Step>, i: nat, closed: bool)
    requires Behaves(states, run) && i < |run| && run[i] == Recover(closed)
    ensures states[i+1].file == if states[i].file.Some? && states[i].file.value in states[i].others then states[i].file else None
    ensures closed ==> states[i+1].open == {}
  {
    InvAlways(states, run, i);
    assert Enabled(states[i], run[i]) && After(states[i], run[i]) == states[i+1];
  }
}

/** The benchmark's own requests, as its abort watch counts them (`OwnLoad`). */
module OwnTraffic {
  import opened Wrappers

  datatype Load = Load(inflight: nat, graceUntil: real, abandoned: nat)

  function Started(l: Load, n: nat): Load { l.(inflight := n) }

  function Finished(l: Load, now: real, poll: real, gaveUp: nat): Load {
    Load(0, now + poll * 2.0, l.abandoned + gaveUp)
  }

  /** The engine runs no more than the bench has in flight: what was abandoned is over. */
  predicate Settles(l: Load, reading: Option<real>) {
    reading.Some? && reading.value <= l.inflight as real + 0.5
  }

  function Grace(l: Load, now: real): nat {
    if l.inflight == 0 && now < l.graceUntil then 1 else 0
  }

  function Counted(l: Load, now: real, reading: Option<real>): (Load, nat) {
    var left := if Settles(l, reading) then l.(abandoned := 0) else l;
    (left, (if l.inflight > 0 then l.inflight else Grace(l, now)) + left.abandoned)
  }

  class OwnLoad {
    var inflight: nat
    var graceUntil: real
    var abandoned: nat

    ghost function State(): Load
      reads this
    {
      Load(inflight, graceUntil, abandoned)
    }

    constructor (now: real)
      ensures State() == Load(0, now, 0)
    {
      inflight, graceUntil, abandoned := 0, now, 0;
    }

    method Start(n: nat)
      modifies this
      ensures State() == Started(old(State()), n)
    {
      inflight := n;
    }

    method Finish(now: real, poll: real, gaveUp: nat)
      modifies this
      ensures State() == Finished(old(State()), now, poll, gaveUp)
    {
      inflight := 0;
      graceUntil := now + poll * 2.0;
      abandoned := abandoned + gaveUp;
    }

    method Count(now: real, reading: Option<real>) returns (own: nat)
      modifies this
      ensures (State(), own) == Counted(old(State()), now, reading)
    {
      if reading.Some? && reading.value <= inflight as real + 0.5 {
        abandoned := 0;
      }
      var live := if inflight > 0 then inflight else if now < graceUntil then 1 else 0;
      own := live + abandoned;
    }
  }

  // ------------------------------------------------------------------ against the engine

  /** What really happens: `sent` = requests sent and not yet returned; `alive` = abandoned requests the
      engine still works on; `ended` = abandoned requests that have ended there; `until` = two polls
      after the last ones returned. */
  datatype World = World(load: Load, sent: nat, alive: nat, ended: nat, until: real)

  /** One thing that happens. `reached` = how many in-flight requests the engine has begun,
      `foreign` = everybody else's. */
  datatype Event =
    | Start(n: nat)
    | Finish(now: real, poll: real, gaveUp: nat)
    | EngineEnds(k: nat)
    | Count(now: real, reached: nat, foreign: nat, scraped: bool)

  predicate Possible(w: World, e: Event) {
    match e
    case Start(_) => w.sent == 0
    case Finish(_, _, gaveUp) => gaveUp <= w.sent
    case EngineEnds(k) => k <= w.alive
    case Count(_, reached, _, _) => reached <= w.sent
  }

  /** The engine's own total, when it could be asked. */
  function Reading(w: World, reached: nat, foreign: nat, scraped: bool): Option<real> {
    if scraped then Some((reached + w.alive + foreign) as real) else None
  }

  function Next(w: World, e: Event): World
    requires Possible(w, e)
  {
    match e
    case Start(n) => w.(load := Started(w.load, n), sent := n)
    case Finish(now, poll, gaveUp) =>
      w.(load := Finished(w.load, now, poll, gaveUp), sent := 0, alive := w.alive + gaveUp, until := now + 2.0 * poll)
    case EngineEnds(k) => w.(alive := w.alive - k, ended := w.ended + k)
    case Count(now, reached, foreign, scraped) =>
      var l := Counted(w.load, now, Reading(w, reached, foreign, scraped)).0;
      w.(load := l, ended := if l.abandoned < w.load.abandoned then 0 else w.ended)
  }

  function Answer(w: World, e: Event): nat
    requires e.Count?
  {
    Counted(w.load, e.now, Reading(w, e.reached, e.foreign, e.scraped)).1
  }

  /** Nothing still running there has been written off, and what is in flight is what was sent. */
  ghost predicate Covers(w: World) {
    w.load.abandoned == w.alive + w.ended && w.load.inflight == w.sent && w.load.graceUntil == w.until
  }

  ghost predicate Behaves(states: seq<World>, run: seq<Event>) {
    && |states| == |run| + 1
    && states[0].alive == states[0].ended == states[0].sent == 0
    && states[0].load == Load(0, states[0].until, 0)
    && forall i :: 0 <= i < |run| ==> Possible(states[i], run[i]) && Next(states[i], run[i]) == states[i+1]
  }

  /** Whenever the engine was asked, it had begun everything in flight. */
  ghost predicate AllReached(states: seq<World>, run: seq<Event>)
    requires |states| == |run| + 1
  {
    forall i :: 0 <= i < |run| && run[i].Count? && run[i].scraped ==> run[i].reached == states[i].sent
  }

  lemma {:induction false} CoversAlways(states: seq<World>, run: seq<Event>, i: nat)
    requires Behaves(states, run) && AllReached(states, run) && i < |states|
    ensures Covers(states[i])
  {
    if i > 0 {
      CoversAlways(states, run, i - 1);
      assert Possible(states[i-1], run[i-1]) && Next(states[i-1], run[i-1]) == states[i];
      if run[i-1].Count? {
        SettlingIsRight(states[i-1], run[i-1]);
      }
    }
  }

  /** A reading that settles the abandoned requests proves that they are over. */
  lemma SettlingIsRight(w: World, e: Event)
    requires e.Count? && Possible(w, e) && (e.scraped ==> e.reached == w.sent) && Covers(w)
    ensures Settles(w.load, Reading(w, e.reached, e.foreign, e.scraped)) ==> w.alive == 0 && e.foreign == 0
    ensures Covers(Next(w, e))
  {
    if Settles(w.load, Reading(w, e.reached, e.foreign, e.scraped)) {
      assert (e.reached + w.alive + e.foreign) as real <= e.reached as real + 0.5;
      assert (w.alive + e.foreign) as real <= 0.5;
    }
  }

  /** THE COUNT IS NEVER BELOW WHAT REALLY RUNS THERE - the bench cannot take its own requests for a
      stranger's - and above it by no more than the abandoned requests that have ended since, plus
      one request of grace for two polls after the last ones returned. A look at an engine that runs
      nothing but what is in flight ends that. */
  lemma OwnLoadIsBounded(states: seq<World>, run: seq<Event>, i: nat)
    requires Behaves(states, run) && AllReached(states, run) && i < |run| && run[i].Count?
    ensures
      var w := states[i];
      var own, grace := w.sent + w.alive, if w.sent == 0 && run[i].now < w.until then 1 else 0;
      && own <= Answer(w, run[i]) <= own + w.ended + grace
      && (!run[i].scraped ==> Answer(w, run[i]) == own + w.ended + grace)
      && (run[i].scraped && w.alive == 0 && run[i].foreign == 0 ==> Answer(w, run[i]) == own + grace)
  {
    CoversAlways(states, run, i);
    assert Possible(states[i], run[i]);
    SettlingIsRight(states[i], run[i]);
  }

  /** Half a request is the tolerance of a reading. */
  lemma SettlesExamples()
    ensures Counted(Load(4, 0.0, 1), 1.0, Some(4.5)) == (Load(4, 0.0, 0), 4)
    ensures Counted(Load(4, 0.0, 1), 1.0, Some(4.51)) == (Load(4, 0.0, 1), 5)
    ensures Counted(Load(4, 0.0, 1), 1.0, None) == (Load(4, 0.0, 1), 5)
  {
  }

  /** Everything counted is out there, and so many abandoned requests still run. */
  function Flying(load: Load, alive: nat): World
    requires alive <= load.abandoned
  {
    World(load, load.inflight, alive, load.abandoned - alive, load.graceUntil)
  }

  /** After one look at the engine nothing abandoned and still alive has been written off. */
  ghost predicate WritesOffNothing(load: Load, reached: nat, now: real, alive: nat, foreign: nat)
    requires reached <= load.inflight && alive <= load.abandoned
  {
    alive <= Next(Flying(load, alive), Count(now, reached, foreign, true)).load.abandoned
  }

  /** THE SETTLING STEP, EXACTLY: it writes off nothing that still runs, whatever was abandoned and
      whoever else is there, if and only if every request in flight had reached the engine. */
  lemma SafeExactlyWhenReached(load: Load, reached: nat, now: real)
    requires reached <= load.inflight && load.abandoned > 0
    ensures
      (forall alive: nat, foreign: nat :: alive <= load.abandoned ==> WritesOffNothing(load, reached, now, alive, foreign))
      <==> reached == load.inflight
  {
    if reached == load.inflight {
      forall alive: nat, foreign: nat | alive <= load.abandoned
        ensures WritesOffNothing(load, reached, now, alive, foreign)
      {
        SettlingIsRight(Flying(load, alive), Count(now, reached, foreign, true));
      }
    } else {
      var alive: nat, foreign: nat := 1, 0;
      var w := Flying(load, alive);
      assert (reached + alive + foreign) as real <= load.inflight as real + 0.5;
      assert Next(w, Count(now, reached, foreign, true)).load.abandoned == 0;
      assert !WritesOffNothing(load, reached, now, alive, foreign);
    }
  }
}
