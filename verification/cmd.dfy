/** One child per guard (`lss-collector/src/cmd.rs`, `run_env`): callers, spawn failures, timeouts,
    kills and reaper threads in any interleaving. */
module Subprocess {
  /** How far one call of `run_env` and its reaper have come. `Entered` = past the swap; the child
      is `Live`, then `Exited` and not yet waited for, then `Reaped`; `Cleared` = flag given back. */
  datatype Stage = Refused | Entered | SpawnFailed | Live | Exited | Reaped | Cleared

  /** `waiting` = the caller still waits for the answer. */
  datatype Call = Call(stage: Stage, waiting: bool)

  datatype CallId = CallId(n: nat)

  /** The guard's flag and every call ever made through it. */
  datatype Guard = Guard(busy: bool, calls: map<CallId, Call>)

  datatype Step =
    | Swap(c: CallId)
    | Spawn(c: CallId, ok: bool)
    | Exit(c: CallId)
    | Wait(c: CallId)
    | Clear(c: CallId)
    | Answer(c: CallId)
    | TimeOut(c: CallId)

  predicate At(g: Guard, c: CallId, stage: Stage) {
    c in g.calls && g.calls[c].stage == stage
  }

  predicate Enabled(g: Guard, s: Step) {
    match s
    case Swap(c) => c !in g.calls
    case Spawn(c, _) => At(g, c, Entered)
    case Exit(c) => At(g, c, Live)
    case Wait(c) => At(g, c, Exited)
    case Clear(c) => At(g, c, Reaped)
    case Answer(c) => At(g, c, Cleared) && g.calls[c].waiting
    // `kill_group` asks the child to die; whether and when it does is an `Exit` of its own
    case TimeOut(c) => c in g.calls && g.calls[c].waiting
  }

  function Put(g: Guard, c: CallId, stage: Stage, waiting: bool): map<CallId, Call> {
    g.calls[c := Call(stage, waiting)]
  }

  function After(g: Guard, s: Step): Guard
    requires Enabled(g, s)
  {
    match s
    case Swap(c) => Guard(true, Put(g, c, if g.busy then Refused else Entered, false))
    case Spawn(c, ok) => if ok then Guard(g.busy, Put(g, c, Live, true)) else Guard(false, Put(g, c, SpawnFailed, false))
    case Exit(c) => Guard(g.busy, Put(g, c, Exited, g.calls[c].waiting))
    case Wait(c) => Guard(g.busy, Put(g, c, Reaped, g.calls[c].waiting))
    case Clear(c) => Guard(false, Put(g, c, Cleared, g.calls[c].waiting))
    case Answer(c) => Guard(g.busy, Put(g, c, Cleared, false))
    case TimeOut(c) => Guard(g.busy, Put(g, c, g.calls[c].stage, false))
  }

  const Unused := Guard(false, map[])

  ghost predicate Behaves(states: seq<Guard>, run: seq<Step>) {
    && |states| == |run| + 1
    && states[0] == Unused
    && forall i :: 0 <= i < |run| ==> Enabled(states[i], run[i]) && After(states[i], run[i]) == states[i+1]
  }

  /** A process exists that nobody has waited for. */
  predicate Unreaped(g: Guard, c: CallId) {
    At(g, c, Live) || At(g, c, Exited)
  }

  /** The call the flag is set for. */
  predicate Holds(g: Guard, c: CallId) {
    At(g, c, Entered) || Unreaped(g, c) || At(g, c, Reaped)
  }

  ghost predicate Inv(g: Guard) {
    && (forall c, d :: Holds(g, c) && Holds(g, d) ==> c == d)
    && (g.busy <==> exists c :: Holds(g, c))
    && (forall c :: c in g.calls && g.calls[c].waiting ==> g.calls[c].stage in {Live, Exited, Reaped, Cleared})
  }

  lemma OthersStay(g: Guard, s: Step, d: CallId)
    requires Enabled(g, s) && d != s.c
    ensures Holds(After(g, s), d) <==> Holds(g, d)
  {
  }

  /** Only the swap of a free guard makes a holder, only a failed spawn and the clear unmake one. */
  lemma OwnHold(g: Guard, s: Step)
    requires Enabled(g, s)
    ensures s.Swap? ==> !Holds(g, s.c) && (Holds(After(g, s), s.c) <==> !g.busy)
    ensures (s.Spawn? && !s.ok) || s.Clear? ==> Holds(g, s.c) && !Holds(After(g, s), s.c)
    ensures !s.Swap? && !(s.Spawn? && !s.ok) && !s.Clear? ==> (Holds(After(g, s), s.c) <==> Holds(g, s.c)) && After(g, s).busy == g.busy
  {
  }

  lemma InvStep(g: Guard, s: Step)
    requires Inv(g) && Enabled(g, s)
    ensures Inv(After(g, s))
  {
    var h := After(g, s);
    OwnHold(g, s);
    forall d | d != s.c ensures Holds(h, d) <==> Holds(g, d) {
      OthersStay(g, s, d);
    }
    if s.Swap? {
      if g.busy {
        var c :| Holds(g, c);
        assert Holds(h, c);
      }
    } else if h.busy {
      var c :| Holds(g, c);
      assert Holds(h, c);
    }
  }

  lemma {:induction false} InvAlways(states: seq<Guard>, run: seq<Step>, i: nat)
    requires Behaves(states, run) && i < |states|
    ensures Inv(states[i])
  {
    if i > 0 {
      InvAlways(states, run, i - 1);
      InvStep(states[i-1], run[i-1]);
    }
  }

  /** NEVER TWO CHILDREN: in every reachable state at most one child of the guard is alive or
      unreaped, and while one is, the flag is set - so the next caller is refused. */
  lemma OneChildPerGuard(states: seq<Guard>, run: seq<Step>, i: nat, c: CallId, d: CallId)
    requires Behaves(states, run) && i < |states| && Unreaped(states[i], c)
    ensures Unreaped(states[i], d) ==> d == c
    ensures states[i].busy
    ensures forall e :: Enabled(states[i], Swap(e)) ==> At(After(states[i], Swap(e)), e, Refused)
  {
    InvAlways(states, run, i);
    assert Holds(states[i], c);
    if Unreaped(states[i], d) {
      assert Holds(states[i], d);
    }
  }

  /** The flag is up exactly while some call has it: past the swap and not yet given back. */
  lemma BusyExactlyWhileHeld(states: seq<Guard>, run: seq<Step>, i: nat)
    requires Behaves(states, run) && i < |states|
    ensures states[i].busy <==> exists c :: Holds(states[i], c)
  {
    InvAlways(states, run, i);
  }

  /** A TIMEOUT ALONE NEVER CLEARS IT: from a state in which a child is unreaped, whatever callers,
      timeouts and kills follow, the flag stays set and every caller is refused until that child has
      been waited for. */
  lemma {:induction false} StuckUntilReaped(states: seq<Guard>, run: seq<Step>, i: nat, j: nat, c: CallId)
    requires Behaves(states, run) && i <= j < |states| && Unreaped(states[i], c)
    requires forall k :: i <= k < j ==> run[k] != Wait(c)
    ensures Unreaped(states[j], c) && states[j].busy
    ensures forall k :: i <= k < j && run[k].Swap? ==> At(states[j], run[k].c, Refused)
  {
    if i < j {
      StuckUntilReaped(states, run, i, j - 1, c);
      InvAlways(states, run, j - 1);
      var g, s := states[j-1], run[j-1];
      assert Enabled(g, s) && After(g, s) == states[j];
      assert Holds(g, c);
      assert s.Swap? || At(g, s.c, Refused) ==> s.Swap? || s.TimeOut?;
    }
    OneChildPerGuard(states, run, j, c, c);
  }

  /** ... and a call that ends gives the guard back: with no call between its swap and its clear,
      the next caller gets in. */
  lemma FreeOnceCleared(states: seq<Guard>, run: seq<Step>, i: nat, e: CallId)
    requires Behaves(states, run) && i < |states| && Enabled(states[i], Swap(e))
    ensures At(After(states[i], Swap(e)), e, Entered) <==> forall c :: !Holds(states[i], c)
  {
    InvAlways(states, run, i);
  }

  /** Somebody waits for this call: its child was started, and since then it was neither answered nor
      given up. */
  predicate Awaited(run: seq<Step>, i: nat, c: CallId)
    requires i <= |run|
  {
    i > 0 &&
    match run[i-1]
    case Spawn(d, ok) => if d == c then ok else Awaited(run, i - 1, c)
    case Answer(d) => d != c && Awaited(run, i - 1, c)
    case TimeOut(d) => d != c && Awaited(run, i - 1, c)
    case _ => Awaited(run, i - 1, c)
  }

  /** EVERY CALLER COMES BACK ONCE: a call has a waiting caller exactly from the start of its child
      until its answer or its timeout, so neither can happen to it a second time. */
  lemma {:induction false} WaitsUntilToldOrTired(states: seq<Guard>, run: seq<Step>, i: nat, c: CallId)
    requires Behaves(states, run) && i < |states|
    ensures c in states[i].calls && states[i].calls[c].waiting <==> Awaited(run, i, c)
    ensures Enabled(states[i], TimeOut(c)) <==> Awaited(run, i, c)
    ensures Enabled(states[i], Answer(c)) <==> Awaited(run, i, c) && At(states[i], c, Cleared)
  {
    if i > 0 {
      WaitsUntilToldOrTired(states, run, i - 1, c);
      InvAlways(states, run, i - 1);
      assert Enabled(states[i-1], run[i-1]) && After(states[i-1], run[i-1]) == states[i];
    }
  }
}
