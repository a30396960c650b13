/** The lock-order rule of `lss-collector/src/main.rs` and every place that takes a lock: no number
    of the collector's threads can ever wait for each other in a circle. */
module Locks {
  /** The long-lived mutexes, in the declared order. */
  datatype Lock = Db | Shared | Tailscale

  function Rank(l: Lock): nat {
    match l
    case Db => 0
    case Shared => 1
    case Tailscale => 2
  }

  datatype Op = Acquire(l: Lock) | Release(l: Lock)

  /** A scoped guard: taken, what is locked while it lives, dropped. */
  datatype Guard = Guard(l: Lock, inside: seq<Guard>)

  function Ops(gs: seq<Guard>): seq<Op> {
    if gs == [] then [] else [Acquire(gs[0].l)] + Ops(gs[0].inside) + [Release(gs[0].l)] + Ops(gs[1..])
  }

  predicate Later(l: Lock, held: set<Lock>) {
    forall h :: h in held ==> Rank(h) < Rank(l)
  }

  /** The declared order: the database, then the shared state, then the tailscale names - each only
      under those before it, and none under itself. */
  lemma DeclaredOrder(l: Lock, h: Lock)
    ensures Later(l, {h}) <==> (h == Db && l != Db) || (h == Shared && l == Tailscale)
  {
    assert h in {h};
  }

  /** The declared rule: a lock is taken only while everything held comes earlier in the order. */
  predicate InOrder(gs: seq<Guard>, held: set<Lock>) {
    gs == [] || (Later(gs[0].l, held) && InOrder(gs[0].inside, held + {gs[0].l}) && InOrder(gs[1..], held))
  }

  /** The same, of a flat program: never out of order, never taken twice, all given back. */
  predicate Disciplined(ops: seq<Op>, held: set<Lock>) {
    if ops == [] then held == {}
    else
      match ops[0]
      case Acquire(l) => Later(l, held) && Disciplined(ops[1..], held + {l})
      case Release(l) => l in held && Disciplined(ops[1..], held - {l})
  }

  lemma {:induction false} AfterAcquire(l: Lock, ops: seq<Op>, held: set<Lock>)
    ensures Disciplined([Acquire(l)] + ops, held) <==> Later(l, held) && Disciplined(ops, held + {l})
  {
    assert ([Acquire(l)] + ops)[1..] == ops;
  }

  lemma {:induction false} AfterRelease(l: Lock, ops: seq<Op>, held: set<Lock>)
    requires l !in held
    ensures Disciplined([Release(l)] + ops, held + {l}) <==> Disciplined(ops, held)
  {
    assert ([Release(l)] + ops)[1..] == ops;
    assert held + {l} - {l} == held;
  }

  /** The rule on scopes and the rule on single operations are the same rule. */
  lemma {:induction false} OrderIsDiscipline(gs: seq<Guard>, rest: seq<Op>, held: set<Lock>)
    ensures Disciplined(Ops(gs) + rest, held) <==> InOrder(gs, held) && Disciplined(rest, held)
    decreases gs
  {
    if gs == [] {
      assert Ops(gs) + rest == rest;
    } else {
      var l := gs[0].l;
      var after := Ops(gs[1..]) + rest;
      var inside := Ops(gs[0].inside) + ([Release(l)] + after);
      assert Ops(gs) + rest == [Acquire(l)] + inside;
      AfterAcquire(l, inside, held);
      if Later(l, held) {
        OrderIsDiscipline(gs[0].inside, [Release(l)] + after, held + {l});
        AfterRelease(l, after, held);
        OrderIsDiscipline(gs[1..], rest, held);
      }
    }
  }

  // ------------------------------------------------------------------ threads

  datatype Thread = Thread(ops: seq<Op>, held: set<Lock>)

  type System = seq<Thread>

  predicate Free(st: System, l: Lock) {
    forall i :: 0 <= i < |st| ==> l !in st[i].held
  }

  /** A mutex is not reentrant: a thread that already holds it waits for itself. */
  predicate CanStep(st: System, i: int) {
    0 <= i < |st| && st[i].ops != [] && (st[i].ops[0].Acquire? ==> Free(st, st[i].ops[0].l))
  }

  function Moved(t: Thread): Thread
    requires t.ops != []
  {
    match t.ops[0]
    case Acquire(l) => Thread(t.ops[1..], t.held + {l})
    case Release(l) => Thread(t.ops[1..], t.held - {l})
  }

  function Stepped(st: System, i: nat): System
    requires i < |st| && st[i].ops != []
  {
    st[i := Moved(st[i])]
  }

  predicate Finished(st: System) {
    forall i :: 0 <= i < |st| ==> st[i].ops == []
  }

  ghost predicate Sound(st: System) {
    && (forall i :: 0 <= i < |st| ==> Disciplined(st[i].ops, st[i].held))
    && (forall i, j :: 0 <= i < j < |st| ==> st[i].held !! st[j].held)
  }

  lemma StepKeepsSound(st: System, i: nat)
    requires Sound(st) && CanStep(st, i)
    ensures Sound(Stepped(st, i))
  {
  }

  /** From a thread that waits to one that holds what it waits for: the lock waited for only ever
      gets later in the order. */
  lemma {:induction false} FollowTheWait(st: System, i: nat) returns (k: nat)
    requires Sound(st) && i < |st| && st[i].ops != []
    ensures CanStep(st, k)
    decreases if st[i].ops[0].Acquire? then 3 - Rank(st[i].ops[0].l) else 0
  {
    if CanStep(st, i) {
      k := i;
    } else {
      var l := st[i].ops[0].l;
      var j :| 0 <= j < |st| && l in st[j].held;
      assert Disciplined(st[j].ops, st[j].held);
      k := FollowTheWait(st, j);
    }
  }

  /** NO DEADLOCK: while anything is left to do, some thread can go on. */
  lemma SomeoneCanGoOn(st: System)
    requires Sound(st) && !Finished(st)
    ensures exists k: nat :: CanStep(st, k)
  {
    var i :| 0 <= i < |st| && st[i].ops != [];
    var k := FollowTheWait(st, i);
  }

  // ------------------------------------------------------------------ schedules

  /** A legal schedule: which thread moves, step by step, and the states in between. */
  ghost predicate Schedule(states: seq<System>, who: seq<nat>) {
    && |states| == |who| + 1
    && forall i :: 0 <= i < |who| ==> CanStep(states[i], who[i]) && states[i+1] == Stepped(states[i], who[i])
  }

  function Work(st: System): nat {
    if st == [] then 0 else Work(st[..|st|-1]) + |st[|st|-1].ops|
  }

  lemma {:induction false} WorkLess(st: System, i: nat)
    requires i < |st| && st[i].ops != []
    ensures Work(Stepped(st, i)) == Work(st) - 1
  {
    var init := st[..|st|-1];
    if i == |st| - 1 {
      assert Stepped(st, i)[..|st|-1] == init;
    } else {
      WorkLess(init, i);
      assert Stepped(st, i)[..|st|-1] == Stepped(init, i);
    }
  }

  lemma {:induction false} NoWorkLeft(st: System)
    ensures Work(st) == 0 <==> Finished(st)
  {
    if st != [] {
      var init := st[..|st|-1];
      NoWorkLeft(init);
      if Finished(init) && st[|st|-1].ops == [] {
        forall i | 0 <= i < |st| ensures st[i].ops == [] {
          assert i < |init| ==> init[i].ops == [];
        }
      }
      if Finished(st) {
        forall i | 0 <= i < |init| ensures init[i].ops == [] {
          assert init[i] == st[i];
        }
      }
    }
  }

  lemma {:induction false} AlongTheSchedule(states: seq<System>, who: seq<nat>, i: nat)
    requires Schedule(states, who) && Sound(states[0]) && i < |states|
    ensures Sound(states[i]) && Work(states[i]) == Work(states[0]) - i
  {
    if i > 0 {
      AlongTheSchedule(states, who, i - 1);
      StepKeepsSound(states[i-1], who[i-1]);
      WorkLess(states[i-1], who[i-1]);
    }
  }

  /** EVERY SCHEDULE FINISHES: whichever thread moves, after exactly as many steps as there is work
      all are done - no earlier, never stuck before. */
  lemma EveryScheduleFinishes(states: seq<System>, who: seq<nat>)
    requires Schedule(states, who) && Sound(states[0])
    ensures |who| <= Work(states[0])
    ensures Finished(states[|who|]) <==> |who| == Work(states[0])
    ensures |who| < Work(states[0]) ==> exists k: nat :: CanStep(states[|who|], k)
  {
    AlongTheSchedule(states, who, |who|);
    NoWorkLeft(states[|who|]);
    if |who| < Work(states[0]) {
      SomeoneCanGoOn(states[|who|]);
    }
  }

  // ------------------------------------------------------------------ the collector's threads

  function Alone(l: Lock): Guard { Guard(l, []) }

  function Times(n: nat, g: Guard): seq<Guard> {
    if n == 0 then [] else [g] + Times(n - 1, g)
  }

  /** What a thread of the collector does between two waits. */
  datatype Activity =
    | StartUp                       // close what the last run left open, read the last bench, publish
    | PollCycle(readings: nat)      // `readings` = probe results that move the baseline
    | TailscaleNames
    | XidBackfill
    | MarkDelivered
    | Probe(sent: bool)
    | HttpAnswer
    | BenchRefused(serveDown: bool)
    | BenchUnrecorded
    | BenchStarted
    | BenchStep(looks: nat)         // the safety poll of one step
    | BenchFinished

  function Guards(a: Activity): seq<Guard> {
    match a
    case StartUp => [Alone(Db), Alone(Db), Alone(Shared)]
    case PollCycle(n) =>
      [Alone(Shared), Alone(Shared), Guard(Db, Times(n, Alone(Shared)) + [Alone(Tailscale)]), Alone(Shared), Alone(Db), Alone(Shared)]
    case TailscaleNames => [Alone(Tailscale)]
    case XidBackfill => [Alone(Db)]
    case MarkDelivered => [Alone(Db)]
    case Probe(sent) => if sent then [Alone(Shared), Alone(Shared)] else [Alone(Shared)]
    case HttpAnswer => [Alone(Shared)]
    case BenchRefused(down) => if down then [Alone(Shared), Alone(Shared)] else [Alone(Shared)]
    case BenchUnrecorded => [Alone(Shared), Alone(Db)]
    case BenchStarted => [Alone(Shared), Alone(Db), Alone(Shared)]
    case BenchStep(n) => [Alone(Shared)] + Times(n, Alone(Shared))
    case BenchFinished => [Alone(Db), Alone(Shared)]
  }

  function Program(todo: seq<Activity>): seq<Guard> {
    if todo == [] then [] else Guards(todo[0]) + Program(todo[1..])
  }

  lemma {:induction false} InOrderConcat(a: seq<Guard>, b: seq<Guard>, held: set<Lock>)
    requires InOrder(a, held) && InOrder(b, held)
    ensures InOrder(a + b, held)
  {
    if a == [] {
      assert a + b == b;
    } else {
      InOrderConcat(a[1..], b, held);
      assert (a + b)[1..] == a[1..] + b;
    }
  }

  lemma {:induction false} TimesInOrder(n: nat, l: Lock, held: set<Lock>)
    requires Later(l, held)
    ensures InOrder(Times(n, Alone(l)), held)
  {
    if n > 0 {
      TimesInOrder(n - 1, l, held);
      assert Times(n, Alone(l))[1..] == Times(n - 1, Alone(l));
    }
  }

  lemma {:induction false} AloneInOrder(l: Lock, rest: seq<Guard>)
    requires InOrder(rest, {})
    ensures InOrder([Alone(l)] + rest, {})
  {
    assert ([Alone(l)] + rest)[1..] == rest;
  }

  lemma PollCycleInOrder(n: nat)
    ensures InOrder(Guards(PollCycle(n)), {})
  {
    var inside := Times(n, Alone(Shared)) + [Alone(Tailscale)];
    assert {} + {Db} == {Db};
    TimesInOrder(n, Shared, {Db});
    TimesInOrder(1, Tailscale, {Db});
    assert Times(1, Alone(Tailscale)) == [Alone(Tailscale)];
    InOrderConcat(Times(n, Alone(Shared)), [Alone(Tailscale)], {Db});
    AloneInOrder(Shared, []);
    AloneInOrder(Db, [Alone(Shared)]);
    AloneInOrder(Shared, [Alone(Db), Alone(Shared)]);
    var tail := [Alone(Shared), Alone(Db), Alone(Shared)];
    assert [Alone(Shared)] + [Alone(Db), Alone(Shared)] == tail && [Alone(Db)] + [Alone(Shared)] == [Alone(Db), Alone(Shared)];
    assert InOrder([Guard(Db, inside)] + tail, {}) by {
      assert ([Guard(Db, inside)] + tail)[1..] == tail;
    }
    AloneInOrder(Shared, [Guard(Db, inside)] + tail);
    AloneInOrder(Shared, [Alone(Shared)] + ([Guard(Db, inside)] + tail));
    assert Guards(PollCycle(n)) == [Alone(Shared)] + ([Alone(Shared)] + ([Guard(Db, inside)] + tail));
  }

  /** Every activity keeps the declared order. */
  lemma ActivityInOrder(a: Activity)
    ensures InOrder(Guards(a), {})
  {
    match a
    case PollCycle(n) => PollCycleInOrder(n);
    case BenchStep(n) =>
      TimesInOrder(n, Shared, {});
      AloneInOrder(Shared, Times(n, Alone(Shared)));
    case _ =>
      FlatInOrder(Guards(a));
  }

  lemma {:induction false} FlatInOrder(gs: seq<Guard>)
    requires forall g :: g in gs ==> g.inside == []
    ensures InOrder(gs, {})
  {
    if gs != [] {
      FlatInOrder(gs[1..]);
      assert gs[0] in gs;
    }
  }

  lemma {:induction false} ProgramInOrder(todo: seq<Activity>)
    ensures InOrder(Program(todo), {})
  {
    if todo != [] {
      ActivityInOrder(todo[0]);
      ProgramInOrder(todo[1..]);
      InOrderConcat(Guards(todo[0]), Program(todo[1..]), {});
    }
  }

  /** Any number of threads, each with any list of things to do, none begun. */
  ghost predicate Collector(st: System) {
    forall i :: 0 <= i < |st| ==> st[i].held == {} && exists todo :: st[i].ops == Ops(Program(todo))
  }

  /** THE COLLECTOR NEVER DEADLOCKS: whatever its threads have to do, however they are scheduled,
      some thread can always go on until all of it is done. */
  lemma CollectorNeverDeadlocks(states: seq<System>, who: seq<nat>)
    requires Schedule(states, who) && Collector(states[0])
    ensures Finished(states[|who|]) || exists k: nat :: CanStep(states[|who|], k)
    ensures Finished(states[|who|]) <==> |who| == Work(states[0])
  {
    var st := states[0];
    forall i | 0 <= i < |st| ensures Disciplined(st[i].ops, st[i].held) {
      var todo :| st[i].ops == Ops(Program(todo));
      ProgramInOrder(todo);
      OrderIsDiscipline(Program(todo), [], {});
      assert Ops(Program(todo)) + [] == Ops(Program(todo));
    }
    EveryScheduleFinishes(states, who);
  }

  // ------------------------------------------------------------------ why the order is needed

  /** Two threads that nest the same two locks in opposite orders can stop each other for ever -
      and with `a == b`, one thread that takes a lock inside itself stops alone. */
  lemma OppositeOrdersDeadlock(a: Lock, b: Lock)
    ensures
      var one, other := Thread(Ops([Guard(a, [Alone(b)])]), {}), Thread(Ops([Guard(b, [Alone(a)])]), {});
      exists states, who :: Schedule(states, who) && states[0] == [one, other]
        && !Finished(states[|who|]) && forall k: nat :: !CanStep(states[|who|], k)
  {
    var one, other := Thread(Ops([Guard(a, [Alone(b)])]), {}), Thread(Ops([Guard(b, [Alone(a)])]), {});
    NestedOps(a, b);
    NestedOps(b, a);
    var s0 := [one, other];
    var s1 := Stepped(s0, 0);
    if a == b {
      assert s1[0].ops[0] == Acquire(a) && a in s1[0].held;
      assert forall k: nat :: !CanStep(s1, k);
      assert Schedule([s0, s1], [0]);
      assert [s0, s1][|[0]|] == s1;
    } else {
      var s2 := Stepped(s1, 1);
      assert s2[0].ops[0] == Acquire(b) && s2[1].ops[0] == Acquire(a);
      assert b in s2[1].held && a in s2[0].held;
      assert forall k: nat :: !CanStep(s2, k);
      assert Schedule([s0, s1, s2], [0, 1]);
      assert [s0, s1, s2][|[0, 1]|] == s2;
    }
  }

  lemma NestedOps(a: Lock, b: Lock)
    ensures Ops([Guard(a, [Alone(b)])]) == [Acquire(a), Acquire(b), Release(b), Release(a)]
  {
    assert Ops([Alone(b)]) == [Acquire(b), Release(b)] by {
      assert [Alone(b)][1..] == [];
    }
    assert [Guard(a, [Alone(b)])][1..] == [];
  }
}
