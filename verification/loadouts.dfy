/** Which configuration is being served, and what was measured of each
    (`lss-collector/src/loadouts.rs`). An accumulator stands for the sequence of everything it was
    told, in order; its figures are formulas over that sequence. */
module LoadoutRuns {
  import opened Wrappers

  const SAVE_EVERY_SECS := 60

  datatype Id = Id(hash: string)

  /** The container run and the model that answered: what a look at the machine can tell apart. */
  datatype Seen = Seen(container: string, startedAt: int, model: string)

  /** One poll; `seen` is `None` while nothing is up and answering with a model. */
  datatype Sample = Sample(ts: int, up: bool, seen: Option<Seen>)

  datatype Entry = Observed(prev: Option<Sample>, cur: Sample) | Run(startedAt: int) | ColdStart(secs: int)

  type Acc = seq<Entry>

  datatype Stored = Stored(acc: Acc, firstSeen: int)
  datatype Current = Current(id: Id, acc: Acc, firstSeen: int, seen: Seen)
  datatype Card = Card(id: Id, acc: Acc)

  /** The tables: one row per loadout, and every raw sample. */
  datatype Shelf = Shelf(table: map<Id, Stored>, raw: seq<Sample>)

  datatype State = State(current: Option<Current>, past: seq<Card>, savedAt: int, prev: Option<Sample>, lastDown: Option<int>)

  /** `recent_loadouts`: some of the stored loadouts, each once - which ones, and in which order, is
      the answer of a query. */
  ghost predicate Recent(ids: seq<Id>, table: map<Id, Stored>) {
    && (forall i, j :: 0 <= i < j < |ids| ==> ids[i] != ids[j])
    && (forall i :: 0 <= i < |ids| ==> ids[i] in table)
  }

  function Cards(ids: seq<Id>, table: map<Id, Stored>): seq<Card>
    requires forall i :: 0 <= i < |ids| ==> ids[i] in table
  {
    seq(|ids|, i requires 0 <= i < |ids| => Card(ids[i], table[ids[i]].acc))
  }

  const Nothing := State(None, [], 0, None, None)

  /** A collector that starts up. */
  function Loaded(table: map<Id, Stored>, recent: seq<Id>): State
    requires forall i :: 0 <= i < |recent| ==> recent[i] in table
  {
    Nothing.(past := Cards(recent, table))
  }

  // ------------------------------------------------------------------ one poll

  /** The stored samples of `[from, now)`, each with the one before it. */
  function Backfilled(raw: seq<Sample>, from: int, now: int): (acc: Acc)
    ensures forall e :: e in acc ==> e.Observed? && e.cur in raw && from <= e.cur.ts < now
  {
    if raw == [] then []
    else
      var rest := Backfilled(raw[..|raw|-1], from, now);
      var s := raw[|raw|-1];
      if from <= s.ts < now
      then rest + [Observed(if rest == [] then None else Some(rest[|rest|-1].cur), s)]
      else rest
  }

  function Changed(st: State, s: Sample): bool {
    s.seen.Some? && (st.current.None? || st.current.value.seen != s.seen.value)
  }

  /** What a new run is told first: that it began, and how long the start took - when the serve was
      watched being down since. */
  function Began(startedAt: int, lastDown: Option<int>, now: int): Acc {
    [Run(startedAt)] + if lastDown.Some? && lastDown.value >= startedAt && now - lastDown.value <= 60 then [ColdStart(now - startedAt)] else []
  }

  function Put(table: map<Id, Stored>, id: Id, acc: Acc, firstSeen: int): map<Id, Stored> {
    table[id := Stored(acc, if id in table then table[id].firstSeen else firstSeen)]
  }

  /** What the tables hold about a loadout that now comes up. */
  function OnRecord(shelf: Shelf, id: Id, startedAt: int, now: int): Stored {
    if id in shelf.table then shelf.table[id]
    else
      var acc := Backfilled(shelf.raw, startedAt, now);
      Stored(acc, if acc != [] && startedAt > 0 then (if startedAt <= now then startedAt else now) else now)
  }

  function SavedCurrent(st: State, table: map<Id, Stored>): map<Id, Stored> {
    if st.current.Some? then Put(table, st.current.value.id, st.current.value.acc, st.current.value.firstSeen) else table
  }

  /** The table after a switch. */
  function SwitchedTable(st: State, shelf: Shelf, id: Id, seen: Seen, now: int): map<Id, Stored> {
    if st.current.Some? && st.current.value.id == id then shelf.table
    else
      var table := SavedCurrent(st, shelf.table);
      var found := OnRecord(Shelf(table, shelf.raw), id, seen.startedAt, now);
      Put(table, id, found.acc + Began(seen.startedAt, st.lastDown, now), found.firstSeen)
  }

  function Switched(st: State, shelf: Shelf, id: Id, seen: Seen, now: int, recent: seq<Id>): State
    requires forall i :: 0 <= i < |recent| ==> recent[i] in SwitchedTable(st, shelf, id, seen, now)
  {
    var began := Began(seen.startedAt, st.lastDown, now);
    if st.current.Some? && st.current.value.id == id then
      st.(current := Some(st.current.value.(acc := st.current.value.acc + began, seen := seen)), prev := None)
    else
      var table := SwitchedTable(st, shelf, id, seen, now);
      var found := OnRecord(Shelf(SavedCurrent(st, shelf.table), shelf.raw), id, seen.startedAt, now);
      st.(current := Some(Current(id, found.acc + began, found.firstSeen, seen)), savedAt := now, prev := None, past := Cards(recent, table))
  }

  /** One poll after its switch, if any: observed by whatever is current, saved once a minute. */
  function Observing(st: State, table: map<Id, Stored>, s: Sample): (State, map<Id, Stored>) {
    if st.current.None? then (st.(prev := Some(s)), table)
    else
      var c := st.current.value.(acc := st.current.value.acc + [Observed(st.prev, s)]);
      if s.ts - st.savedAt >= SAVE_EVERY_SECS
      then (st.(current := Some(c), savedAt := s.ts, prev := Some(s)), Put(table, c.id, c.acc, c.firstSeen))
      else (st.(current := Some(c), prev := Some(s)), table)
  }

  /** Something happened: a poll - `ident` is what the machine said of itself when asked, `recent`
      what the query returned if there was a switch -, or the collector died and started again. */
  datatype Event = Polled(s: Sample, ident: Option<Id>, recent: seq<Id>) | Died(recent: seq<Id>)

  datatype World = World(st: State, shelf: Shelf)

  /** After the raw sample is stored and the serve's silence noted. */
  function Noted(w: World, s: Sample): World {
    World(if s.up then w.st else w.st.(lastDown := Some(s.ts)), w.shelf.(raw := w.shelf.raw + [s]))
  }

  predicate Switches(w: World, e: Event) {
    e.Polled? && Changed(w.st, e.s) && e.ident.Some?
  }

  ghost predicate Possible(w: World, e: Event) {
    match e
    case Died(recent) => Recent(recent, w.shelf.table)
    case Polled(s, ident, recent) =>
      && (forall x :: x in w.shelf.raw ==> x.ts < s.ts) && w.st.savedAt <= s.ts
      && (Switches(w, e) ==> Recent(recent, SwitchedTable(Noted(w, s).st, Noted(w, s).shelf, ident.value, s.seen.value, s.ts)))
  }

  function AfterSwitch(w: World, e: Event): World
    requires e.Polled?
    requires Switches(w, e) ==> forall i :: 0 <= i < |e.recent| ==>
               e.recent[i] in SwitchedTable(Noted(w, e.s).st, Noted(w, e.s).shelf, e.ident.value, e.s.seen.value, e.s.ts)
  {
    var v := Noted(w, e.s);
    if Switches(w, e) then
      World(Switched(v.st, v.shelf, e.ident.value, e.s.seen.value, e.s.ts, e.recent),
            v.shelf.(table := SwitchedTable(v.st, v.shelf, e.ident.value, e.s.seen.value, e.s.ts)))
    else v
  }

  ghost function Next(w: World, e: Event): World
    requires Possible(w, e)
  {
    match e
    case Died(recent) => World(Loaded(w.shelf.table, recent), w.shelf)
    case Polled(s, _, _) =>
      var v := AfterSwitch(w, e);
      var (st, table) := Observing(v.st, v.shelf.table, s);
      World(st, v.shelf.(table := table))
  }

  // ------------------------------------------------------------------ the object

  class Loadouts {
    var current: Option<Current>
    var past: seq<Card>
    var savedAt: int
    var prev: Option<Sample>
    var lastDown: Option<int>

    ghost function View(): State
      reads this
    {
      State(current, past, savedAt, prev, lastDown)
    }

    /** `load`. */
    constructor (table: map<Id, Stored>, recent: seq<Id>)
      requires Recent(recent, table)
      ensures View() == Loaded(table, recent)
    {
      current, past, savedAt, prev, lastDown := None, Cards(recent, table), 0, None, None;
    }

    /** One poll; the raw sample is stored by the caller just before. */
    method OnSample(db: LoadoutDb, s: Sample, ident: Option<Id>, recent: seq<Id>, ghost w: World)
      requires w == World(View(), Shelf(db.table, db.raw))
      requires Possible(w, Polled(s, ident, recent))
      modifies this, db
      ensures World(View(), Shelf(db.table, db.raw)) == Next(w, Polled(s, ident, recent))
    {
      db.raw := db.raw + [s];
      var changed := s.seen.Some? && (current.None? || current.value.seen != s.seen.value);
      if !s.up {
        lastDown := Some(s.ts);
      }
      if changed && ident.Some? {
        SwitchTo(db, ident.value, s.seen.value, s.ts, recent);
      }
      if current.Some? {
        current := Some(current.value.(acc := current.value.acc + [Observed(prev, s)]));
        if s.ts - savedAt >= SAVE_EVERY_SECS {
          savedAt := s.ts;
          db.SaveLoadout(current.value.id, current.value.acc, current.value.firstSeen);
        }
      }
      prev := Some(s);
    }

    method SwitchTo(db: LoadoutDb, id: Id, seen: Seen, now: int, recent: seq<Id>)
      requires Recent(recent, SwitchedTable(View(), Shelf(db.table, db.raw), id, seen, now))
      modifies this, db`table
      ensures View() == Switched(old(View()), Shelf(old(db.table), db.raw), id, seen, now, recent)
      ensures db.table == SwitchedTable(old(View()), Shelf(old(db.table), db.raw), id, seen, now)
    {
      var cold := lastDown.Some? && lastDown.value >= seen.startedAt && now - lastDown.value <= 60;
      var began := [Run(seen.startedAt)] + if cold then [ColdStart(now - seen.startedAt)] else [];
      if current.Some? && current.value.id == id {
        current := Some(current.value.(acc := current.value.acc + began, seen := seen));
        prev := None;
        return;
      }
      if current.Some? {
        db.SaveLoadout(current.value.id, current.value.acc, current.value.firstSeen);
      }
      var found := OnRecord(Shelf(db.table, db.raw), id, seen.startedAt, now);
      db.SaveLoadout(id, found.acc + began, found.firstSeen);
      current := Some(Current(id, found.acc + began, found.firstSeen, seen));
      savedAt, prev := now, None;
      past := Cards(recent, db.table);
    }
  }

  class LoadoutDb {
    var table: map<Id, Stored>
    var raw: seq<Sample>

    /** `INSERT ... ON CONFLICT DO UPDATE`: the first-seen time of a known loadout stays. */
    method SaveLoadout(id: Id, acc: Acc, firstSeen: int)
      modifies this`table
      ensures table == Put(old(table), id, acc, firstSeen)
    ensures id in old(table) ==> table[id].firstSeen == old(table)[id].firstSeen
    {
      if id in table {
        table := table[id := Stored(acc, table[id].firstSeen)];
      } else {
        table := table[id := Stored(acc, firstSeen)];
      }
    }
  }

  // ------------------------------------------------------------------ what is measured of each

  /** Everything known of a loadout: the live accumulator of the current one, the stored one else. */
  function Measured(w: World, id: Id): Acc {
    if w.st.current.Some? && w.st.current.value.id == id then w.st.current.value.acc
    else if id in w.shelf.table then w.shelf.table[id].acc else []
  }

  ghost predicate Serving(w: World, id: Id) {
    w.st.current.Some? && w.st.current.value.id == id
  }

  /** What a switch adds to the loadout that comes up. */
  ghost function Brought(w: World, e: Event, id: Id): Acc
    requires e.Polled?
  {
    var v := Noted(w, e.s);
    if Switches(w, e) && e.ident.value == id then
      (if Serving(w, id) || id in w.shelf.table then [] else Backfilled(v.shelf.raw, e.s.seen.value.startedAt, e.s.ts))
      + Began(e.s.seen.value.startedAt, v.st.lastDown, e.s.ts)
    else []
  }

  /** What one poll adds to a loadout: the switch, if it is to this one, and the sample, if this one
      is being served now - or was last, as far as anyone could tell. */
  ghost function Added(w: World, e: Event, id: Id): Acc
    requires e.Polled?
  {
    if Switches(w, e) then (if e.ident.value == id then Brought(w, e, id) + [Observed(None, e.s)] else [])
    else if Serving(w, id) then [Observed(w.st.prev, e.s)] else []
  }

  /** Entries not yet saved: all of the last minute. */
  ghost predicate TailIsFresh(acc: Acc, saved: nat, savedAt: int) {
    forall i :: saved <= i < |acc| && acc[i].Observed? ==> savedAt <= acc[i].cur.ts < savedAt + SAVE_EVERY_SECS
  }

  ghost predicate CurrentOk(w: World, c: Current) {
    && c.id in w.shelf.table
    && w.shelf.table[c.id].acc <= c.acc
    && TailIsFresh(c.acc, |w.shelf.table[c.id].acc|, w.st.savedAt)
  }

  ghost predicate CardOk(w: World, c: Card) {
    c.id in w.shelf.table && (!Serving(w, c.id) ==> c.acc == w.shelf.table[c.id].acc)
  }

  ghost predicate PastOk(w: World) {
    && (forall i, j :: 0 <= i < j < |w.st.past| ==> w.st.past[i].id != w.st.past[j].id)
    && (forall i :: 0 <= i < |w.st.past| ==> CardOk(w, w.st.past[i]))
  }

  ghost predicate Inv(w: World) {
    && (w.st.current.Some? ==> CurrentOk(w, w.st.current.value))
    && PastOk(w)
  }

  lemma CardsAre(ids: seq<Id>, table: map<Id, Stored>)
    requires Recent(ids, table)
    ensures |Cards(ids, table)| == |ids|
    ensures forall i :: 0 <= i < |ids| ==> Cards(ids, table)[i] == Card(ids[i], table[ids[i]].acc)
  {
  }

  lemma SwitchMeasures(w: World, e: Event, id: Id)
    requires Possible(w, e) && e.Polled?
    ensures Measured(AfterSwitch(w, e), id) == Measured(w, id) + Brought(w, e, id)
  {
    var n := Noted(w, e.s);
    if Switches(w, e) && e.ident.value == id && !Serving(w, id) {
      var table := SavedCurrent(n.st, n.shelf.table);
      assert id in table <==> id in w.shelf.table;
      assert id in table ==> table[id] == w.shelf.table[id];
      var found := OnRecord(Shelf(table, n.shelf.raw), id, e.s.seen.value.startedAt, e.s.ts);
      assert Measured(AfterSwitch(w, e), id) == found.acc + Began(e.s.seen.value.startedAt, n.st.lastDown, e.s.ts);
    } else {
      assert Measured(w, id) + [] == Measured(w, id);
    }
  }

  lemma SwitchCurrent(w: World, e: Event)
    requires Inv(w) && Possible(w, e) && e.Polled?
    ensures AfterSwitch(w, e).st.current.Some? ==> CurrentOk(AfterSwitch(w, e), AfterSwitch(w, e).st.current.value)
    ensures Switches(w, e) ==> AfterSwitch(w, e).st.prev == None && Serving(AfterSwitch(w, e), e.ident.value)
    ensures !Switches(w, e) ==> AfterSwitch(w, e).st.prev == w.st.prev && AfterSwitch(w, e).st.current == w.st.current
  {
    if Switches(w, e) {
      var c := AfterSwitch(w, e).st.current.value;
      if Serving(w, e.ident.value) {
        assert w.st.current.value.acc <= c.acc;
      }
    }
  }

  lemma SwitchPast(w: World, e: Event)
    requires Inv(w) && Possible(w, e) && e.Polled?
    ensures PastOk(AfterSwitch(w, e))
  {
    var v := AfterSwitch(w, e);
    if Switches(w, e) && !Serving(w, e.ident.value) {
      var n := Noted(w, e.s);
      CardsAre(e.recent, SwitchedTable(n.st, n.shelf, e.ident.value, e.s.seen.value, e.s.ts));
    } else {
      forall i | 0 <= i < |v.st.past| ensures CardOk(v, v.st.past[i]) {
        assert CardOk(w, w.st.past[i]);
      }
    }
  }

  lemma ObservingKeeps(v: World, s: Sample)
    requires Inv(v) && (v.st.current.Some? ==> v.st.savedAt <= s.ts)
    ensures
      var (st, table) := Observing(v.st, v.shelf.table, s);
      var u := World(st, v.shelf.(table := table));
      && Inv(u)
      && forall id :: Measured(u, id) == Measured(v, id) + if Serving(v, id) then [Observed(v.st.prev, s)] else []
  {
    var (st, table) := Observing(v.st, v.shelf.table, s);
    var u := World(st, v.shelf.(table := table));
    forall i | 0 <= i < |u.st.past| ensures CardOk(u, u.st.past[i]) {
      assert CardOk(v, v.st.past[i]);
    }
    forall id ensures Measured(u, id) == Measured(v, id) + if Serving(v, id) then [Observed(v.st.prev, s)] else [] {
      assert Measured(v, id) + [] == Measured(v, id);
    }
  }

  /** EVERY POLL COUNTS FOR EXACTLY ONE LOADOUT - the one then current - and for no other; a loadout
      that comes back has everything it had. */
  lemma PollAdds(w: World, e: Event)
    requires Inv(w) && Possible(w, e) && e.Polled?
    ensures Inv(Next(w, e))
    ensures forall id :: Measured(Next(w, e), id) == Measured(w, id) + Added(w, e, id)
  {
    var v := AfterSwitch(w, e);
    SwitchCurrent(w, e);
    SwitchPast(w, e);
    ObservingKeeps(v, e.s);
    forall id ensures Measured(Next(w, e), id) == Measured(w, id) + Added(w, e, id) {
      SwitchMeasures(w, e, id);
      BroughtAndObserved(w, e, id);
    }
  }

  /** What the switch brings and then the sample: what the poll adds. */
  lemma BroughtAndObserved(w: World, e: Event, id: Id)
    requires Inv(w) && Possible(w, e) && e.Polled?
    ensures
      var v := AfterSwitch(w, e);
      Measured(w, id) + Brought(w, e, id) + (if Serving(v, id) then [Observed(v.st.prev, e.s)] else [])
      == Measured(w, id) + Added(w, e, id)
  {
    var v := AfterSwitch(w, e);
    SwitchCurrent(w, e);
    var o := [Observed(v.st.prev, e.s)];
    assert Measured(w, id) + Brought(w, e, id) + o == Measured(w, id) + (Brought(w, e, id) + o);
    assert [] + o == o && Brought(w, e, id) + [] == Brought(w, e, id);
  }

  lemma DeathKeepsInv(w: World, e: Event)
    requires Inv(w) && Possible(w, e) && e.Died?
    ensures Inv(Next(w, e))
  {
    CardsAre(e.recent, w.shelf.table);
  }

  // ------------------------------------------------------------------ over whole runs

  ghost predicate Behaves(states: seq<World>, run: seq<Event>) {
    && |states| == |run| + 1
    && states[0] == World(Nothing, Shelf(map[], []))
    && forall i :: 0 <= i < |run| ==> Possible(states[i], run[i]) && Next(states[i], run[i]) == states[i+1]
  }

  lemma {:induction false} InvAlways(states: seq<World>, run: seq<Event>, i: nat)
    requires Behaves(states, run) && i < |states|
    ensures Inv(states[i])
  {
    if i > 0 {
      InvAlways(states, run, i - 1);
      assert Possible(states[i-1], run[i-1]) && Next(states[i-1], run[i-1]) == states[i];
      match run[i-1]
      case Died(_) => DeathKeepsInv(states[i-1], run[i-1]);
      case Polled(_, _, _) => PollAdds(states[i-1], run[i-1]);
    }
  }

  // what the events alone say of a run

  /** The sample polled just before, by the same run of the collector. */
  function Preceding(run: seq<Event>, i: nat): Option<Sample>
    requires i <= |run|
  {
    if i > 0 && run[i-1].Polled? then Some(run[i-1].s) else None
  }

  /** Every sample polled. */
  function RawOf(run: seq<Event>, i: nat): seq<Sample>
    requires i <= |run|
  {
    if i == 0 then []
    else if run[i-1].Polled? then RawOf(run, i - 1) + [run[i-1].s] else RawOf(run, i - 1)
  }

  /** When this run of the collector last saw the serve down. */
  function DownOf(run: seq<Event>, i: nat): Option<int>
    requires i <= |run|
  {
    if i == 0 || run[i-1].Died? then None
    else if !run[i-1].s.up then Some(run[i-1].s.ts) else DownOf(run, i - 1)
  }

  datatype Serves = Serves(id: Id, seen: Seen)

  /** What is being served: the last thing seen that was not yet being served and said what it is. */
  function ServedAt(run: seq<Event>, i: nat): Option<Serves>
    requires i <= |run|
  {
    if i == 0 || run[i-1].Died? then None
    else if SeesOther(ServedAt(run, i - 1), run[i-1]) then Some(Serves(run[i-1].ident.value, run[i-1].s.seen.value))
    else ServedAt(run, i - 1)
  }

  predicate SeesOther(c: Option<Serves>, e: Event)
    requires e.Polled?
  {
    e.ident.Some? && e.s.seen.Some? && (c.None? || e.s.seen.value != c.value.seen)
  }

  predicate SwitchAt(run: seq<Event>, j: nat)
    requires j < |run|
  {
    run[j].Polled? && SeesOther(ServedAt(run, j), run[j])
  }

  /** It came up before. */
  ghost predicate CameUp(run: seq<Event>, i: nat, id: Id)
    requires i <= |run|
  {
    exists j :: 0 <= j < i && SwitchAt(run, j) && run[j].ident.value == id
  }

  /** What the event at `j` tells a loadout. */
  ghost function ToldBy(run: seq<Event>, j: nat, id: Id): Acc
    requires j < |run|
  {
    if run[j].Died? then []
    else
      var s := run[j].s;
      if SwitchAt(run, j) then
        if run[j].ident.value != id then []
        else
          (if CameUp(run, j, id) then [] else Backfilled(RawOf(run, j), s.seen.value.startedAt, s.ts))
          + Began(s.seen.value.startedAt, DownOf(run, j + 1), s.ts) + [Observed(None, s)]
      else if ServedAt(run, j).Some? && ServedAt(run, j).value.id == id then [Observed(Preceding(run, j), s)]
      else []
  }

  /** Everything the polls of a run told a loadout, less what each crash dropped. */
  ghost function Told(states: seq<World>, run: seq<Event>, i: nat, id: Id): Acc
    requires |states| == |run| + 1 && i < |states|
  {
    if i == 0 then []
    else
      match run[i-1]
      case Polled(_, _, _) => Told(states, run, i - 1, id) + ToldBy(run, i - 1, id)
      case Died(_) =>
        var told := Told(states, run, i - 1, id);
        told[..Least(|told|, if id in states[i-1].shelf.table then |states[i-1].shelf.table[id].acc| else 0)]
  }

  ghost predicate IsServing(st: State, c: Option<Serves>) {
    (st.current.Some? <==> c.Some?) && (st.current.Some? && c.Some? ==> st.current.value.id == c.value.id && st.current.value.seen == c.value.seen)
  }

  /** The state a run leads to, said by its events. */
  ghost predicate Reflects(w: World, run: seq<Event>, i: nat)
    requires i <= |run|
  {
    && IsServing(w.st, ServedAt(run, i))
    && w.st.prev == Preceding(run, i)
    && w.st.lastDown == DownOf(run, i)
    && w.shelf.raw == RawOf(run, i)
    && forall id :: id in w.shelf.table <==> CameUp(run, i, id)
  }

  /** What one poll leaves. */
  lemma AfterPoll(w: World, e: Event)
    requires Inv(w) && Possible(w, e) && e.Polled?
    ensures
      var v := Next(w, e);
      && v.st.prev == Some(e.s)
      && v.st.lastDown == (if e.s.up then w.st.lastDown else Some(e.s.ts))
      && v.shelf.raw == w.shelf.raw + [e.s]
      && v.shelf.table.Keys == w.shelf.table.Keys + (if Switches(w, e) then {e.ident.value} else {})
      && IsServing(v.st, if Switches(w, e) then Some(Serves(e.ident.value, e.s.seen.value))
                         else if w.st.current.Some? then Some(Serves(w.st.current.value.id, w.st.current.value.seen)) else None)
      && (v.st.current.Some? ==> e.s.ts - v.st.savedAt < 60)
  {
    SwitchCurrent(w, e);
    TableAfterSwitch(w, e);
  }

  lemma TableAfterSwitch(w: World, e: Event)
    requires Inv(w) && Possible(w, e) && e.Polled?
    ensures AfterSwitch(w, e).shelf.table.Keys == w.shelf.table.Keys + (if Switches(w, e) then {e.ident.value} else {})
    ensures Switches(w, e) ==> AfterSwitch(w, e).st.current.value.seen == e.s.seen.value
  {
  }

  lemma {:induction false} RunReflects(states: seq<World>, run: seq<Event>, i: nat)
    requires Behaves(states, run) && i < |states|
    ensures Reflects(states[i], run, i)
  {
    if i > 0 {
      RunReflects(states, run, i - 1);
      InvAlways(states, run, i - 1);
      assert Possible(states[i-1], run[i-1]) && Next(states[i-1], run[i-1]) == states[i];
      ReflectsNext(states[i-1], run, i - 1);
    }
  }

  lemma {:induction false} ReflectsNext(w: World, run: seq<Event>, i: nat)
    requires Inv(w) && i < |run| && Reflects(w, run, i) && Possible(w, run[i])
    ensures Reflects(Next(w, run[i]), run, i + 1)
  {
    var e, v := run[i], Next(w, run[i]);
    if e.Polled? {
      AfterPoll(w, e);
      assert Switches(w, e) <==> SwitchAt(run, i);
      assert IsServing(v.st, ServedAt(run, i + 1));
    }
    forall id ensures id in v.shelf.table <==> CameUp(run, i + 1, id) {
      CameUpNow(run, i, id);
      if e.Polled? {
        assert id in v.shelf.table <==> id in w.shelf.table || (SwitchAt(run, i) && e.ident.value == id) by {
          assert id in v.shelf.table <==> id in v.shelf.table.Keys;
        }
      }
    }
  }

  lemma CameUpNow(run: seq<Event>, i: nat, id: Id)
    requires i < |run|
    ensures CameUp(run, i + 1, id) <==> CameUp(run, i, id) || (SwitchAt(run, i) && run[i].ident.value == id)
  {
  }

  lemma AddedIsTold(w: World, run: seq<Event>, i: nat, id: Id)
    requires Inv(w) && i < |run| && Reflects(w, run, i) && Possible(w, run[i]) && run[i].Polled?
    ensures Added(w, run[i], id) == ToldBy(run, i, id)
  {
    var e := run[i];
    assert Switches(w, e) <==> SwitchAt(run, i);
    if Switches(w, e) && e.ident.value == id {
      assert Noted(w, e.s).st.lastDown == DownOf(run, i + 1);
      NotYetThere(RawOf(run, i), e.s, e.s.seen.value.startedAt);
      assert Serving(w, id) ==> id in w.shelf.table;
    }
  }

  /** The sample just stored is not in the stretch before it. */
  lemma {:induction false} NotYetThere(raw: seq<Sample>, s: Sample, from: int)
    ensures Backfilled(raw + [s], from, s.ts) == Backfilled(raw, from, s.ts)
  {
    assert (raw + [s])[..|raw|] == raw;
  }

  /** ACCOUNTING: over any run of switches, restarts of the same configuration, returns to an older
      one and crashes of the collector, a loadout holds exactly what was observed while it was
      current, in order, each sample with the one polled before it, less the unsaved end each crash
      dropped. */
  lemma {:induction false} LoadoutAccounting(states: seq<World>, run: seq<Event>, i: nat, id: Id)
    requires Behaves(states, run) && i < |states|
    ensures Measured(states[i], id) == Told(states, run, i, id)
  {
    if i > 0 {
      LoadoutAccounting(states, run, i - 1, id);
      InvAlways(states, run, i - 1);
      assert Possible(states[i-1], run[i-1]) && Next(states[i-1], run[i-1]) == states[i];
      match run[i-1]
      case Polled(_, _, _) =>
        PollAdds(states[i-1], run[i-1]);
        RunReflects(states, run, i - 1);
        AddedIsTold(states[i-1], run, i - 1, id);
      case Died(_) =>
        var told := Told(states, run, i - 1, id);
        if id in states[i-1].shelf.table {
          assert states[i-1].shelf.table[id].acc <= told;
        }
    }
  }

  /** A CRASH DROPS LESS THAN A MINUTE, and only of the loadout being served: what is stored is the
      beginning of what is live, and every sample beyond it was polled less than sixty seconds before
      the last poll. */
  lemma CrashDropsUnderAMinute(states: seq<World>, run: seq<Event>, i: nat, id: Id)
    requires Behaves(states, run) && i < |run| && run[i].Died?
    ensures Measured(states[i+1], id) <= Measured(states[i], id)
    ensures !Serving(states[i], id) ==> Measured(states[i+1], id) == Measured(states[i], id)
    ensures Serving(states[i], id) ==> TailIsFresh(Measured(states[i], id), |Measured(states[i+1], id)|, states[i].st.savedAt)
    ensures Serving(states[i], id) ==>
              && Preceding(run, i).Some?
              && forall k :: |Measured(states[i+1], id)| <= k < |Measured(states[i], id)| && Measured(states[i], id)[k].Observed? ==>
                   Preceding(run, i).value.ts - Measured(states[i], id)[k].cur.ts < 60
  {
    InvAlways(states, run, i);
    assert Next(states[i], run[i]) == states[i+1];
    if Serving(states[i], id) {
      RunReflects(states, run, i);
      assert run[i-1].Polled?;
      InvAlways(states, run, i - 1);
      assert Possible(states[i-1], run[i-1]) && Next(states[i-1], run[i-1]) == states[i];
      AfterPoll(states[i-1], run[i-1]);
      assert TailIsFresh(Measured(states[i], id), |Measured(states[i+1], id)|, states[i].st.savedAt);
    }
  }

  /** Since when a loadout is known: the time of its first switch - or, when samples of that container
      run were already stored, the container's own start, if it has one. */
  function SinceOf(run: seq<Event>, i: nat, id: Id): Option<int>
    requires i <= |run|
  {
    if i == 0 then None
    else
      var before := SinceOf(run, i - 1, id);
      if before.Some? || !SwitchAt(run, i - 1) || run[i-1].ident.value != id then before
      else
        Some(NewDate(RawOf(run, i - 1), run[i-1].s.seen.value.startedAt, run[i-1].s.ts))
  }

  /** The current loadout has the date that is stored of it. */
  ghost predicate OneDate(w: World) {
    w.st.current.Some? ==>
      w.st.current.value.id in w.shelf.table && w.shelf.table[w.st.current.value.id].firstSeen == w.st.current.value.firstSeen
  }

  /** What is stored as first seen, if anything is. */
  ghost predicate Dated(table: map<Id, Stored>, since: Option<int>, id: Id) {
    since == if id in table then Some(table[id].firstSeen) else None
  }

  function NewDate(raw: seq<Sample>, started: int, now: int): int {
    if started > 0 && Within(raw, started, now) != [] then Least(started, now) else now
  }

  lemma SwitchDates(w: World, e: Event, id: Id)
    requires Inv(w) && Possible(w, e) && e.Polled? && OneDate(w)
    ensures OneDate(AfterSwitch(w, e))
    ensures id in AfterSwitch(w, e).shelf.table ==>
              AfterSwitch(w, e).shelf.table[id].firstSeen ==
              if id in w.shelf.table then w.shelf.table[id].firstSeen else NewDate(w.shelf.raw, e.s.seen.value.startedAt, e.s.ts)
  {
    if Switches(w, e) {
      var n := Noted(w, e.s);
      var table := SavedCurrent(n.st, n.shelf.table);
      SavedDates(w, table, id);
      RecordDate(Shelf(table, n.shelf.raw), w.shelf.raw, e.ident.value, e.s);
    }
  }

  lemma SavedDates(w: World, table: map<Id, Stored>, id: Id)
    requires OneDate(w) && table == SavedCurrent(w.st, w.shelf.table)
    ensures table.Keys == w.shelf.table.Keys && (id in table ==> table[id].firstSeen == w.shelf.table[id].firstSeen)
  {
  }

  lemma RecordDate(shelf: Shelf, raw: seq<Sample>, id: Id, s: Sample)
    requires s.seen.Some? && shelf.raw == raw + [s]
    ensures OnRecord(shelf, id, s.seen.value.startedAt, s.ts).firstSeen ==
            if id in shelf.table then shelf.table[id].firstSeen else NewDate(raw, s.seen.value.startedAt, s.ts)
  {
    NotYetThere(raw, s, s.seen.value.startedAt);
    BackfilledPairs(raw, s.seen.value.startedAt, s.ts);
  }

  lemma PollDates(w: World, e: Event, id: Id)
    requires Inv(w) && Possible(w, e) && e.Polled? && OneDate(w)
    ensures OneDate(Next(w, e))
    ensures id in Next(w, e).shelf.table ==>
              Next(w, e).shelf.table[id].firstSeen ==
              if id in w.shelf.table then w.shelf.table[id].firstSeen else NewDate(w.shelf.raw, e.s.seen.value.startedAt, e.s.ts)
  {
    SwitchDates(w, e, id);
    SwitchCurrent(w, e);
  }

  /** A LOADOUT KEEPS ITS DATE: what is stored, and shown, as its first sight is decided once - at its
      first switch, never as 1970 - and stays. */
  lemma {:induction false} FirstSeenIsKept(states: seq<World>, run: seq<Event>, i: nat, id: Id)
    requires Behaves(states, run) && i < |states|
    ensures OneDate(states[i]) && Dated(states[i].shelf.table, SinceOf(run, i, id), id)
  {
    if i == 0 {
      assert SinceOf(run, 0, id).None?;
    } else {
      FirstSeenIsKept(states, run, i - 1, id);
      InvAlways(states, run, i - 1);
      RunReflects(states, run, i - 1);
      DateStep(states[i-1], run, i - 1, states[i], id);
    }
  }

  lemma {:induction false} DateStep(w: World, run: seq<Event>, i: nat, v: World, id: Id)
    requires i < |run| && Inv(w) && Reflects(w, run, i) && Possible(w, run[i]) && v == Next(w, run[i]) && OneDate(w)
    requires Dated(w.shelf.table, SinceOf(run, i, id), id)
    ensures OneDate(v) && Dated(v.shelf.table, SinceOf(run, i + 1, id), id)
  {
    var e := run[i];
    if e.Polled? {
      PollDates(w, e, id);
      AfterPoll(w, e);
      assert Switches(w, e) <==> SwitchAt(run, i);
      assert id in v.shelf.table <==> id in v.shelf.table.Keys;
    }
  }

  /** The remembered loadouts: what the query returned at the newest start or switch to another one. */
  function RememberedAt(run: seq<Event>, i: nat): seq<Id>
    requires i <= |run|
  {
    if i == 0 then []
    else
      match run[i-1]
      case Died(recent) => recent
      case Polled(_, _, recent) =>
        if SwitchAt(run, i - 1) && !(ServedAt(run, i - 1).Some? && ServedAt(run, i - 1).value.id == run[i-1].ident.value)
        then recent else RememberedAt(run, i - 1)
  }

  ghost predicate Remembers(w: World, run: seq<Event>, i: nat)
    requires i <= |run|
  {
    |w.st.past| == |RememberedAt(run, i)| && forall k :: 0 <= k < |w.st.past| ==> w.st.past[k].id == RememberedAt(run, i)[k]
  }

  lemma {:induction false} RunRemembers(states: seq<World>, run: seq<Event>, i: nat)
    requires Behaves(states, run) && i < |states|
    ensures Remembers(states[i], run, i)
  {
    if i > 0 {
      RunRemembers(states, run, i - 1);
      RunReflects(states, run, i - 1);
      assert Possible(states[i-1], run[i-1]) && Next(states[i-1], run[i-1]) == states[i];
      if run[i-1].Polled? {
        assert Switches(states[i-1], run[i-1]) <==> SwitchAt(run, i - 1);
      }
    }
  }

  // ------------------------------------------------------------------ when it is saved

  /** When the accumulator of the loadout being served was last written, said by the events. */
  function SaveTime(run: seq<Event>, i: nat): int
    requires i <= |run|
  {
    if i == 0 || run[i-1].Died? then 0
    else
      var before := SaveTime(run, i - 1);
      if SwitchAt(run, i - 1) && !StaysSame(run, i - 1) then run[i-1].s.ts
      else if ServedAt(run, i).Some? && run[i-1].s.ts - before >= 60 then run[i-1].s.ts else before
  }

  /** A new run of the very configuration that is being served. */
  predicate StaysSame(run: seq<Event>, j: nat)
    requires j < |run|
  {
    run[j].Polled? && run[j].ident.Some? && ServedAt(run, j).Some? && ServedAt(run, j).value.id == run[j].ident.value
  }

  lemma SavedAfter(w: World, e: Event)
    requires Possible(w, e) && e.Polled?
    ensures
      var v := Next(w, e);
      v.st.savedAt == if Switches(w, e) && !Serving(w, e.ident.value) then e.s.ts
                      else if v.st.current.Some? && e.s.ts - w.st.savedAt >= 60 then e.s.ts else w.st.savedAt
  {
  }

  lemma {:induction false} SavedWhenSaid(states: seq<World>, run: seq<Event>, i: nat)
    requires Behaves(states, run) && i < |states|
    ensures states[i].st.savedAt == SaveTime(run, i)
  {
    if i > 0 {
      SavedWhenSaid(states, run, i - 1);
      RunReflects(states, run, i - 1);
      RunReflects(states, run, i);
      assert Possible(states[i-1], run[i-1]) && Next(states[i-1], run[i-1]) == states[i];
      if run[i-1].Polled? {
        assert Switches(states[i-1], run[i-1]) <==> SwitchAt(run, i - 1);
        SavedAfter(states[i-1], run[i-1]);
      }
    }
  }

  lemma ObservingWrites(st: State, table: map<Id, Stored>, s: Sample)
    requires st.current.Some? ==> st.current.value.id in table && |table[st.current.value.id].acc| <= |st.current.value.acc|
    ensures Observing(st, table, s).1 != table <==> st.current.Some? && s.ts - st.savedAt >= 60
  {
    if st.current.Some? && s.ts - st.savedAt >= 60 {
      var c := st.current.value;
      assert |Observing(st, table, s).1[c.id].acc| == |c.acc| + 1;
    }
  }

  /** SAVED ONCE A MINUTE, exactly: besides a switch to another loadout, a poll writes the table if and
      only if something is served and a minute has passed since it was last written. */
  lemma SavedOnceAMinute(states: seq<World>, run: seq<Event>, i: nat)
    requires Behaves(states, run) && i < |run| && run[i].Polled? && (SwitchAt(run, i) ==> StaysSame(run, i))
    ensures states[i+1].shelf.table != states[i].shelf.table
            <==> ServedAt(run, i + 1).Some? && run[i].s.ts - SaveTime(run, i) >= 60
  {
    SavedWhenSaid(states, run, i);
    RunReflects(states, run, i);
    RunReflects(states, run, i + 1);
    InvAlways(states, run, i);
    var w, v := states[i], AfterSwitch(states[i], run[i]);
    assert Possible(w, run[i]) && Next(w, run[i]) == states[i+1];
    assert Switches(w, run[i]) <==> SwitchAt(run, i);
    assert v.shelf.table == w.shelf.table && v.st.savedAt == w.st.savedAt;
    assert v.st.current.Some? ==> w.st.current.Some? && w.st.current.value.acc <= v.st.current.value.acc;
    ObservingWrites(v.st, w.shelf.table, run[i].s);
  }

  // ------------------------------------------------------------------ GET /loadouts

  function Others(past: seq<Card>, current: Option<Id>): seq<Card> {
    if past == [] then []
    else
      var rest := Others(past[..|past|-1], current);
      if current == Some(past[|past|-1].id) then rest else rest + [past[|past|-1]]
  }

  /** `doc`: the current one first, then the remembered ones that are not it. */
  function Doc(st: State): seq<Card> {
    (if st.current.Some? then [Card(st.current.value.id, st.current.value.acc)] else [])
    + Others(st.past, if st.current.Some? then Some(st.current.value.id) else None)
  }

  ghost predicate DistinctIds(cs: seq<Card>) {
    forall i, j :: 0 <= i < j < |cs| ==> cs[i].id != cs[j].id
  }

  lemma {:induction false} OthersMeaning(past: seq<Card>, current: Option<Id>)
    requires DistinctIds(past)
    ensures forall c :: c in Others(past, current) <==> c in past && current != Some(c.id)
    ensures DistinctIds(Others(past, current))
  {
    if past != [] {
      var init, last := past[..|past|-1], past[|past|-1];
      assert past == init + [last];
      OthersMeaning(init, current);
      forall c | c in Others(init, current) ensures c.id != last.id {
        var i :| 0 <= i < |init| && init[i] == c;
        assert past[i] == c && past[|init|] == last;
      }
      OneMoreOther(Others(init, current), last);
    }
  }

  lemma OneMoreOther(rest: seq<Card>, last: Card)
    requires DistinctIds(rest) && forall c :: c in rest ==> c.id != last.id
    ensures DistinctIds(rest + [last])
    ensures forall c :: c in rest + [last] <==> c in rest || c == last
  {
    forall i | 0 <= i < |rest| ensures rest[i].id != last.id {
      assert rest[i] in rest;
    }
  }

  /** THE DOCUMENT NEVER LISTS A LOADOUT TWICE, and what it says of each is everything measured of
      it - live for the one being served, final for the others. */
  lemma DocListsEachOnce(states: seq<World>, run: seq<Event>, i: nat)
    requires Behaves(states, run) && i < |states|
    ensures
      var doc := Doc(states[i].st);
      && DistinctIds(doc)
      && (forall j :: 0 <= j < |doc| ==> doc[j].acc == Measured(states[i], doc[j].id))
  {
    InvAlways(states, run, i);
    var w := states[i];
    var current := if w.st.current.Some? then Some(w.st.current.value.id) else None;
    var others, doc := Others(w.st.past, current), Doc(w.st);
    OthersMeaning(w.st.past, current);
    forall j | 0 <= j < |others| ensures current != Some(others[j].id) && others[j].acc == Measured(w, others[j].id) {
      assert others[j] in others;
      var k :| 0 <= k < |w.st.past| && w.st.past[k] == others[j];
      assert CardOk(w, w.st.past[k]);
    }
  }

  /** ... and it lists what is served first, and every remembered loadout. */
  lemma {:induction false} DocIsComplete(states: seq<World>, run: seq<Event>, i: nat, id: Id)
    requires Behaves(states, run) && i < |states|
    ensures
      var doc, served := Doc(states[i].st), ServedAt(run, i);
      && (served.Some? ==> doc != [] && doc[0].id == served.value.id)
      && ((exists c :: c in doc && c.id == id) <==> (served.Some? && served.value.id == id) || id in RememberedAt(run, i))
  {
    InvAlways(states, run, i);
    RunReflects(states, run, i);
    RunRemembers(states, run, i);
    var w := states[i];
    var current := if w.st.current.Some? then Some(w.st.current.value.id) else None;
    OthersMeaning(w.st.past, current);
    var doc, others := Doc(w.st), Others(w.st.past, current);
    IdAmong(w.st.past, RememberedAt(run, i), id);
    if w.st.current.Some? {
      assert doc[0] in doc;
    }
    if c :| c in w.st.past && c.id == id {
      assert current != Some(id) ==> c in others && c in doc;
    }
    if c :| c in doc && c.id == id {
      assert current != Some(id) ==> c in others && c in w.st.past;
    }
  }

  function Ids(cs: seq<Card>): (ids: seq<Id>)
    ensures |ids| == |cs| && forall k :: 0 <= k < |cs| ==> ids[k] == cs[k].id
  {
    seq(|cs|, k requires 0 <= k < |cs| => cs[k].id)
  }

  /** A list less one loadout. */
  function Without(ids: seq<Id>, gone: Option<Id>): seq<Id> {
    if ids == [] then [] else (if gone == Some(ids[0]) then [] else [ids[0]]) + Without(ids[1..], gone)
  }

  lemma {:induction false} WithoutSnoc(ids: seq<Id>, x: Id, gone: Option<Id>)
    ensures Without(ids + [x], gone) == Without(ids, gone) + if gone == Some(x) then [] else [x]
  {
    if ids == [] {
      assert ids + [x] == [x] && [x][1..] == [];
    } else {
      assert (ids + [x])[1..] == ids[1..] + [x];
      WithoutSnoc(ids[1..], x, gone);
    }
  }

  lemma IdsSnoc(cs: seq<Card>, c: Card)
    ensures Ids(cs + [c]) == Ids(cs) + [c.id]
  {
  }

  lemma {:induction false} OthersInOrder(past: seq<Card>, current: Option<Id>)
    ensures Ids(Others(past, current)) == Without(Ids(past), current)
  {
    if past != [] {
      var init, last := past[..|past|-1], past[|past|-1];
      assert past == init + [last];
      OthersInOrder(init, current);
      IdsSnoc(init, last);
      IdsSnoc(Others(init, current), last);
      WithoutSnoc(Ids(init), last.id, current);
    }
  }

  /** ... in order: what is served, then the others as they were remembered. */
  lemma {:induction false} DocInOrder(states: seq<World>, run: seq<Event>, i: nat)
    requires Behaves(states, run) && i < |states|
    ensures
      var served := if ServedAt(run, i).Some? then Some(ServedAt(run, i).value.id) else None;
      Ids(Doc(states[i].st)) == (if served.Some? then [served.value] else []) + Without(RememberedAt(run, i), served)
  {
    RunReflects(states, run, i);
    RunRemembers(states, run, i);
    var st := states[i].st;
    assert Ids(st.past) == RememberedAt(run, i);
    OthersInOrder(st.past, if st.current.Some? then Some(st.current.value.id) else None);
  }

  lemma IdAmong(past: seq<Card>, ids: seq<Id>, id: Id)
    requires |past| == |ids| && forall k :: 0 <= k < |past| ==> past[k].id == ids[k]
    ensures id in ids <==> exists c :: c in past && c.id == id
  {
    if id in ids {
      var k :| 0 <= k < |ids| && ids[k] == id;
      assert past[k] in past;
    }
    if c :| c in past && c.id == id {
      var k :| 0 <= k < |past| && past[k] == c;
      assert ids[k] == id;
    }
  }

  // ------------------------------------------------------------------ counted for two loadouts

  ghost predicate Has(acc: Acc, x: Sample) {
    exists e :: e in acc && e.Observed? && e.cur == x
  }

  lemma {:induction false} BackfilledHas(raw: seq<Sample>, from: int, now: int, x: Sample)
    ensures Has(Backfilled(raw, from, now), x) <==> x in raw && from <= x.ts < now
  {
    if raw != [] {
      assert raw == raw[..|raw|-1] + [raw[|raw|-1]];
      BackfilledHas(raw[..|raw|-1], from, now, x);
      var rest, s := Backfilled(raw[..|raw|-1], from, now), raw[|raw|-1];
      if from <= s.ts < now && x == s {
        var last := Backfilled(raw, from, now)[|Backfilled(raw, from, now)|-1];
        assert last in Backfilled(raw, from, now) && last.Observed? && last.cur == x;
      }
      if Has(rest, x) {
        var e :| e in rest && e.Observed? && e.cur == x;
        assert e in Backfilled(raw, from, now);
      }
    }
  }

  /** The stored samples of a stretch, in order. */
  function Within(raw: seq<Sample>, from: int, now: int): seq<Sample> {
    if raw == [] then []
    else Within(raw[..|raw|-1], from, now) + if from <= raw[|raw|-1].ts < now then [raw[|raw|-1]] else []
  }

  function PairAt(ss: seq<Sample>, k: nat): Entry
    requires k < |ss|
  {
    Observed(if k == 0 then None else Some(ss[k-1]), ss[k])
  }

  /** What is folded in at the first sight: each of them with the one before it. */
  lemma {:induction false} BackfilledPairs(raw: seq<Sample>, from: int, now: int)
    ensures |Backfilled(raw, from, now)| == |Within(raw, from, now)|
    ensures forall k :: 0 <= k < |Within(raw, from, now)| ==> Backfilled(raw, from, now)[k] == PairAt(Within(raw, from, now), k)
  {
    if raw != [] {
      var init, s := raw[..|raw|-1], raw[|raw|-1];
      BackfilledPairs(init, from, now);
      var rest, w, all := Backfilled(init, from, now), Within(init, from, now), Within(raw, from, now);
      forall k | 0 <= k < |w| ensures PairAt(all, k) == PairAt(w, k) {}
      if rest != [] {
        assert rest[|rest|-1] == PairAt(w, |w| - 1);
      }
    }
  }

  /** A cold start is noted when this collector saw the serve down after its container started, and less
      than about a minute before it answered; a run always. */
  lemma BeganExamples()
    ensures Began(1000, Some(1030), 1035) == [Run(1000), ColdStart(35)]
    ensures Began(1000, Some(1000), 1060) == [Run(1000), ColdStart(60)]
    ensures Began(1000, Some(1000), 1061) == [Run(1000)] && Began(1000, Some(995), 1005) == [Run(1000)]
    ensures Began(1000, None, 1005) == [Run(1000)]
  {
  }

  /** THE FIRST SIGHT OF A LOADOUT, EXACTLY: a sample already counted for another loadout is counted
      for the new one too if and only if it is not older than the start of the new one's container.
      A plain process has no start time (it is taken as 0): everything ever stored counts again. */
  lemma FirstSightCountsAgain(w: World, e: Event, other: Id, x: Sample)
    requires Inv(w) && Possible(w, e) && Switches(w, e)
    requires !Serving(w, e.ident.value) && e.ident.value !in w.shelf.table && other != e.ident.value
    requires x in w.shelf.raw && Has(Measured(w, other), x)
    ensures Has(Measured(Next(w, e), other), x)
    ensures Has(Measured(Next(w, e), e.ident.value), x) <==> e.s.seen.value.startedAt <= x.ts
  {
    var id, started := e.ident.value, e.s.seen.value.startedAt;
    PollAdds(w, e);
    assert Measured(w, id) == [] && Added(w, e, other) == [];
    assert Measured(w, other) + [] == Measured(w, other);
    var raw := Noted(w, e.s).shelf.raw;
    BackfilledHas(raw, started, e.s.ts, x);
    var back, began := Backfilled(raw, started, e.s.ts), Began(started, Noted(w, e.s).st.lastDown, e.s.ts);
    assert Measured(Next(w, e), id) == back + began + [Observed(None, e.s)];
    assert x.ts < e.s.ts;
    OnlyObservedThere(back, began, e.s, x);
  }

  lemma OnlyObservedThere(back: Acc, began: Acc, s: Sample, x: Sample)
    requires x != s && forall y :: y in began ==> !y.Observed?
    ensures Has(back + began + [Observed(None, s)], x) <==> Has(back, x)
  {
    var all := back + began + [Observed(None, s)];
    if Has(back, x) {
      var y :| y in back && y.Observed? && y.cur == x;
      assert y in all;
    }
    if Has(all, x) {
      var y :| y in all && y.Observed? && y.cur == x;
      assert y in back || y in began || y == Observed(None, s);
    }
  }

  /** Two plain processes, one after the other: the sample measured of the first is measured of the
      second as well. */
  lemma PlainProcessCountsAgain(a: Id, b: Id, x: Sample, y: Sample)
    requires a != b
    requires x == Sample(100, true, Some(Seen("", 0, "one"))) && y == Sample(105, true, Some(Seen("", 0, "two")))
    ensures
      var first, second := Polled(x, Some(a), []), Polled(y, Some(b), []);
      var w := World(Nothing, Shelf(map[], []));
      && Possible(w, first) && Possible(Next(w, first), second)
      && Has(Measured(Next(Next(w, first), second), a), x) && Has(Measured(Next(Next(w, first), second), b), x)
  {
    var first, second := Polled(x, Some(a), []), Polled(y, Some(b), []);
    var w := World(Nothing, Shelf(map[], []));
    FirstLoadout(w, a, x);
    PollAdds(w, first);
    SecondLoadout(Next(w, first), a, b, x, y);
    FirstSightCountsAgain(Next(w, first), second, a, x);
  }

  lemma SecondLoadout(w: World, a: Id, b: Id, x: Sample, y: Sample)
    requires w.st.current.Some? && w.st.current.value.id == a && Some(w.st.current.value.seen) != y.seen
    requires w.st.savedAt <= y.ts && w.shelf.table.Keys == {a} && w.shelf.raw == [x] && a != b
    requires y.seen.Some? && x.ts < y.ts
    ensures
      var e := Polled(y, Some(b), []);
      Possible(w, e) && Switches(w, e) && !Serving(w, b) && b !in w.shelf.table && x in w.shelf.raw
  {
  }

  lemma FirstLoadout(w: World, a: Id, x: Sample)
    requires w == World(Nothing, Shelf(map[], [])) && x.seen.Some? && x.ts >= 0
    ensures
      var e := Polled(x, Some(a), []);
      && Inv(w) && Possible(w, e) && Switches(w, e)
      && Next(w, e).st.current.Some? && Next(w, e).st.current.value.id == a && Next(w, e).st.current.value.seen == x.seen.value
      && Next(w, e).st.savedAt == x.ts && Next(w, e).shelf.table.Keys == {a} && Next(w, e).shelf.raw == [x]
      && Has(Measured(Next(w, e), a), x)
  {
    var e := Polled(x, Some(a), []);
    var acc := Measured(Next(w, e), a);
    assert acc[|acc|-1] == Observed(None, x);
  }
}
