/** `Db::repair_impossible_token_buckets` (`lss-collector/src/db.rs`): a bucket no hardware could
    have served is spread back over the earlier buckets it belongs to. */
module TokenRepair {
  import opened Wrappers
  import opened Series
  import opened Rollers
  import opened Store

  const MAX_CACHED_TOK_S := 500_000.0
  const CACHED: Metric := "tok_cached"
  const PROMPT: Metric := "tok_prompt"

  // ------------------------------------------------------------------ sums over maps

  ghost function SumOver(s: set<Key>, m: map<Key, real>): real
    requires s <= m.Keys
  {
    if s == {} then 0.0 else
      var k :| k in s;
      m[k] + SumOver(s - {k}, m)
  }

  lemma {:induction false} SumOverRemove(s: set<Key>, m: map<Key, real>, k: Key)
    requires k in s && s <= m.Keys
    ensures SumOver(s, m) == m[k] + SumOver(s - {k}, m)
  {
    var c :| c in s && SumOver(s, m) == m[c] + SumOver(s - {c}, m);
    if c != k {
      SumOverRemove(s - {c}, m, k);
      SumOverRemove(s - {k}, m, c);
      assert s - {c} - {k} == s - {k} - {c};
    }
  }

  lemma {:induction false} SumOverSame(s: set<Key>, m: map<Key, real>, n: map<Key, real>)
    requires s <= m.Keys && s <= n.Keys && forall k :: k in s ==> m[k] == n[k]
    ensures SumOver(s, m) == SumOver(s, n)
  {
    if s != {} {
      var k :| k in s;
      SumOverRemove(s, m, k);
      SumOverRemove(s, n, k);
      SumOverSame(s - {k}, m, n);
    }
  }

  ghost function SumMap(m: map<Key, real>): real {
    SumOver(m.Keys, m)
  }

  lemma SumMapRemove(m: map<Key, real>, k: Key)
    requires k in m
    ensures SumMap(m) == m[k] + SumMap(m - {k})
  {
    SumOverRemove(m.Keys, m, k);
    assert (m - {k}).Keys == m.Keys - {k};
    SumOverSame(m.Keys - {k}, m, m - {k});
  }

  lemma SomeKey(m: map<Key, real>) returns (k: Key)
    requires m.Keys != {}
    ensures k in m && (m - {k}).Keys < m.Keys
  {
    var keys := m.Keys;
    k :| k in keys;
  }

  /** Writing amounts where there was nothing adds them up. */
  lemma {:induction false} SumMapFill(m: map<Key, real>, g: map<Key, real>)
    requires forall k :: k in g && k in m ==> m[k] == 0.0
    ensures SumMap(m + g) == SumMap(m) + SumMap(g)
    decreases g.Keys
  {
    if g.Keys == {} {
      assert g == map[] && m + g == m;
    } else {
      var k := SomeKey(g);
      var rest := g - {k};
      SumMapRemove(g, k);
      SumMapFill(m, rest);
      SumMapRemove(m + g, k);
      if k in m {
        SumMapRemove(m + rest, k);
        assert (m + g) - {k} == (m + rest) - {k};
      } else {
        assert (m + g) - {k} == m + rest;
      }
    }
  }

  function Scaled(m: map<Key, real>, f: real): map<Key, real> {
    map k | k in m :: m[k] * f
  }

  lemma ScaledRemove(m: map<Key, real>, f: real, k: Key)
    ensures Scaled(m, f) - {k} == Scaled(m - {k}, f)
  {
    var l, r := Scaled(m, f) - {k}, Scaled(m - {k}, f);
    assert l.Keys == r.Keys;
    forall x | x in l ensures l[x] == r[x] {
      assert (m - {k})[x] == m[x];
    }
  }

  lemma {:induction false} SumMapScale(m: map<Key, real>, f: real)
    ensures SumMap(Scaled(m, f)) == SumMap(m) * f
    decreases m.Keys
  {
    if m.Keys != {} {
      var k := SomeKey(m);
      SumMapRemove(m, k);
      SumMapRemove(Scaled(m, f), k);
      SumMapScale(m - {k}, f);
      ScaledRemove(m, f, k);
      assert Scaled(m, f)[k] == m[k] * f;
    }
  }

  lemma {:induction false} SumMapPositive(m: map<Key, real>)
    requires forall k :: k in m ==> m[k] > 0.0
    ensures SumMap(m) >= 0.0 && (m != map[] ==> SumMap(m) > 0.0)
    decreases m.Keys
  {
    if m.Keys != {} {
      var k := SomeKey(m);
      SumMapRemove(m, k);
      SumMapPositive(m - {k});
    }
  }

  // ------------------------------------------------------------------ what is wrong

  /** What SQL sees of the table: every row's total, `avg * n`. */
  type Cells = map<Key, real>

  /** A bucket's total, nothing when there is no row. */
  function Total(t: Cells, k: Key): real {
    if k in t then t[k] else 0.0
  }

  datatype At = At(res: int, ts: int)

  /** More than the hardware could serve, and more than twice what was asked for. */
  predicate Impossible(t: Cells, b: At) {
    && Key(b.res, CACHED, b.ts) in t
    && Total(t, Key(b.res, CACHED, b.ts)) > MAX_CACHED_TOK_S * b.res as real
    && Total(t, Key(b.res, CACHED, b.ts)) > 2.0 * Total(t, Key(b.res, PROMPT, b.ts))
  }

  function Bad(t: Cells): set<At> {
    set k | k in t && k.metric == CACHED && Impossible(t, At(k.res, k.ts)) :: At(k.res, k.ts)
  }

  lemma BadMeaning(t: Cells, b: At)
    ensures b in Bad(t) <==> Impossible(t, b)
  {
    if Impossible(t, b) {
      var k := Key(b.res, CACHED, b.ts);
      assert k in t && At(k.res, k.ts) == b;
    }
  }

  ghost predicate Tiered(t: Cells) {
    forall k :: k in t ==> Tier(k.res)
  }

  // ------------------------------------------------------------------ one bucket

  /** An earlier bucket of the tier that read prompts while the cache counter said nothing. */
  predicate Hole(t: Cells, b: At, ts: int) {
    && Key(b.res, PROMPT, ts) in t && ts < b.ts
    && Total(t, Key(b.res, PROMPT, ts)) > 0.0
    && Total(t, Key(b.res, CACHED, ts)) == 0.0
  }

  function CachedKey(b: At): Key { Key(b.res, CACHED, b.ts) }
  function PromptKey(b: At): Key { Key(b.res, PROMPT, b.ts) }

  /** The cached cell of every hole, with the prompt tokens of its bucket. */
  function Holes(t: Cells, b: At): (h: map<Key, real>)
    ensures forall k :: k in h <==> k.res == b.res && k.metric == CACHED && Hole(t, b, k.ts)
    ensures forall k :: k in h ==> h[k] == Total(t, Key(b.res, PROMPT, k.ts)) && h[k] > 0.0
    ensures forall k :: k in h ==> Total(t, k) == 0.0 && k != CachedKey(b)
  {
    map k | k in (set p | p in t && p.res == b.res && p.metric == PROMPT && Hole(t, b, p.ts) :: Key(b.res, CACHED, p.ts)) ::
      Total(t, Key(b.res, PROMPT, k.ts))
  }

  ghost function Room(t: Cells, b: At): real {
    SumMap(Holes(t, b))
  }

  /** The prompt cells of the earlier buckets of the tier in which prompts were read and no cached token
      is on record. */
  function EarlierPrompts(t: Cells, b: At): set<Key> {
    set p | p in t && p.res == b.res && p.metric == PROMPT && p.ts < b.ts && t[p] > 0.0
            && (Key(b.res, CACHED, p.ts) !in t || t[Key(b.res, CACHED, p.ts)] == 0.0)
  }

  /** All prompt tokens read in them. */
  ghost function PromptsRead(t: Cells, b: At): real {
    SumOver(EarlierPrompts(t, b), t)
  }

  lemma {:induction false} SumShifted(h: map<Key, real>, s: set<Key>, t: Cells, res: int)
    requires s <= t.Keys
    requires forall k :: k in h ==> k == Key(res, CACHED, k.ts) && Key(res, PROMPT, k.ts) in s && h[k] == t[Key(res, PROMPT, k.ts)]
    requires forall p :: p in s ==> p == Key(res, PROMPT, p.ts) && Key(res, CACHED, p.ts) in h
    ensures SumMap(h) == SumOver(s, t)
    decreases s
  {
    if s == {} {
      assert forall k :: k in h ==> Key(res, PROMPT, k.ts) in s;
      assert h.Keys == {};
    } else {
      var p :| p in s;
      var k := Key(res, CACHED, p.ts);
      SumMapRemove(h, k);
      SumOverRemove(s, t, p);
      SumShifted(h - {k}, s - {p}, t, res);
    }
  }

  lemma RoomIsPromptsRead(t: Cells, b: At)
    ensures Room(t, b) == PromptsRead(t, b)
  {
    SumShifted(Holes(t, b), EarlierPrompts(t, b), t, b.res);
  }

  function Factor(sum: real, room: real): real {
    if room > 0.0 then (if sum / room <= 1.0 then sum / room else 1.0) else 0.0
  }

  /** Every hole given its share of the bad bucket, and the bad bucket gone. */
  function SpreadBack(t: Cells, b: At, f: real): Cells {
    t + Scaled(Holes(t, b), f) - {CachedKey(b)}
  }

  ghost function FactorOf(t: Cells, b: At): real {
    Factor(Total(t, Key(b.res, CACHED, b.ts)), Room(t, b))
  }

  /** The bad bucket spread over its holes and deleted. */
  ghost function Repaired(t: Cells, b: At): Cells {
    SpreadBack(t, b, FactorOf(t, b))
  }

  ghost function RepairedAll(t: Cells, bs: seq<At>): Cells {
    if bs == [] then t else Repaired(RepairedAll(t, bs[..|bs|-1]), bs[|bs|-1])
  }

  // ------------------------------------------------------------------ arithmetic

  lemma ShareRange(p: real, factor: real)
    requires p > 0.0 && 0.0 <= factor <= 1.0
    ensures 0.0 <= p * factor <= p
  {
  }

  lemma FactorRange(sum: real, room: real)
    requires sum > 0.0
    ensures 0.0 <= Factor(sum, room) <= 1.0
    ensures room > 0.0 ==> room * Factor(sum, room) == if sum <= room then sum else room
  {
    if room > 0.0 {
      DivideThenMultiply(sum, room);
      assert sum / room > 0.0;
      if sum / room <= 1.0 {
        assert sum == sum / room * room <= room;
      }
    }
  }

  // ------------------------------------------------------------------ one step

  /** What a repair may make of one cell: a hole gets no more than was read there, the bad cell
      goes, everything else stays. */
  ghost predicate CellSpread(t: Cells, u: Cells, h: map<Key, real>, bad: Key, k: Key) {
    && (k in h ==> k in u && 0.0 <= u[k] <= h[k])
    && (k !in h && k != bad ==> Unchanged(t, u, k))
    && (k == bad ==> k !in u)
  }

  ghost predicate Spreads(t: Cells, u: Cells, b: At) {
    forall k :: CellSpread(t, u, Holes(t, b), CachedKey(b), k)
  }

  lemma FillCell(t: Cells, h: map<Key, real>, f: real, bad: Key, k: Key)
    requires 0.0 <= f <= 1.0 && bad !in h && (k in h ==> h[k] > 0.0)
    ensures CellSpread(t, t + Scaled(h, f) - {bad}, h, bad, k)
    ensures k in h ==> (t + Scaled(h, f) - {bad})[k] == Scaled(h, f)[k]
  {
    if k in h {
      ShareRange(h[k], f);
      assert Scaled(h, f)[k] == h[k] * f;
    }
  }

  ghost predicate HoldsShare(u: Cells, k: Key, x: real, f: real) {
    k in u && u[k] == x * f
  }

  lemma FillShare(t: Cells, h: map<Key, real>, f: real, bad: Key, k: Key, x: real)
    requires k in h && h[k] == x && k != bad
    ensures HoldsShare(t + Scaled(h, f) - {bad}, k, x, f)
  {
  }

  lemma SpreadSpreads(t: Cells, b: At, f: real)
    requires 0.0 <= f <= 1.0
    ensures Spreads(t, SpreadBack(t, b, f), b)
  {
    var h := Holes(t, b);
    forall k ensures CellSpread(t, SpreadBack(t, b, f), h, CachedKey(b), k) {
      FillCell(t, h, f, CachedKey(b), k);
    }
  }

  lemma BadIsPositive(t: Cells, b: At)
    requires Tiered(t) && Impossible(t, b)
    ensures CachedKey(b) in t && Total(t, CachedKey(b)) > 0.0
  {
    assert CachedKey(b) in t;
  }

  lemma FactorOfRange(t: Cells, b: At)
    requires Tiered(t) && Impossible(t, b)
    ensures 0.0 <= FactorOf(t, b) <= 1.0
  {
    BadIsPositive(t, b);
    FactorRange(Total(t, CachedKey(b)), Room(t, b));
  }

  /** What one repair makes of each bucket's total. */
  lemma RepairedSpreads(t: Cells, b: At)
    requires Tiered(t) && Impossible(t, b)
    ensures Spreads(t, Repaired(t, b), b)
  {
    FactorOfRange(t, b);
    SpreadSpreads(t, b, FactorOf(t, b));
  }

  lemma RepairedCell(t: Cells, b: At, k: Key)
    requires Tiered(t) && Impossible(t, b)
    ensures CellSpread(t, Repaired(t, b), Holes(t, b), CachedKey(b), k)
  {
    RepairedSpreads(t, b);
  }

  ghost predicate Unchanged(t: Cells, u: Cells, k: Key) {
    (k in u <==> k in t) && (k in t && k in u ==> u[k] == t[k])
  }

  lemma SameTotal(t: Cells, u: Cells, k: Key)
    requires Unchanged(t, u, k)
    ensures Total(u, k) == Total(t, k)
  {
  }

  /** A filled hole is not impossible: it says no more than was read. */
  lemma FilledIsPossible(u: Cells, x: At)
    requires 0.0 <= Total(u, CachedKey(x)) <= Total(u, PromptKey(x))
    ensures !Impossible(u, x)
  {
  }

  lemma SameImpossible(t: Cells, u: Cells, x: At)
    requires CachedKey(x) in u <==> CachedKey(x) in t
    requires Total(u, CachedKey(x)) == Total(t, CachedKey(x)) && Total(u, PromptKey(x)) == Total(t, PromptKey(x))
    ensures Impossible(u, x) <==> Impossible(t, x)
  {
  }

  /** A hole is not impossible either: it says nothing at all. */
  lemma HoleIsPossible(t: Cells, b: At, x: At)
    requires Tier(x.res) && Hole(t, b, x.ts) && x.res == b.res
    ensures !Impossible(t, x)
  {
  }

  /** A repair leaves every other bucket's verdict as it was and makes no new impossible one. */
  lemma SpreadVerdict(t: Cells, u: Cells, b: At, x: At)
    requires Tiered(t) && Impossible(t, b) && Spreads(t, u, b)
    ensures Impossible(u, x) <==> Impossible(t, x) && x != b
    ensures Impossible(t, x) && x != b ==> Total(u, CachedKey(x)) == Total(t, CachedKey(x))
  {
    var h := Holes(t, b);
    assert CellSpread(t, u, h, CachedKey(b), CachedKey(x));
    assert CellSpread(t, u, h, CachedKey(b), PromptKey(x));
    SameTotal(t, u, PromptKey(x));
    if CachedKey(x) in h {
      assert b.res == x.res && CachedKey(b) in t;
      HoleIsPossible(t, b, x);
      FilledIsPossible(u, x);
    } else if x != b {
      assert CachedKey(x) != CachedKey(b);
      SameTotal(t, u, CachedKey(x));
      SameImpossible(t, u, x);
    }
  }

  lemma SpreadTiered(t: Cells, u: Cells, b: At)
    requires Tiered(t) && Impossible(t, b) && Spreads(t, u, b)
    ensures Tiered(u)
  {
    assert CachedKey(b) in t;
    forall k | k in u ensures Tier(k.res) {
      assert CellSpread(t, u, Holes(t, b), CachedKey(b), k);
    }
  }

  lemma SpreadBad(t: Cells, u: Cells, b: At)
    requires Tiered(t) && Impossible(t, b) && Spreads(t, u, b)
    ensures Bad(u) == Bad(t) - {b}
    ensures forall x :: x in Bad(t) && x != b ==> Total(u, CachedKey(x)) == Total(t, CachedKey(x))
  {
    forall x ensures x in Bad(u) <==> x in Bad(t) && x != b
      ensures x in Bad(t) && x != b ==> Total(u, CachedKey(x)) == Total(t, CachedKey(x))
    {
      BadMeaning(t, x);
      BadMeaning(u, x);
      SpreadVerdict(t, u, b, x);
    }
  }

  lemma RepairedTiered(t: Cells, b: At)
    requires Tiered(t) && Impossible(t, b)
    ensures Tiered(Repaired(t, b))
  {
    RepairedSpreads(t, b);
    SpreadTiered(t, Repaired(t, b), b);
  }

  /** A repair leaves the other impossible buckets exactly as they were and makes no new one. */
  lemma RepairedBad(t: Cells, b: At)
    requires Tiered(t) && Impossible(t, b)
    ensures Bad(Repaired(t, b)) == Bad(t) - {b}
    ensures forall x :: x in Bad(t) && x != b ==> Total(Repaired(t, b), CachedKey(x)) == Total(t, CachedKey(x))
  {
    RepairedSpreads(t, b);
    SpreadBad(t, Repaired(t, b), b);
  }

  /** The cached tokens of one tier, bucket by bucket. */
  ghost function CachedOf(t: Cells, res: int): map<Key, real> {
    map k | k in t && k.res == res && k.metric == CACHED :: t[k]
  }

  ghost function CachedTotal(t: Cells, res: int): real {
    SumMap(CachedOf(t, res))
  }

  /** What is placed back of a bad bucket: all of it, or all there is room for. */
  ghost function Placed(t: Cells, b: At): real {
    var sum, room := Total(t, CachedKey(b)), Room(t, b);
    if sum <= room then sum else room
  }

  /** The same, said of the stored prompts. */
  ghost function PutBack(t: Cells, b: At): real {
    var sum, read := Total(t, CachedKey(b)), PromptsRead(t, b);
    if sum <= read then sum else read
  }

  lemma PlacedIsPutBack(t: Cells, b: At)
    ensures Placed(t, b) == PutBack(t, b)
  {
    RoomIsPromptsRead(t, b);
  }

  lemma PlacedIsRoomShare(t: Cells, b: At)
    requires Tiered(t) && Impossible(t, b)
    ensures Room(t, b) * FactorOf(t, b) == Placed(t, b)
  {
    assert CachedKey(b) in t;
    assert Total(t, CachedKey(b)) > 0.0;
    SumMapPositive(Holes(t, b));
    FactorRange(Total(t, CachedKey(b)), Room(t, b));
  }

  /** In its own tier, a repair writes the shares where there was nothing and drops the bad cell. */
  lemma SpreadCells(t: Cells, b: At, f: real)
    ensures CachedOf(SpreadBack(t, b, f), b.res) == CachedOf(t, b.res) + Scaled(Holes(t, b), f) - {CachedKey(b)}
  {
    var l, r := CachedOf(SpreadBack(t, b, f), b.res), CachedOf(t, b.res) + Scaled(Holes(t, b), f) - {CachedKey(b)};
    assert l.Keys == r.Keys;
    forall k | k in l ensures l[k] == r[k] {}
  }

  lemma SpreadOtherTier(t: Cells, u: Cells, b: At, res: int)
    requires Spreads(t, u, b) && res != b.res
    ensures CachedOf(u, res) == CachedOf(t, res)
  {
    var after, c := CachedOf(u, res), CachedOf(t, res);
    forall k
      ensures k in after <==> k in c
      ensures k in after ==> after[k] == c[k]
    {
      assert CellSpread(t, u, Holes(t, b), CachedKey(b), k);
    }
  }

  lemma OtherTierCells(t: Cells, b: At, res: int)
    requires Tiered(t) && Impossible(t, b) && res != b.res
    ensures CachedOf(Repaired(t, b), res) == CachedOf(t, res)
  {
    RepairedSpreads(t, b);
    SpreadOtherTier(t, Repaired(t, b), b, res);
  }

  lemma FilledBalance(c: map<Key, real>, h: map<Key, real>, f: real, bad: Key, placed: real)
    requires placed == SumMap(h) * f
    requires bad in c && bad !in h && forall k :: k in h && k in c ==> c[k] == 0.0
    ensures SumMap(c + Scaled(h, f) - {bad}) == SumMap(c) + placed - c[bad]
  {
    SumMapScale(h, f);
    SumMapFill(c, Scaled(h, f));
    SumMapRemove(c + Scaled(h, f), bad);
  }

  /** ONE REPAIR'S BALANCE: the tier's cached total changes by what was placed minus what was
      removed; every other tier keeps its total. */
  lemma RepairedTotal(t: Cells, b: At, res: int)
    requires Tiered(t) && Impossible(t, b)
    ensures CachedTotal(Repaired(t, b), res) ==
            CachedTotal(t, res) + if res == b.res then Placed(t, b) - Total(t, CachedKey(b)) else 0.0
  {
    if res != b.res {
      OtherTierCells(t, b, res);
    } else {
      OwnTierTotal(t, b);
    }
  }

  lemma OwnTierTotal(t: Cells, b: At)
    requires Tiered(t) && Impossible(t, b)
    ensures CachedTotal(Repaired(t, b), b.res) == CachedTotal(t, b.res) + Placed(t, b) - Total(t, CachedKey(b))
  {
    PlacedIsRoomShare(t, b);
    SpreadTotal(t, b, FactorOf(t, b), Placed(t, b));
  }

  lemma SpreadTotal(t: Cells, b: At, f: real, placed: real)
    requires CachedKey(b) in t && placed == Room(t, b) * f
    ensures CachedTotal(SpreadBack(t, b, f), b.res) == CachedTotal(t, b.res) + placed - Total(t, CachedKey(b))
  {
    HolesAreEmpty(t, b);
    FilledBalance(CachedOf(t, b.res), Holes(t, b), f, CachedKey(b), placed);
    SpreadCells(t, b, f);
  }

  lemma HolesAreEmpty(t: Cells, b: At)
    requires CachedKey(b) in t
    ensures CachedKey(b) in CachedOf(t, b.res) && CachedKey(b) !in Holes(t, b) && CachedOf(t, b.res)[CachedKey(b)] == Total(t, CachedKey(b))
    ensures forall k :: k in Holes(t, b) && k in CachedOf(t, b.res) ==> CachedOf(t, b.res)[k] == 0.0
  {
    forall k | k in Holes(t, b) && k in CachedOf(t, b.res) ensures CachedOf(t, b.res)[k] == 0.0 {
      assert Total(t, k) == 0.0;
    }
  }

  /** What one share `f` of their prompts makes of the earlier buckets, the bad one and all others. */
  ghost predicate SharedOut(t: Cells, u: Cells, b: At, f: real) {
    && (forall p :: p in EarlierPrompts(t, b) ==> HoldsShare(u, Key(b.res, CACHED, p.ts), t[p], f))
    && Key(b.res, CACHED, b.ts) !in u
    && (forall k :: k != Key(b.res, CACHED, b.ts) && !(k.res == b.res && k.metric == CACHED && Key(b.res, PROMPT, k.ts) in EarlierPrompts(t, b)) ==>
          (k in u <==> k in t) && (k in u && k in t ==> u[k] == t[k]))
  }

  /** ONE REPAIR, exactly: every earlier bucket of the tier that read prompts without a cached token gets
      the same share of its prompts, no more than all of them; what they get together is the bad
      bucket's tokens, or all the prompts there are; the bad bucket goes; nothing else changes. */
  lemma RepairedExactly(t: Cells, b: At)
    requires Tiered(t) && Impossible(t, b)
    ensures exists f :: SharedOut(t, Repaired(t, b), b, f) && ShareIs(f, PromptsRead(t, b), t[CachedKey(b)])
  {
    FactorOfRange(t, b);
    SpreadSharesOut(t, b, FactorOf(t, b));
    ShareOfPrompts(t, b);
  }

  /** A share between nothing and all, of so many prompts, for so many tokens. */
  ghost predicate ShareIs(f: real, read: real, tokens: real) {
    0.0 <= f <= 1.0 && f * read == if tokens <= read then tokens else read
  }

  lemma ShareOfPrompts(t: Cells, b: At)
    requires Tiered(t) && Impossible(t, b)
    ensures ShareIs(FactorOf(t, b), PromptsRead(t, b), t[CachedKey(b)])
  {
    RoomIsPromptsRead(t, b);
    SumMapPositive(Holes(t, b));
    FactorIsShare(t[CachedKey(b)], Room(t, b));
  }

  lemma FactorIsShare(tokens: real, room: real)
    requires tokens > 0.0 && room >= 0.0
    ensures ShareIs(Factor(tokens, room), room, tokens)
  {
    FactorRange(tokens, room);
  }

  lemma ShareOfEarlier(t: Cells, b: At, f: real, p: Key)
    requires p in EarlierPrompts(t, b)
    ensures HoldsShare(SpreadBack(t, b, f), Key(b.res, CACHED, p.ts), t[p], f)
  {
    EarlierIsHole(t, b, p);
    FillShare(t, Holes(t, b), f, CachedKey(b), Key(b.res, CACHED, p.ts), t[p]);
  }

  lemma StaysElsewhere(t: Cells, b: At, f: real, k: Key)
    requires Impossible(t, b) && 0.0 <= f <= 1.0 && k != CachedKey(b)
    requires !(k.res == b.res && k.metric == CACHED && Key(b.res, PROMPT, k.ts) in EarlierPrompts(t, b))
    ensures Unchanged(t, SpreadBack(t, b, f), k)
  {
    HoleIsEarlier(t, b, k);
    FillCell(t, Holes(t, b), f, CachedKey(b), k);
  }

  lemma SpreadSharesOut(t: Cells, b: At, f: real)
    requires Impossible(t, b) && 0.0 <= f <= 1.0
    ensures SharedOut(t, SpreadBack(t, b, f), b, f)
  {
    var s, u := EarlierPrompts(t, b), SpreadBack(t, b, f);
    forall p | p in s ensures HoldsShare(u, Key(b.res, CACHED, p.ts), t[p], f) {
      ShareOfEarlier(t, b, f, p);
    }
    forall k | k != CachedKey(b) && !(k.res == b.res && k.metric == CACHED && Key(b.res, PROMPT, k.ts) in s)
      ensures Unchanged(t, u, k)
    {
      StaysElsewhere(t, b, f, k);
    }
    FillCell(t, Holes(t, b), f, CachedKey(b), CachedKey(b));
  }

  lemma EarlierIsHole(t: Cells, b: At, p: Key)
    requires p in EarlierPrompts(t, b)
    ensures p == Key(b.res, PROMPT, p.ts)
    ensures Key(b.res, CACHED, p.ts) in Holes(t, b) && Holes(t, b)[Key(b.res, CACHED, p.ts)] == t[p]
  {
  }

  lemma HoleIsEarlier(t: Cells, b: At, k: Key)
    ensures k in Holes(t, b) ==> k == Key(b.res, CACHED, k.ts) && Key(b.res, PROMPT, k.ts) in EarlierPrompts(t, b)
  {
  }

  /** The bucket the repair was written for; and the limits of either tier, which a bucket must exceed:
      what the hardware could do in its time, and twice what was asked for. */
  lemma ImpossibleExamples(ts: int)
    ensures Impossible(map[Key(60, "tok_cached", ts) := 772018048.0], At(60, ts))
    ensures !Impossible(map[Key(60, "tok_cached", ts) := 30000000.0], At(60, ts))
    ensures !Impossible(map[Key(60, "tok_cached", ts) := 80000000.0, Key(60, "tok_prompt", ts) := 40000000.0], At(60, ts))
    ensures Impossible(map[Key(60, "tok_cached", ts) := 80000001.0, Key(60, "tok_prompt", ts) := 40000000.0], At(60, ts))
    ensures !Impossible(map[Key(600, "tok_cached", ts) := 300000000.0], At(600, ts))
    ensures Impossible(map[Key(600, "tok_cached", ts) := 300000001.0], At(600, ts))
  {
  }

  // ------------------------------------------------------------------ every bucket

  ghost predicate Distinct(bs: seq<At>) {
    forall i, j :: 0 <= i < j < |bs| ==> bs[i] != bs[j]
  }

  /** The bad buckets in the order they were read, each once. */
  ghost predicate Lists(bs: seq<At>, s: set<At>) {
    Distinct(bs) && forall x :: x in bs <==> x in s
  }

  ghost predicate SomeBad(t: Cells, bs: seq<At>) {
    Distinct(bs) && forall x :: x in bs ==> x in Bad(t)
  }

  lemma SomeBadPrefix(t: Cells, bs: seq<At>)
    requires SomeBad(t, bs) && bs != []
    ensures SomeBad(t, bs[..|bs|-1]) && bs[|bs|-1] in Bad(t) && bs[|bs|-1] !in bs[..|bs|-1]
    ensures forall x :: x in bs <==> x in bs[..|bs|-1] || x == bs[|bs|-1]
  {
    assert bs == bs[..|bs|-1] + [bs[|bs|-1]];
  }

  lemma {:induction false} RepairedAllBad(t: Cells, bs: seq<At>)
    requires Tiered(t) && SomeBad(t, bs)
    ensures Tiered(RepairedAll(t, bs))
    ensures forall x :: x in Bad(RepairedAll(t, bs)) <==> x in Bad(t) && x !in bs
    ensures forall x :: x in Bad(t) && x !in bs ==> Total(RepairedAll(t, bs), CachedKey(x)) == Total(t, CachedKey(x))
  {
    if bs != [] {
      var init, b := bs[..|bs|-1], bs[|bs|-1];
      SomeBadPrefix(t, bs);
      RepairedAllBad(t, init);
      BadMeaning(RepairedAll(t, init), b);
      RepairedBad(RepairedAll(t, init), b);
      RepairedTiered(RepairedAll(t, init), b);
    }
  }

  /** NOTHING IMPOSSIBLE IS LEFT, in whatever order the bad buckets come. */
  lemma {:induction false} RepairLeavesNoneImpossible(t: Cells, bs: seq<At>)
    requires Tiered(t) && Lists(bs, Bad(t))
    ensures forall b :: !Impossible(RepairedAll(t, bs), b)
  {
    RepairedAllBad(t, bs);
    forall b ensures !Impossible(RepairedAll(t, bs), b) {
      BadMeaning(RepairedAll(t, bs), b);
    }
  }

  /** Sum over the run of (placed minus removed) in one tier. */
  ghost function Balance(t: Cells, bs: seq<At>, res: int): real {
    if bs == [] then 0.0 else
      var init, b := bs[..|bs|-1], bs[|bs|-1];
      Balance(t, init, res) + if res == b.res then PutBack(RepairedAll(t, init), b) - Total(t, CachedKey(b)) else 0.0
  }

  lemma {:induction false} RepairBalance(t: Cells, bs: seq<At>, res: int)
    requires Tiered(t) && SomeBad(t, bs)
    ensures CachedTotal(RepairedAll(t, bs), res) == CachedTotal(t, res) + Balance(t, bs, res)
  {
    if bs != [] {
      var init, b := bs[..|bs|-1], bs[|bs|-1];
      SomeBadPrefix(t, bs);
      RepairBalance(t, init, res);
      RepairedAllBad(t, init);
      BadMeaning(RepairedAll(t, init), b);
      RepairedTotal(RepairedAll(t, init), b, res);
      PlacedIsPutBack(RepairedAll(t, init), b);
    }
  }

  /** Every bad bucket found room for all of its tokens. */
  ghost predicate RoomSuffices(t: Cells, bs: seq<At>) {
    bs != [] ==>
      var init, b := bs[..|bs|-1], bs[|bs|-1];
      RoomSuffices(t, init) && Total(t, CachedKey(b)) <= PromptsRead(RepairedAll(t, init), b)
  }

  lemma {:induction false} NoBalance(t: Cells, bs: seq<At>, res: int)
    requires Tiered(t) && SomeBad(t, bs) && RoomSuffices(t, bs)
    ensures Balance(t, bs, res) == 0.0
  {
    if bs != [] {
      var init, b := bs[..|bs|-1], bs[|bs|-1];
      SomeBadPrefix(t, bs);
      NoBalance(t, init, res);
      RepairedAllBad(t, init);
    }
  }

  /** CONSERVATION: each tier's cached total changes by exactly what was placed minus what was
      removed - and by nothing at all when there was room. */
  lemma {:induction false} RepairConserves(t: Cells, bs: seq<At>, res: int)
    requires Tiered(t) && Lists(bs, Bad(t))
    ensures CachedTotal(RepairedAll(t, bs), res) == CachedTotal(t, res) + Balance(t, bs, res)
    ensures RoomSuffices(t, bs) ==> CachedTotal(RepairedAll(t, bs), res) == CachedTotal(t, res)
  {
    RepairBalance(t, bs, res);
    if RoomSuffices(t, bs) {
      NoBalance(t, bs, res);
    }
  }

  /** Some repaired bucket of the same tier lies after this cell. */
  ghost predicate BadLater(bs: seq<At>, k: Key) {
    exists b :: b in bs && b.res == k.res && k.ts < b.ts
  }

  /** A cell after the repair of `bs`: as before unless it is a cached one; changed only when it was
      bad or said nothing; still there only when it lies before a bad bucket in its tier, had prompts,
      and says no more than was read; gone only when it was bad. */
  ghost predicate OnlyHoles(t: Cells, u: Cells, bs: seq<At>, k: Key) {
    !Unchanged(t, u, k) ==>
      var read := Total(t, Key(k.res, PROMPT, k.ts));
      && k.metric == CACHED
      && (At(k.res, k.ts) in bs || Total(t, k) == 0.0)
      && (k in u ==> BadLater(bs, k) && read > 0.0 && 0.0 <= Total(u, k) <= read)
      && (k !in u ==> At(k.res, k.ts) in bs)
  }

  /** ONLY HOLES ARE FILLED: every other metric keeps its rows; a cached cell that differs from
      before was a bad bucket, or lies before one in its tier where prompts were read while the
      cache counter said nothing - and what is there now never says more than was read. */
  lemma {:induction false} RepairTouchesOnlyHoles(t: Cells, bs: seq<At>, k: Key)
    requires Tiered(t) && SomeBad(t, bs)
    ensures OnlyHoles(t, RepairedAll(t, bs), bs, k)
  {
    if bs != [] {
      var init, b := bs[..|bs|-1], bs[|bs|-1];
      SomeBadPrefix(t, bs);
      var p := Key(k.res, PROMPT, k.ts);
      RepairTouchesOnlyHoles(t, init, k);
      RepairTouchesOnlyHoles(t, init, p);
      RepairedAllBad(t, init);
      BadMeaning(RepairedAll(t, init), b);
      SameTotal(t, RepairedAll(t, init), p);
      RepairTouchesStep(t, RepairedAll(t, init), init, b, k);
    }
  }

  lemma RepairTouchesStep(t: Cells, before: Cells, init: seq<At>, b: At, k: Key)
    requires Tiered(before) && Impossible(before, b)
    requires Total(before, Key(k.res, PROMPT, k.ts)) == Total(t, Key(k.res, PROMPT, k.ts))
    requires OnlyHoles(t, before, init, k)
    ensures OnlyHoles(t, Repaired(before, b), init + [b], k)
  {
    var u, h := Repaired(before, b), Holes(before, b);
    RepairedCell(before, b, k);
    if k in h {
      assert b in init + [b] && b.res == k.res && k.ts < b.ts;
      assert BadLater(init + [b], k);
      if Unchanged(t, before, k) {
        SameTotal(t, before, k);
      }
    } else if k == CachedKey(b) {
      assert At(k.res, k.ts) == b && b in init + [b];
    } else {
      SameTotal(before, u, k);
      if BadLater(init, k) {
        var x :| x in init && x.res == k.res && k.ts < x.ts;
        assert x in init + [b];
      }
    }
  }

  /** A SECOND RUN FINDS NOTHING: with no impossible bucket there is nothing to list, and an empty
      list repairs nothing. */
  lemma {:induction false} RepairTwice(t: Cells, bs: seq<At>, again: seq<At>)
    requires Tiered(t) && Lists(bs, Bad(t)) && Lists(again, Bad(RepairedAll(t, bs)))
    ensures again == [] && RepairedAll(RepairedAll(t, bs), again) == RepairedAll(t, bs)
  {
    RepairedAllBad(t, bs);
    NoneListed(again, Bad(RepairedAll(t, bs)));
  }

  lemma NoneListed(bs: seq<At>, s: set<At>)
    requires Lists(bs, s)
    ensures bs == [] || exists x :: x in s
  {
    if bs != [] {
      assert bs[0] in bs;
    }
  }

  // ------------------------------------------------------------------ on the table itself

  /** The totals SQL computes from the stored rows. */
  function Totals(t: Table): Cells {
    map k | k in t :: Worth(t[k])
  }

  function Worth(r: Row): real { r.avg * r.n }

  /** The row of a bucket is worth what was counted in it. */
  lemma {:induction false} RowIsWorthItsSum(vs: seq<real>)
    requires vs != []
    ensures Worth(ToRow(Fold(vs))) == Sum(vs)
  {
    StoredIsAverage(vs);
  }

  /** Every row is one that was there, or a share written as one value. */
  ghost predicate KeptOrShare(was: Table, now: Table) {
    forall k :: k in now && !(k in was && now[k] == was[k]) ==> now[k] == Row(now[k].avg, now[k].avg, now[k].avg, 1.0)
  }

  /** One line of the report: bucket, tokens in it, tokens spread back. */
  datatype Spread = Spread(at: At, tokens: real, placed: real)

  /** The scan for bad buckets, in whatever order the table is read. */
  method FindBad(db: Db) returns (bad: seq<At>)
    ensures Lists(bad, Bad(Totals(db.rollup)))
  {
    ghost var t := Totals(db.rollup);
    bad := [];
    var todo := db.rollup.Keys;
    while todo != {}
      invariant todo <= db.rollup.Keys
      invariant Distinct(bad)
      invariant forall b :: b in bad <==> Impossible(t, b) && CachedKey(b) !in todo
    {
      var k :| k in todo;
      todo := todo - {k};
      if k.metric == CACHED && Impossible(Totals(db.rollup), At(k.res, k.ts)) {
        assert CachedKey(At(k.res, k.ts)) == k;
        bad := bad + [At(k.res, k.ts)];
      }
    }
    forall b ensures b in bad <==> b in Bad(t) {
      BadMeaning(t, b);
    }
  }

  /** The holes of one bad bucket, and the prompt tokens read in them. */
  method FindHoles(t: Cells, b: At) returns (holes: map<Key, real>, room: real)
    ensures holes == Holes(t, b) && room == Room(t, b)
  {
    holes, room := map[], 0.0;
    var todo := t.Keys;
    while todo != {}
      invariant todo <= t.Keys
      invariant room == SumMap(holes)
      invariant HolesSoFar(t, b, holes, todo)
    {
      var p :| p in todo;
      OneMoreHole(t, b, holes, todo, p);
      todo := todo - {p};
      if p.res == b.res && p.metric == PROMPT && Hole(t, b, p.ts) {
        var k := Key(b.res, CACHED, p.ts);
        SumMapAdd(holes, k, Total(t, p));
        holes := holes[k := Total(t, p)];
        room := room + Total(t, p);
      }
    }
    AllHoles(t, b, holes);
  }

  lemma AllHoles(t: Cells, b: At, holes: map<Key, real>)
    requires HolesSoFar(t, b, holes, {})
    ensures holes == Holes(t, b)
  {
  }

  /** The holes of all rows but those still to look at. */
  ghost predicate HolesSoFar(t: Cells, b: At, holes: map<Key, real>, todo: set<Key>) {
    && (forall k :: k in holes <==> k in Holes(t, b) && Key(b.res, PROMPT, k.ts) !in todo)
    && (forall k :: k in holes ==> holes[k] == Holes(t, b)[k])
  }

  lemma OneMoreHole(t: Cells, b: At, holes: map<Key, real>, todo: set<Key>, p: Key)
    requires p in todo && p in t && HolesSoFar(t, b, holes, todo)
    ensures
      var k := Key(b.res, CACHED, p.ts);
      if p.res == b.res && p.metric == PROMPT && Hole(t, b, p.ts)
      then k !in holes && HolesSoFar(t, b, holes[k := Total(t, p)], todo - {p})
      else HolesSoFar(t, b, holes, todo - {p})
  {
    var k, all := Key(b.res, CACHED, p.ts), Holes(t, b);
    var found := p.res == b.res && p.metric == PROMPT && Hole(t, b, p.ts);
    assert found ==> p == Key(b.res, PROMPT, p.ts) && k in all && all[k] == Total(t, p);
    OneMoreOf(all, b.res, holes, todo, p, k, found);
  }

  lemma OneMoreOf(all: map<Key, real>, res: int, holes: map<Key, real>, todo: set<Key>, p: Key, k: Key, found: bool)
    requires p in todo && k == Key(res, CACHED, p.ts)
    requires forall x :: x in all ==> x.res == res && x.metric == CACHED
    requires found <==> p == Key(res, PROMPT, p.ts) && k in all
    requires forall x :: x in holes <==> x in all && Key(res, PROMPT, x.ts) !in todo
    requires forall x :: x in holes ==> holes[x] == all[x]
    ensures found ==> k !in holes
    ensures
      var now := if found then holes[k := all[k]] else holes;
      && (forall x :: x in now <==> x in all && Key(res, PROMPT, x.ts) !in todo - {p})
      && (forall x :: x in now ==> now[x] == all[x])
  {
    forall x | x in all && Key(res, PROMPT, x.ts) == p ensures found && x == k {
      assert x == Key(res, CACHED, x.ts);
    }
  }

  /** A share as it is stored. */
  function Share(v: real): Row { Row(v, v, v, 1.0) }

  /** Writes the shares hole by hole. */
  method WriteShares(db: Db, shares: map<Key, real>)
    modifies db`rollup
    ensures forall k :: k in db.rollup <==> k in old(db.rollup) || k in shares
    ensures forall k :: k in db.rollup ==> db.rollup[k] == if k in shares then Share(shares[k]) else old(db.rollup)[k]
  {
    ghost var was := db.rollup;
    var todo := shares.Keys;
    while todo != {}
      invariant todo <= shares.Keys
      invariant forall k :: k in db.rollup <==> k in was || (k in shares && k !in todo)
      invariant forall k :: k in db.rollup ==> db.rollup[k] == if k in shares && k !in todo then Share(shares[k]) else was[k]
    {
      var k :| k in todo;
      todo := todo - {k};
      db.rollup := db.rollup[k := Share(shares[k])];
    }
  }

  lemma SumMapAdd(m: map<Key, real>, k: Key, v: real)
    requires k !in m
    ensures SumMap(m[k := v]) == SumMap(m) + v
  {
    SumMapRemove(m[k := v], k);
    assert m[k := v] - {k} == m;
  }

  /** What one bad bucket gives to each of its holes. */
  method Plan(t: Cells, b: At) returns (shares: map<Key, real>, placed: real)
    requires Tiered(t) && Impossible(t, b)
    ensures shares == Scaled(Holes(t, b), FactorOf(t, b)) && placed == Placed(t, b)
  {
    var holes, room := FindHoles(t, b);
    var factor := Factor(Total(t, CachedKey(b)), room);
    PlacedIsRoomShare(t, b);
    shares, placed := Scaled(holes, factor), room * factor;
  }

  /** One bad bucket: its shares written hole by hole, then its row deleted. */
  method RepairOne(db: Db, b: At) returns (placed: real)
    requires Tiered(Totals(db.rollup)) && Impossible(Totals(db.rollup), b)
    modifies db`rollup
    ensures Totals(db.rollup) == Repaired(Totals(old(db.rollup)), b)
    ensures placed == PutBack(Totals(old(db.rollup)), b)
    ensures KeptOrShare(old(db.rollup), db.rollup)
  {
    ghost var was := db.rollup;
    var shares;
    shares, placed := Plan(Totals(db.rollup), b);
    WriteShares(db, shares);
    db.rollup := db.rollup - {CachedKey(b)};
    SharesAsTotals(was, db.rollup, shares, b);
    RepairedFromShares(Totals(was), Totals(db.rollup), shares, b);
    PlacedIsPutBack(Totals(was), b);
  }

  lemma RepairedFromShares(t: Cells, u: Cells, shares: map<Key, real>, b: At)
    requires Tiered(t) && Impossible(t, b) && shares == Scaled(Holes(t, b), FactorOf(t, b))
    requires forall k :: k in u <==> (k in t || k in shares) && k != CachedKey(b)
    requires forall k :: k in u ==> u[k] == if k in shares then shares[k] else t[k]
    ensures u == Repaired(t, b)
  {
    FactorOfRange(t, b);
    WrittenIsSpread(t, u, Holes(t, b), b, FactorOf(t, b));
  }

  /** The rows a repair wrote, read back as totals. */
  lemma SharesAsTotals(was: Table, now: Table, shares: map<Key, real>, b: At)
    requires forall k :: k in now <==> (k in was || k in shares) && k != CachedKey(b)
    requires forall k :: k in now ==> now[k] == if k in shares then Share(shares[k]) else was[k]
    ensures forall k :: k in Totals(now) <==> (k in Totals(was) || k in shares) && k != CachedKey(b)
    ensures forall k :: k in Totals(now) ==> Totals(now)[k] == if k in shares then shares[k] else Totals(was)[k]
    ensures KeptOrShare(was, now)
  {
    forall k | k in now && k in shares ensures Totals(now)[k] == shares[k] {
      ShareIsWorth(shares[k]);
    }
  }

  lemma ShareIsWorth(v: real)
    ensures Worth(Share(v)) == v
  {
  }

  /** Reading a written table cell by cell gives the spread one. */
  lemma WrittenIsSpread(t: Cells, u: Cells, h: map<Key, real>, b: At, f: real)
    requires h == Holes(t, b) && 0.0 <= f <= 1.0
    requires forall k :: k in u <==> (k in t || k in h) && k != CachedKey(b)
    requires forall k :: k in u && k !in h ==> u[k] == t[k]
    requires forall k :: k in u && k in h ==> u[k] == Scaled(h, f)[k]
    ensures u == SpreadBack(t, b, f)
  {
    var r := SpreadBack(t, b, f);
    assert u.Keys == r.Keys;
    forall k | k in u ensures u[k] == r[k] {
      FillCell(t, h, f, CachedKey(b), k);
    }
  }

  /** The start-up repair. Nothing to do unless both metrics have ever been stored. */
  method RepairImpossibleTokenBuckets(db: Db, names: set<Metric>) returns (out: seq<Spread>, ghost order: seq<At>)
    requires Tiered(Totals(db.rollup))
    modifies db`rollup
    ensures CACHED !in names || PROMPT !in names ==> out == [] && db.rollup == old(db.rollup)
    ensures CACHED in names && PROMPT in names ==>
              && Lists(order, Bad(Totals(old(db.rollup))))
              && Totals(db.rollup) == RepairedAll(Totals(old(db.rollup)), order)
              && KeptOrShare(old(db.rollup), db.rollup)
              && out == Report(Totals(old(db.rollup)), order)
  {
    out, order := [], [];
    if CACHED !in names || PROMPT !in names {
      return;
    }
    var bad := FindBad(db);
    order := bad;
    BadListed(Totals(db.rollup), bad);
    out := RepairListed(db, bad);
  }

  /** The listed buckets, one after the other. */
  method RepairListed(db: Db, bad: seq<At>) returns (out: seq<Spread>)
    requires Tiered(Totals(db.rollup)) && SomeBad(Totals(db.rollup), bad)
    modifies db`rollup
    ensures Totals(db.rollup) == RepairedAll(Totals(old(db.rollup)), bad)
    ensures KeptOrShare(old(db.rollup), db.rollup)
    ensures out == Report(Totals(old(db.rollup)), bad)
  {
    ghost var was := db.rollup;
    ghost var t := Totals(was);
    ghost var now := t;
    out := [];
    assert bad[..0] == [];
    for i := 0 to |bad|
      invariant now == Totals(db.rollup) && now == RepairedAll(t, bad[..i])
      invariant KeptOrShare(was, db.rollup)
      invariant out == Report(t, bad[..i])
    {
      var b := bad[i];
      NextIsBad(t, bad, i);
      RepairedAllStep(t, bad, i);
      ghost var before := db.rollup;
      var sum := Total(Totals(db.rollup), CachedKey(b));
      var placed := RepairOne(db, b);
      KeptOrShareStep(was, before, db.rollup);
      ReportStep(t, bad, i);
      out := out + [Spread(b, sum, placed)];
      now := Totals(db.rollup);
    }
    assert bad[..|bad|] == bad;
  }

  lemma KeptOrShareStep(a: Table, b: Table, c: Table)
    requires KeptOrShare(a, b) && KeptOrShare(b, c)
    ensures KeptOrShare(a, c)
  {
  }

  lemma {:induction false} RepairedAllStep(t: Cells, bs: seq<At>, i: nat)
    requires i < |bs|
    ensures RepairedAll(t, bs[..i+1]) == Repaired(RepairedAll(t, bs[..i]), bs[i])
  {
    assert bs[..i+1][..i] == bs[..i];
  }

  /** One value for each element, made of it and of those before it. */
  ghost function EachAfter<X, Y>(f: (seq<X>, X) -> Y, xs: seq<X>): (ys: seq<Y>)
    ensures |ys| == |xs| && forall i :: 0 <= i < |xs| ==> ys[i] == f(xs[..i], xs[i])
  {
    seq(|xs|, i requires 0 <= i < |xs| => f(xs[..i], xs[i]))
  }

  lemma EachAfterStep<X, Y>(f: (seq<X>, X) -> Y, xs: seq<X>, i: nat)
    requires i < |xs|
    ensures EachAfter(f, xs[..i+1]) == EachAfter(f, xs[..i]) + [f(xs[..i], xs[i])]
  {
    forall j | 0 <= j <= i ensures xs[..i+1][..j] == xs[..j] {
    }
    forall j | 0 <= j < i ensures xs[..i][..j] == xs[..j] {
    }
  }

  /** Which bucket it is, what it held in the beginning, and what of that was placed back when its turn came. */
  ghost function Line(t: Cells, before: seq<At>, b: At): Spread {
    Spread(b, Total(t, CachedKey(b)), PutBack(RepairedAll(t, before), b))
  }

  ghost function LineIn(t: Cells): (seq<At>, At) -> Spread {
    (before, b) => Line(t, before, b)
  }

  /** What a repair of these buckets reports: one line for each, in order. */
  ghost function Report(t: Cells, bs: seq<At>): seq<Spread> {
    EachAfter(LineIn(t), bs)
  }

  lemma ReportStep(t: Cells, bs: seq<At>, i: nat)
    requires i < |bs|
    ensures Report(t, bs[..i+1]) == Report(t, bs[..i]) + [Line(t, bs[..i], bs[i])]
  {
    EachAfterStep(LineIn(t), bs, i);
  }

  lemma BadListed(t: Cells, bs: seq<At>)
    requires Lists(bs, Bad(t))
    ensures SomeBad(t, bs)
  {
  }

  /** When its turn comes a bad bucket is still there, with all its tokens. */
  lemma {:induction false} NextIsBad(t: Cells, bs: seq<At>, i: nat)
    requires Tiered(t) && SomeBad(t, bs) && i < |bs|
    ensures SomeBad(t, bs[..i]) && Tiered(RepairedAll(t, bs[..i]))
    ensures Impossible(RepairedAll(t, bs[..i]), bs[i])
    ensures Total(RepairedAll(t, bs[..i]), CachedKey(bs[i])) == Total(t, CachedKey(bs[i]))
  {
    RepairedAllBad(t, bs[..i]);
    assert bs[i] in Bad(t) && bs[i] !in bs[..i];
    BadMeaning(RepairedAll(t, bs[..i]), bs[i]);
  }
}
