/** The query strings of the history API (`lss-collector/src/query.rs`), byte by byte: the decoder
    undoes every way of writing a string with the percent-encoding of section 2.1 of RFC 3986 and
    `+` for a space. */
module Queries {
  import opened Wrappers

  type Byte = b: int | 0 <= b < 256
  type Bytes = seq<Byte>

  const PERCENT: Byte := 0x25
  const PLUS: Byte := 0x2B
  const SPACE: Byte := 0x20
  const AMPERSAND: Byte := 0x26
  const EQUALS: Byte := 0x3D
  const QUESTION: Byte := 0x3F

  // ------------------------------------------------------------------ one escape

  function HexValue(c: Byte): (v: Option<Byte>)
    ensures v.Some? ==> v.value < 16
  {
    if 0x30 <= c <= 0x39 then Some(c - 0x30)
    else if 0x41 <= c <= 0x46 then Some(c - 0x41 + 10)
    else if 0x61 <= c <= 0x66 then Some(c - 0x61 + 10)
    else None
  }

  const LOWER: seq<int> := [0x30, 0x31, 0x32, 0x33, 0x34, 0x35, 0x36, 0x37, 0x38, 0x39, 0x61, 0x62, 0x63, 0x64, 0x65, 0x66]
  const UPPER: seq<int> := [0x30, 0x31, 0x32, 0x33, 0x34, 0x35, 0x36, 0x37, 0x38, 0x39, 0x41, 0x42, 0x43, 0x44, 0x45, 0x46]

  /** The sixteen digits in both cases, and no other byte. */
  lemma HexDigits(c: Byte, v: nat)
    requires v < 16
    ensures HexValue(c) == Some(v) <==> c == LOWER[v] || c == UPPER[v]
  {
  }

  /** `u8::from_str_radix` of two characters in base 16: a leading `+` is a sign there, not an error. */
  function HexPair(hi: Byte, lo: Byte): Option<Byte> {
    if HexValue(lo).None? then None
    else if hi == PLUS then HexValue(lo)
    else if HexValue(hi).None? then None
    else Some(HexValue(hi).value * 16 + HexValue(lo).value)
  }

  /** The text from a position on, decoded. */
  function Decoded(s: Bytes): Bytes {
    if s == [] then []
    else if s[0] == PERCENT && |s| > 2 && HexPair(s[1], s[2]).Some? then [HexPair(s[1], s[2]).value] + Decoded(s[3..])
    else if s[0] == PLUS then [SPACE] + Decoded(s[1..])
    else [s[0]] + Decoded(s[1..])
  }

  predicate EscapeAt(b: Bytes, i: nat) {
    i + 2 < |b| && b[i] == PERCENT && HexPair(b[i+1], b[i+2]).Some?
  }

  /** What is decoded at one position, and where it goes on. */
  lemma DecodeStep(b: Bytes, i: nat)
    requires i < |b|
    ensures EscapeAt(b, i) ==> Decoded(b[i..]) == [HexPair(b[i+1], b[i+2]).value] + Decoded(b[i+3..])
    ensures !EscapeAt(b, i) ==> Decoded(b[i..]) == [if b[i] == PLUS then SPACE else b[i]] + Decoded(b[i+1..])
  {
    var rest := b[i..];
    if EscapeAt(b, i) {
      assert rest[3..] == b[i+3..];
    } else {
      assert rest[1..] == b[i+1..];
    }
  }

  /** One more byte out of what is left keeps the whole. */
  lemma OneMoreByte(out: Bytes, c: Byte, left: Bytes, rest: Bytes, whole: Bytes)
    requires out + left == whole && left == [c] + rest
    ensures out + [c] + rest == whole
  {
    assert out + [c] + rest == out + ([c] + rest);
  }

  method PercentDecode(b: Bytes) returns (out: Bytes)
    ensures out == Decoded(b)
  {
    out := [];
    var i := 0;
    ghost var whole, left := Decoded(b), Decoded(b[0..]);
    assert b[0..] == b;
    while i < |b|
      invariant 0 <= i <= |b|
      invariant left == Decoded(b[i..]) && out + left == whole
    {
      DecodeStep(b, i);
      var byte, next := if b[i] == PLUS then SPACE else b[i], i + 1;
      if b[i] == PERCENT && i + 2 < |b| {
        var pair := HexPair(b[i+1], b[i+2]);
        if pair.Some? {
          byte, next := pair.value, i + 3;
        }
      }
      OneMoreByte(out, byte, left, Decoded(b[next..]), whole);
      left := Decoded(b[next..]);
      out := out + [byte];
      i := next;
    }
  }

  // ------------------------------------------------------------------ what an encoder may write

  /** One byte as it may be written: itself, a `+`, or an escape with digits of either case. */
  datatype Piece = Plain(b: Byte) | PlusSpace | Escape(hi: Byte, lo: Byte)

  predicate Proper(p: Piece) {
    match p
    case Plain(b) => b != PERCENT && b != PLUS
    case PlusSpace => true
    case Escape(hi, lo) => HexValue(hi).Some? && HexValue(lo).Some?
  }

  function Written(p: Piece): Bytes {
    match p
    case Plain(b) => [b]
    case PlusSpace => [PLUS]
    case Escape(hi, lo) => [PERCENT, hi, lo]
  }

  function Digit(c: Byte): (v: Byte)
    ensures v < 16 && (HexValue(c).Some? ==> HexValue(c) == Some(v))
  {
    if HexValue(c).Some? then HexValue(c).value else 0
  }

  function Meant(p: Piece): Byte {
    match p
    case Plain(b) => b
    case PlusSpace => SPACE
    case Escape(hi, lo) => Digit(hi) * 16 + Digit(lo)
  }

  predicate AllProper(ps: seq<Piece>) {
    forall i :: 0 <= i < |ps| ==> Proper(ps[i])
  }

  function Text(ps: seq<Piece>): Bytes {
    if ps == [] then [] else Written(ps[0]) + Text(ps[1..])
  }

  function Meaning(ps: seq<Piece>): Bytes {
    if ps == [] then [] else [Meant(ps[0])] + Meaning(ps[1..])
  }

  /** DECODING UNDOES ENCODING, however each byte was written. */
  lemma {:induction false} DecodeUndoesEncode(ps: seq<Piece>)
    requires AllProper(ps)
    ensures Decoded(Text(ps)) == Meaning(ps)
  {
    if ps != [] {
      var s, w, rest := Text(ps), Written(ps[0]), Text(ps[1..]);
      DecodeUndoesEncode(ps[1..]);
      assert s[|w|..] == rest;
      assert s[0] == w[0];
      if ps[0].Escape? {
        assert s[1] == ps[0].hi && s[2] == ps[0].lo;
      }
    }
  }

  function HexDigit(v: Byte): (c: Byte)
    requires v < 16
    ensures HexValue(c) == Some(v)
  {
    if v < 10 then v + 0x30 else v - 10 + 0x41
  }

  function EncodeByte(b: Byte): (p: Piece)
    ensures Proper(p) && Meant(p) == b
  {
    if 0x30 <= b <= 0x39 || 0x41 <= b <= 0x5A || 0x61 <= b <= 0x7A then Plain(b) else Escape(HexDigit(b / 16), HexDigit(b % 16))
  }

  /** A cautious encoder: everything but letters and digits is escaped. */
  function Encode(s: Bytes): (ps: seq<Piece>)
    ensures AllProper(ps)
  {
    if s == [] then [] else [EncodeByte(s[0])] + Encode(s[1..])
  }

  lemma {:induction false} EncodeMeans(s: Bytes)
    ensures Meaning(Encode(s)) == s
  {
    if s != [] {
      EncodeMeans(s[1..]);
      MeaningCons(EncodeByte(s[0]), Encode(s[1..]));
      assert s == [s[0]] + s[1..];
    }
  }

  lemma {:induction false} MeaningCons(p: Piece, ps: seq<Piece>)
    ensures Meaning([p] + ps) == [Meant(p)] + Meaning(ps)
  {
    assert ([p] + ps)[1..] == ps;
  }

  /** ON EVERY BYTE STRING: there is a way to write it, and decoding gives it back. */
  lemma {:induction false} EveryStringRoundTrips(s: Bytes)
    ensures Meaning(Encode(s)) == s && Decoded(Text(Encode(s))) == s
  {
    EncodeMeans(s);
    DecodeUndoesEncode(Encode(s));
  }

  /** An escape the RFC does not know: a percent sign, a plus and one digit are read as one byte. */
  lemma {:induction false} SignedEscape(lo: Byte, rest: Bytes)
    requires HexValue(lo).Some?
    ensures Decoded([PERCENT, PLUS, lo] + rest) == [HexValue(lo).value] + Decoded(rest)
  {
    assert ([PERCENT, PLUS, lo] + rest)[3..] == rest;
  }

  /** WHICH PERCENT SIGNS STAY: one is read as itself, and what follows for itself, exactly when no
      two characters follow that are two digits, or a sign and a digit. */
  lemma {:induction false} StrayPercent(s: Bytes)
    ensures Decoded([PERCENT] + s) == [PERCENT] + Decoded(s) <==> !(|s| >= 2 && HexPair(s[0], s[1]).Some?)
  {
    var t := [PERCENT] + s;
    assert t[1..] == s;
    if |s| >= 2 && HexPair(s[0], s[1]).Some? {
      assert t[3..] == s[2..];
      assert Decoded(t) == [HexPair(s[0], s[1]).value] + Decoded(s[2..]);
      if HexPair(s[0], s[1]).value == PERCENT {
        TwoAndFive(s);
      }
    }
  }

  /** The escape of a percent sign is two plain characters when read for itself. */
  lemma {:induction false} TwoAndFive(s: Bytes)
    requires |s| >= 2 && HexPair(s[0], s[1]) == Some(PERCENT)
    ensures |Decoded(s)| == 2 + |Decoded(s[2..])|
  {
    assert s[0] == 0x32 && s[1] == 0x35;
    assert s[1..][1..] == s[2..];
    assert Decoded(s[1..]) == [s[1]] + Decoded(s[2..]);
  }

  // ------------------------------------------------------------------ splitting

  /** `split(sep)`: the pieces between the separators, at least one. */
  function Split(s: Bytes, sep: Byte): (parts: seq<Bytes>)
    ensures parts != []
  {
    if s == [] then [[]]
    else
      var rest := Split(s[1..], sep);
      if s[0] == sep then [[]] + rest else [[s[0]] + rest[0]] + rest[1..]
  }

  /** `split_once(sep)`. */
  function SplitOnce(s: Bytes, sep: Byte): Option<(Bytes, Bytes)> {
    if s == [] then None
    else if s[0] == sep then Some(([], s[1..]))
    else
      var rest := SplitOnce(s[1..], sep);
      if rest.None? then None else Some(([s[0]] + rest.value.0, rest.value.1))
  }

  function Join(parts: seq<Bytes>, sep: Byte): Bytes {
    if parts == [] then []
    else if |parts| == 1 then parts[0]
    else parts[0] + [sep] + Join(parts[1..], sep)
  }

  lemma {:induction false} SplitPrefix(a: Bytes, sep: Byte, b: Bytes)
    requires sep !in a
    ensures Split(a + [sep] + b, sep) == [a] + Split(b, sep)
    ensures Split(a, sep) == [a]
    ensures SplitOnce(a + [sep] + b, sep) == Some((a, b))
    ensures SplitOnce(a, sep).None?
  {
    if a == [] {
      assert ([sep] + b)[1..] == b && a + [sep] + b == [sep] + b;
    } else {
      SplitPrefix(a[1..], sep, b);
      assert (a + [sep] + b)[1..] == a[1..] + [sep] + b;
      assert [a[0]] + a[1..] == a;
    }
  }

  lemma {:induction false} SplitUndoesJoin(parts: seq<Bytes>, sep: Byte)
    requires parts != [] && forall i :: 0 <= i < |parts| ==> sep !in parts[i]
    ensures Split(Join(parts, sep), sep) == parts
  {
    if |parts| == 1 {
      SplitPrefix(parts[0], sep, []);
      assert parts == [parts[0]];
    } else {
      SplitUndoesJoin(parts[1..], sep);
      SplitPrefix(parts[0], sep, Join(parts[1..], sep));
      assert parts == [parts[0]] + parts[1..];
    }
  }

  // ------------------------------------------------------------------ the whole query

  type Params = map<Bytes, Bytes>

  /** One `key=value`; a key alone has an empty value, and no key at all is nothing. */
  function PairOf(pair: Bytes): Option<(Bytes, Bytes)> {
    var kv := if SplitOnce(pair, EQUALS).Some? then SplitOnce(pair, EQUALS).value else (pair, []);
    if kv.0 == [] then None else Some((Decoded(kv.0), Decoded(kv.1)))
  }

  /** Collected in order: of two pairs with one key the later counts. */
  function Collected(pairs: seq<Bytes>): Params {
    if pairs == [] then map[]
    else
      var rest := Collected(pairs[..|pairs|-1]);
      var kv := PairOf(pairs[|pairs|-1]);
      if kv.None? then rest else rest[kv.value.0 := kv.value.1]
  }

  function ParseQuery(url: Bytes): Params {
    var q := SplitOnce(url, QUESTION);
    Collected(Split(if q.Some? then q.value.1 else [], AMPERSAND))
  }

  /** A key and a value, each as it was written; without the equals sign there is no value. */
  datatype Field = Field(key: seq<Piece>, value: seq<Piece>, equals: bool)

  predicate ProperField(f: Field) {
    && AllProper(f.key) && AllProper(f.value) && (f.value != [] ==> f.equals)
    && AMPERSAND !in Text(f.key) && EQUALS !in Text(f.key) && AMPERSAND !in Text(f.value)
  }

  function FieldText(f: Field): Bytes {
    if f.equals then Text(f.key) + [EQUALS] + Text(f.value) else Text(f.key)
  }

  function FieldTexts(fs: seq<Field>): (ts: seq<Bytes>)
    ensures |ts| == |fs| && forall i :: 0 <= i < |fs| ==> ts[i] == FieldText(fs[i])
  {
    if fs == [] then [] else FieldTexts(fs[..|fs|-1]) + [FieldText(fs[|fs|-1])]
  }

  function Print(fs: seq<Field>): Bytes {
    Join(FieldTexts(fs), AMPERSAND)
  }

  /** What the printed fields say; of two with one key the later counts, and one without a key says
      nothing. */
  function Said(fs: seq<Field>): Params {
    if fs == [] then map[]
    else if fs[|fs|-1].key == [] then Said(fs[..|fs|-1])
    else Said(fs[..|fs|-1])[Meaning(fs[|fs|-1].key) := Meaning(fs[|fs|-1].value)]
  }

  lemma FieldIsParsed(f: Field)
    requires ProperField(f)
    ensures PairOf(FieldText(f)) == if f.key == [] then None else Some((Meaning(f.key), Meaning(f.value)))
  {
    SplitPrefix(Text(f.key), EQUALS, Text(f.value));
    DecodeUndoesEncode(f.key);
    DecodeUndoesEncode(f.value);
    if f.key != [] {
      assert Written(f.key[0]) != [];
    }
  }

  lemma {:induction false} FieldsAreCollected(fs: seq<Field>)
    requires forall i :: 0 <= i < |fs| ==> ProperField(fs[i])
    ensures Collected(FieldTexts(fs)) == Said(fs)
  {
    if fs != [] {
      FieldsAreCollected(fs[..|fs|-1]);
      FieldIsParsed(fs[|fs|-1]);
      assert FieldTexts(fs)[..|fs|-1] == FieldTexts(fs[..|fs|-1]);
    }
  }

  lemma NothingCollected()
    ensures Collected([[]]) == map[]
  {
    var none: seq<Bytes> := [[]];
    assert none[..0] == [];
  }

  /** A printed field holds no ampersand. */
  lemma FieldHasNoAmpersand(f: Field)
    requires ProperField(f)
    ensures AMPERSAND !in FieldText(f)
  {
  }

  /** THE QUERY ROUND TRIP: whatever was printed behind the question mark is read back, with every
      way of writing a byte and any path in front. */
  lemma {:induction false} QueryRoundTrip(path: Bytes, fs: seq<Field>)
    requires QUESTION !in path && forall i :: 0 <= i < |fs| ==> ProperField(fs[i])
    ensures ParseQuery(path + [QUESTION] + Print(fs)) == Said(fs)
  {
    SplitPrefix(path, QUESTION, Print(fs));
    if fs == [] {
      assert Print(fs) == [] && Split([], AMPERSAND) == [[]];
      NothingCollected();
    } else {
      forall i | 0 <= i < |fs| ensures AMPERSAND !in FieldTexts(fs)[i] {
        FieldHasNoAmpersand(fs[i]);
      }
      SplitUndoesJoin(FieldTexts(fs), AMPERSAND);
      FieldsAreCollected(fs);
    }
  }

  /** ... and without a question mark nothing is. */
  lemma {:induction false} NoQuestionNoQuery(url: Bytes)
    requires QUESTION !in url
    ensures ParseQuery(url) == map[]
  {
    SplitPrefix(url, QUESTION, []);
    assert Split([], AMPERSAND) == [[]];
    NothingCollected();
  }

  /** The fields say each entry of a map once, in some order. */
  ghost predicate Spells(fs: seq<Field>, m: Params) {
    && (forall i :: 0 <= i < |fs| ==> SaysEntry(fs[i], m))
    && (forall k :: k in m ==> SaidIn(fs, k))
  }

  ghost predicate SaysEntry(f: Field, m: Params) {
    ProperField(f) && f.key != [] && Meaning(f.key) in m && m[Meaning(f.key)] == Meaning(f.value)
  }

  ghost predicate SaidIn(fs: seq<Field>, k: Bytes) {
    exists i :: 0 <= i < |fs| && Meaning(fs[i].key) == k
  }

  lemma {:induction false} SaidAgrees(fs: seq<Field>, m: Params)
    requires forall i :: 0 <= i < |fs| ==> SaysEntry(fs[i], m)
    ensures forall k :: k in Said(fs) ==> k in m && Said(fs)[k] == m[k]
    ensures forall i :: 0 <= i < |fs| ==> Meaning(fs[i].key) in Said(fs)
  {
    if fs != [] {
      SaidAgrees(fs[..|fs|-1], m);
      forall i | 0 <= i < |fs| ensures Meaning(fs[i].key) in Said(fs) {
        assert i < |fs| - 1 ==> fs[..|fs|-1][i] == fs[i];
      }
    }
  }

  lemma {:induction false} SaidIs(fs: seq<Field>, m: Params)
    requires Spells(fs, m)
    ensures Said(fs) == m
  {
    SaidAgrees(fs, m);
    SameMap(Said(fs), m);
  }

  lemma SameMap(a: Params, b: Params)
    requires forall k :: k in a ==> k in b && a[k] == b[k]
    requires forall k :: k in b ==> k in a
    ensures a == b
  {
  }

  /** EVERY FINITE MAP comes back from its printing, in whatever order its entries were printed. */
  lemma MapRoundTrip(path: Bytes, fs: seq<Field>, m: Params)
    requires QUESTION !in path && Spells(fs, m)
    ensures ParseQuery(path + [QUESTION] + Print(fs)) == m
  {
    SaidIs(fs, m);
    QueryRoundTrip(path, fs);
  }

  function AsField(k: Bytes, v: Bytes): Field {
    Field(Encode(k), Encode(v), true)
  }

  lemma {:induction false} EncodeHasNoSeparators(s: Bytes)
    ensures AMPERSAND !in Text(Encode(s)) && EQUALS !in Text(Encode(s))
    ensures s != [] ==> Encode(s) != []
  {
    if s != [] {
      EncodeHasNoSeparators(s[1..]);
      assert Encode(s)[1..] == Encode(s[1..]);
    }
  }

  lemma AsFieldSays(k: Bytes, v: Bytes)
    requires k != []
    ensures ProperField(AsField(k, v)) && AsField(k, v).key != [] && Meaning(AsField(k, v).key) == k && Meaning(AsField(k, v).value) == v
  {
    EncodeHasNoSeparators(k);
    EncodeHasNoSeparators(v);
    EveryStringRoundTrips(k);
    EveryStringRoundTrips(v);
  }

  lemma OneMoreEntry(rest: seq<Field>, m: Params, k: Bytes)
    requires k in m && k != [] && Spells(rest, m - {k})
    ensures Spells(rest + [AsField(k, m[k])], m)
  {
    AsFieldSays(k, m[k]);
    OneMoreField(rest, m, AsField(k, m[k]));
  }

  lemma OneMoreField(rest: seq<Field>, m: Params, f: Field)
    requires SaysEntry(f, m) && Spells(rest, m - {Meaning(f.key)})
    ensures Spells(rest + [f], m)
  {
    var fs := rest + [f];
    forall i | 0 <= i < |fs| ensures SaysEntry(fs[i], m) {
      if i < |rest| {
        assert fs[i] == rest[i] && SaysEntry(rest[i], m - {Meaning(f.key)});
      }
    }
    forall x | x in m ensures SaidIn(fs, x) {
      assert x == Meaning(f.key) || x in m - {Meaning(f.key)};
      SaidInOneMore(rest, f, x);
    }
  }

  lemma SaidInOneMore(rest: seq<Field>, f: Field, x: Bytes)
    requires x == Meaning(f.key) || SaidIn(rest, x)
    ensures SaidIn(rest + [f], x)
  {
    var fs := rest + [f];
    assert fs[|rest|] == f;
    if i :| 0 <= i < |rest| && Meaning(rest[i].key) == x {
      assert fs[i] == rest[i];
    }
  }

  lemma SomeKeyOf(m: Params) returns (k: Bytes)
    requires m != map[]
    ensures k in m
  {
    var keys := m.Keys;
    assert keys == {} ==> m == map[];
    k :| k in keys;
  }

  /** ... and every finite map without an empty key can be printed. */
  lemma {:induction false} EveryMapCanBePrinted(m: Params) returns (fs: seq<Field>)
    requires [] !in m
    ensures Spells(fs, m)
    decreases m.Keys
  {
    fs := [];
    if m != map[] {
      var k := SomeKeyOf(m);
      assert (m - {k}).Keys < m.Keys;
      var rest := EveryMapCanBePrinted(m - {k});
      OneMoreEntry(rest, m, k);
      fs := rest + [AsField(k, m[k])];
    }
  }
}

/** The grid of the status page (`fill_status_series`). */
module StatusGrid {
  import opened Wrappers

  /** One minute row as it was read back. */
  datatype MinuteRow = MinuteRow(ts: int, sum: real, n: real)

  /** To one decimal, halves away from zero. */
  function Tenths(x: real): real {
    (if x >= 0.0 then (x * 10.0 + 0.5).Floor else -((-x * 10.0 + 0.5).Floor)) as real / 10.0
  }

  /** The nearest tenth, the further from zero of two. */
  lemma TenthsIsNearest(x: real)
    ensures (Tenths(x) * 10.0).Floor as real == Tenths(x) * 10.0
    ensures -0.05 <= x - Tenths(x) <= 0.05
    ensures x - Tenths(x) == 0.05 ==> x < 0.0
    ensures x - Tenths(x) == -0.05 ==> x > 0.0
  {
    var k := if x >= 0.0 then (x * 10.0 + 0.5).Floor else -((-x * 10.0 + 0.5).Floor);
    assert Tenths(x) == k as real / 10.0;
  }

  /** What a slot shows is the minute's sum over its count, to the nearest tenth. */
  lemma ShownIsAverage(r: MinuteRow)
    requires r.n > 0.0
    ensures -0.05 * r.n <= r.sum - ValueOf(r) * r.n <= 0.05 * r.n
  {
    var x := r.sum / r.n;
    TenthsIsNearest(x);
    assert x * r.n == r.sum;
    ScaledBounds(x, Tenths(x), r.n);
  }

  lemma ScaledBounds(x: real, y: real, n: real)
    requires n > 0.0 && -0.05 <= x - y <= 0.05
    ensures -0.05 * n <= x * n - y * n <= 0.05 * n
  {
    assert (x - y) * n == x * n - y * n;
  }

  function ValueOf(r: MinuteRow): real
    requires r.n > 0.0
  {
    Tenths(r.sum / r.n)
  }

  /** Slot `i` is `[start + i * step, start + (i + 1) * step)`, a row's minute is `[ts, ts + 60)`. */
  predicate Overlaps(ts: int, start: int, step: int, i: int) {
    ts < start + (i + 1) * step && start + i * step < ts + 60
  }

  /** The value of the last row in the list with data whose minute overlaps the slot. */
  function SlotValue(rows: seq<MinuteRow>, start: int, step: int, i: int): Option<real> {
    if rows == [] then None
    else if rows[|rows|-1].n > 0.0 && Overlaps(rows[|rows|-1].ts, start, step, i) then Some(ValueOf(rows[|rows|-1]))
    else SlotValue(rows[..|rows|-1], start, step, i)
  }

  lemma DivBounds(a: int, step: int, i: int)
    requires step > 0
    ensures a / step <= i <==> a < (i + 1) * step
    ensures i <= a / step <==> i * step <= a
  {
    var q, r := a / step, a % step;
    assert a == q * step + r && 0 <= r < step;
    if q <= i {
      MulMonotone(q + 1, i + 1, step);
    } else {
      MulMonotone(i + 1, q, step);
    }
    if i <= q {
      MulMonotone(i, q, step);
    } else {
      MulMonotone(q + 1, i, step);
    }
  }

  lemma MulMonotone(a: int, b: int, step: int)
    requires a <= b && step > 0
    ensures a * step <= b * step
  {
  }

  /** The two divisions of the loop bound exactly the slots the minute overlaps. */
  lemma BoundsAreOverlap(ts: int, start: int, step: int, n: nat, i: int)
    requires step > 0 && 0 <= i < n
    ensures Most((ts - start) / step, 0) <= i <= Least((ts + 60 - 1 - start) / step, n - 1) <==> Overlaps(ts, start, step, i)
  {
    DivBounds(ts - start, step, i);
    DivBounds(ts + 59 - start, step, i);
  }

  /** SLOT PLACEMENT: every slot ends up with the value of the last row in the list whose minute
      overlaps it, and stays empty when there is none. */
  method FillSlots(out: array<Option<real>>, rows: seq<MinuteRow>, start: int, step: int)
    requires step >= 1
    modifies out
    ensures forall i :: 0 <= i < out.Length ==> out[i] == SlotValue(rows, start, step, i)
  {
    for i := 0 to out.Length
      invariant forall j :: 0 <= j < i ==> out[j] == None
    {
      out[i] := None;
    }
    for k := 0 to |rows|
      invariant forall j :: 0 <= j < out.Length ==> out[j] == SlotValue(rows[..k], start, step, j)
    {
      var row := rows[k];
      assert rows[..k+1][..k] == rows[..k];
      ghost var before := out[..];
      if row.n > 0.0 {
        var v := ValueOf(row);
        var first := Most((row.ts - start) / step, 0);
        var last := Least((row.ts + 60 - 1 - start) / step, out.Length - 1);
        var i := first;
        while i <= last
          invariant first <= i
          invariant forall j :: 0 <= j < out.Length ==> out[j] == if first <= j < i && j <= last then Some(v) else before[j]
        {
          out[i] := Some(v);
          i := i + 1;
        }
        forall j | 0 <= j < out.Length ensures out[j] == if Overlaps(row.ts, start, step, j) then Some(v) else before[j] {
          BoundsAreOverlap(row.ts, start, step, out.Length, j);
        }
      }
    }
    assert rows[..|rows|] == rows;
  }

  /** Filled if and only if some minute with data overlaps the slot. */
  lemma {:induction false} FilledExactly(rows: seq<MinuteRow>, start: int, step: int, i: int)
    ensures SlotValue(rows, start, step, i).Some? <==>
            exists k :: 0 <= k < |rows| && rows[k].n > 0.0 && Overlaps(rows[k].ts, start, step, i)
  {
    if rows != [] {
      var init, last := rows[..|rows|-1], |rows| - 1;
      FilledExactly(init, start, step, i);
      if rows[last].n > 0.0 && Overlaps(rows[last].ts, start, step, i) {
      } else {
        forall k | 0 <= k < |rows| && rows[k].n > 0.0 && Overlaps(rows[k].ts, start, step, i)
          ensures init[k] == rows[k] && k < |init|
        {
        }
      }
    }
  }

  /** The rows read, from a minute before the grid to its end, are all that can matter. */
  lemma NothingOutsideMatters(ts: int, start: int, step: int, n: nat, i: int)
    requires step >= 1 && 0 <= i < n && Overlaps(ts, start, step, i)
    ensures start - 60 <= ts < start + n * step
  {
    MulMonotone(0, i, step);
    MulMonotone(i + 1, n, step);
  }

  /** What `rollup_rows` hands out: the stored minutes of `[from, to)`, one row per time, in
      ascending order. */
  ghost predicate ReadBack(rows: seq<MinuteRow>, stored: set<MinuteRow>, from: int, to: int) {
    && (forall j, k :: 0 <= j < k < |rows| ==> rows[j].ts < rows[k].ts)
    && (forall r :: r in rows <==> r in stored && from <= r.ts < to)
  }

  ghost predicate Shows(r: MinuteRow, start: int, step: int, i: int) {
    r.n > 0.0 && Overlaps(r.ts, start, step, i)
  }

  /** A filled slot has the value of a row of the list after which no other one counts. */
  lemma {:induction false} SlotIsLast(rows: seq<MinuteRow>, start: int, step: int, i: int) returns (k: nat)
    requires SlotValue(rows, start, step, i).Some?
    ensures k < |rows| && Shows(rows[k], start, step, i) && SlotValue(rows, start, step, i) == Some(ValueOf(rows[k]))
    ensures forall j :: k < j < |rows| ==> !Shows(rows[j], start, step, i)
  {
    k := |rows| - 1;
    if !Shows(rows[k], start, step, i) {
      var init := rows[..|rows|-1];
      k := SlotIsLast(init, start, step, i);
      forall j | k < j < |rows| ensures !Shows(rows[j], start, step, i) {
        if j < |init| {
          assert init[j] == rows[j];
        }
      }
    }
  }

  /** THE LATEST MINUTE WINS: of everything stored, whatever was read, a slot shows the latest minute
      with data that overlaps it, and nothing exactly when there is none. */
  lemma {:induction false} GridShowsLatest(stored: set<MinuteRow>, rows: seq<MinuteRow>, start: int, step: int, n: nat, i: int)
    requires step >= 1 && 0 <= i < n && ReadBack(rows, stored, start - 60, start + n * step)
    ensures SlotValue(rows, start, step, i).None? <==> forall r :: r in stored ==> !Shows(r, start, step, i)
    ensures SlotValue(rows, start, step, i).Some? ==>
              exists r :: r in stored && Shows(r, start, step, i) && SlotValue(rows, start, step, i).value == ValueOf(r)
                          && forall x :: x in stored && Shows(x, start, step, i) ==> x.ts <= r.ts
  {
    FilledExactly(rows, start, step, i);
    forall r | r in stored && Shows(r, start, step, i)
      ensures exists j :: 0 <= j < |rows| && rows[j] == r
    {
      NothingOutsideMatters(r.ts, start, step, n, i);
      assert r in rows;
    }
    if SlotValue(rows, start, step, i).Some? {
      var k := SlotIsLast(rows, start, step, i);
      assert rows[k] in rows;
      forall x | x in stored && Shows(x, start, step, i) ensures x.ts <= rows[k].ts {
        var j :| 0 <= j < |rows| && rows[j] == x;
        assert j <= k;
      }
    }
  }

  /** The code's own comment: the slot's start falls inside the minute. */
  predicate StartsInside(ts: int, start: int, step: int, i: int) {
    ts <= start + i * step < ts + 60
  }

  /** Overlap is more than that. The two agree on every slot of the grid exactly when the minute
      begins at a slot's start, or before the grid, or after it. */
  lemma OverlapIsStartInside(ts: int, start: int, step: int, n: nat)
    requires step >= 1
    ensures (forall i :: 0 <= i < n ==> (Overlaps(ts, start, step, i) <==> StartsInside(ts, start, step, i)))
            <==> (ts - start) % step == 0 || (ts - start) / step < 0 || (ts - start) / step >= n
  {
    var q := (ts - start) / step;
    DivBounds(ts - start, step, q);
    assert (q + 1) * step == q * step + step;
    forall i | 0 <= i < n && ((ts - start) % step == 0 || i != q)
      ensures Overlaps(ts, start, step, i) <==> StartsInside(ts, start, step, i)
    {
      DivBounds(ts - start, step, i);
      StartInsideOverlaps(ts, start, step, i);
      if q < i {
        MulMonotone(q + 1, i, step);
      }
    }
    if 0 <= q < n && (ts - start) % step != 0 {
      assert Overlaps(ts, start, step, q) && !StartsInside(ts, start, step, q);
    }
  }

  lemma StartInsideOverlaps(ts: int, start: int, step: int, i: int)
    requires step >= 1
    ensures StartsInside(ts, start, step, i) ==> Overlaps(ts, start, step, i)
  {
    assert (i + 1) * step == i * step + step;
  }

  /** A minute that begins in the middle of a slot fills it, though the slot starts before it. */
  lemma OverlapExample()
    ensures Overlaps(60, 30, 60, 0) && !StartsInside(60, 30, 60, 0)
    ensures SlotValue([MinuteRow(60, 7.0, 1.0)], 30, 60, 0) == Some(ValueOf(MinuteRow(60, 7.0, 1.0)))
  {
  }

  const SERIES_STEP_SECS := 30
  const HISTORY_SECS := 3600

  /** The status page itself never sees the difference: its half-minute grid ends at a whole half
      minute, and rows lie on whole minutes. */
  lemma StatusPageAgrees(now: int, ts: int)
    requires ts % 60 == 0
    ensures
      var start := now - now % SERIES_STEP_SECS + SERIES_STEP_SECS - HISTORY_SECS;
      forall i :: 0 <= i < HISTORY_SECS / SERIES_STEP_SECS ==>
        (Overlaps(ts, start, SERIES_STEP_SECS, i) <==> StartsInside(ts, start, SERIES_STEP_SECS, i))
  {
    var start := now - now % SERIES_STEP_SECS + SERIES_STEP_SECS - HISTORY_SECS;
    assert (ts - start) % SERIES_STEP_SECS == 0;
    OverlapIsStartInside(ts, start, SERIES_STEP_SECS, HISTORY_SECS / SERIES_STEP_SECS);
  }
}
