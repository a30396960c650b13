/** Xid incidents: the dedupe key of `lss-core/src/incidents.rs`, the keyed insert and the one-off
    merge of `lss-collector/src/db.rs`. */
module Incidents {
  import opened Wrappers

  // ------------------------------------------------------------------ text

  predicate IsDigit(c: char) { '0' <= c <= '9' }

  /** The characters of Unicode's White_Space, which `str::trim` removes. */
  predicate White(c: char) {
    var n := c as int;
    || 9 <= n <= 13 || n == 32 || n == 0x85 || n == 0xA0 || n == 0x1680 || 0x2000 <= n <= 0x200A
    || n == 0x2028 || n == 0x2029 || n == 0x202F || n == 0x205F || n == 0x3000
  }

  const BLANKS: set<int> :=
    {9, 10, 11, 12, 13, 32, 133, 160, 5760, 8192, 8193, 8194, 8195, 8196, 8197, 8198, 8199, 8200, 8201, 8202, 8232, 8233, 8239, 8287, 12288}

  lemma WhiteIsListed(c: char)
    ensures White(c) <==> c as int in BLANKS
  {
  }

  function DigitChar(d: nat): char
    requires d < 10
  {
    '0' + d as char
  }

  /** Decimal, as `format!` prints a number. */
  function Digits(n: nat): string {
    if n < 10 then [DigitChar(n)] else Digits(n / 10) + [DigitChar(n % 10)]
  }

  function Signed(n: int): string {
    if n < 0 then "-" + Digits(-n) else Digits(n)
  }

  function DigitValue(c: char): nat {
    if IsDigit(c) then (c - '0') as nat else 0
  }

  function Value(s: string): nat {
    if s == [] then 0 else Value(s[..|s|-1]) * 10 + DigitValue(s[|s|-1])
  }

  lemma {:induction false} DigitsMeaning(n: nat)
    ensures Digits(n) != [] && (forall c :: c in Digits(n) ==> IsDigit(c)) && Value(Digits(n)) == n
  {
    if n >= 10 {
      DigitsMeaning(n / 10);
      assert Digits(n)[..|Digits(n)|-1] == Digits(n / 10);
    } else {
      assert Value([]) == 0;
    }
  }

  /** `take_while(is_ascii_digit)`. */
  function LeadingDigits(s: string): string {
    if s == [] || !IsDigit(s[0]) then [] else [s[0]] + LeadingDigits(s[1..])
  }

  lemma {:induction false} LeadingDigitsOf(d: string, rest: string)
    requires forall c :: c in d ==> IsDigit(c)
    requires rest == [] || !IsDigit(rest[0])
    ensures LeadingDigits(d + rest) == d
  {
    if d == [] {
      assert d + rest == rest;
    } else {
      assert (d + rest)[1..] == d[1..] + rest;
      LeadingDigitsOf(d[1..], rest);
    }
  }

  /** `parse::<u32>` of a run of digits. */
  function ParseU32(digits: string): Option<nat> {
    if digits == [] || Value(digits) >= 0x1_0000_0000 then None else Some(Value(digits))
  }

  function TrimStart(s: string): string {
    if s != [] && White(s[0]) then TrimStart(s[1..]) else s
  }

  function TrimEnd(s: string): string {
    if s != [] && White(s[|s|-1]) then TrimEnd(s[..|s|-1]) else s
  }

  function Trim(s: string): string { TrimEnd(TrimStart(s)) }

  const MARK := " Xid "

  predicate StartsWithMark(s: string) { MARK <= s }

  /** `split_once(" Xid ")`: everything before the first mark, everything after it. */
  function SplitAtMark(s: string): Option<(string, string)> {
    if StartsWithMark(s) then Some(("", s[|MARK|..]))
    else if s == [] then None
    else
      match SplitAtMark(s[1..])
      case None => None
      case Some(p) => Some(([s[0]] + p.0, p.1))
  }

  // ------------------------------------------------------------------ the dedupe key

  function XidKey(gpu: string, xid: nat, ts: int): string {
    "xid|" + gpu + "|" + Digits(xid) + "|" + Signed(ts)
  }

  /** The key recovered from a stored wording. */
  function KeyFromDetail(detail: string, start: int): Option<string> {
    match SplitAtMark(detail)
    case None => None
    case Some(p) =>
      match ParseU32(LeadingDigits(p.1)) {
      case None => None
      case Some(xid) => if p.0 == "" then None else Some(XidKey(Trim(p.0), xid, start))
      }
  }

  /** What an Xid is booked as. */
  function XidDetail(gpu: string, xid: nat, hint: string, rest: string): string {
    Trim(gpu + " Xid " + Digits(xid) + " (" + hint + ") " + rest)
  }

  /** Where the last bar stands. */
  lemma BarAt(head: string, tail: string)
    requires '|' !in tail
    ensures (head + "|" + tail)[|head|] == '|'
    ensures forall j :: |head| < j < |head + "|" + tail| ==> (head + "|" + tail)[j] != '|'
  {
    var s := head + "|" + tail;
    forall j | |head| < j < |s| ensures s[j] != '|' {
      assert s[j] == tail[j - |head| - 1];
    }
  }

  lemma LastBar(a: string, d: string, b: string, e: string)
    requires a + "|" + d == b + "|" + e
    requires '|' !in d && '|' !in e
    ensures a == b && d == e
  {
    var s, t := a + "|" + d, b + "|" + e;
    BarAt(a, d);
    BarAt(b, e);
    assert |a| == |b|;
    assert a == s[..|a|] && b == t[..|b|];
    assert d == s[|a| + 1..] && e == t[|b| + 1..];
  }

  lemma {:induction false} NoBarInNumbers(xid: nat, ts: int)
    ensures '|' !in Digits(xid) && '|' !in Signed(ts)
  {
    DigitsMeaning(xid);
    DigitsMeaning(if ts < 0 then -ts else ts);
  }

  lemma SignedShape(n: int)
    ensures Signed(n) != [] && (n < 0 <==> Signed(n)[0] == '-')
    ensures Value(if n < 0 then Signed(n)[1..] else Signed(n)) == if n < 0 then -n else n
  {
    DigitsMeaning(if n < 0 then -n else n);
    if n < 0 {
      assert Signed(n)[1..] == Digits(-n);
    } else {
      assert Digits(n)[0] in Digits(n);
    }
  }

  lemma SignedInjective(a: int, b: int)
    requires Signed(a) == Signed(b)
    ensures a == b
  {
    SignedShape(a);
    SignedShape(b);
  }

  /** TWO DIFFERENT REPORTS NEVER SHARE A KEY, whatever text stands in the label. */
  lemma XidKeyInjective(gpu: string, xid: nat, ts: int, gpu': string, xid': nat, ts': int)
    requires XidKey(gpu, xid, ts) == XidKey(gpu', xid', ts')
    ensures gpu == gpu' && xid == xid' && ts == ts'
  {
    NoBarInNumbers(xid, ts);
    NoBarInNumbers(xid', ts');
    LastBar("xid|" + gpu + "|" + Digits(xid), Signed(ts), "xid|" + gpu' + "|" + Digits(xid'), Signed(ts'));
    LastBar("xid|" + gpu, Digits(xid), "xid|" + gpu', Digits(xid'));
    assert gpu == ("xid|" + gpu)[4..] && gpu' == ("xid|" + gpu')[4..];
    SignedInjective(ts, ts');
    DigitsMeaning(xid);
    DigitsMeaning(xid');
  }

  /** No mark starts inside the label, and nothing of it is trimmed away. */
  ghost predicate PlainLabel(gpu: string) {
    && gpu != ""
    && !White(gpu[0]) && !White(gpu[|gpu|-1])
    && forall i :: 0 <= i < |gpu| ==> !StartsWithMark((gpu + MARK)[i..])
  }

  lemma {:induction false} SplitAtFirst(gpu: string, rest: string)
    requires forall i :: 0 <= i < |gpu| ==> !StartsWithMark((gpu + MARK)[i..])
    ensures SplitAtMark(gpu + MARK + rest) == Some((gpu, rest))
  {
    var s := gpu + MARK + rest;
    if gpu == "" {
      assert s[|MARK|..] == rest && s[..|MARK|] == MARK;
    } else {
      assert !StartsWithMark(s) by {
        assert !StartsWithMark((gpu + MARK)[0..]);
        assert (gpu + MARK)[0..] == gpu + MARK;
        assert s[..|MARK|] == (gpu + MARK)[..|MARK|];
      }
      var tail := gpu[1..];
      assert s[1..] == tail + MARK + rest;
      forall i | 0 <= i < |tail| ensures !StartsWithMark((tail + MARK)[i..]) {
        assert (tail + MARK)[i..] == (gpu + MARK)[i + 1..];
      }
      SplitAtFirst(tail, rest);
      assert [gpu[0]] + tail == gpu;
    }
  }

  lemma {:induction false} TrimEndKeepsPrefix(head: string, tail: string)
    requires head != "" && !White(head[|head|-1])
    ensures exists kept :: TrimEnd(head + tail) == head + kept && (kept == "" || (tail != "" && kept[0] == tail[0]))
  {
    if tail == "" {
      assert head + tail == head + "";
    } else if White(tail[|tail|-1]) {
      var init := tail[..|tail|-1];
      assert (head + tail)[..|head + tail|-1] == head + init;
      TrimEndKeepsPrefix(head, init);
      var kept :| TrimEnd(head + init) == head + kept && (kept == "" || (init != "" && kept[0] == init[0]));
      assert TrimEnd(head + tail) == head + kept;
    } else {
      assert TrimEnd(head + tail) == head + tail;
    }
  }

  lemma TrimPlain(s: string)
    requires s != "" && !White(s[0]) && !White(s[|s|-1])
    ensures Trim(s) == s
  {
  }

  /** The wording of a booking keeps the label, the mark and the number; only its end may be trimmed. */
  lemma {:induction false} BookedShape(gpu: string, xid: nat, hint: string, rest: string)
    requires PlainLabel(gpu)
    ensures exists kept :: XidDetail(gpu, xid, hint, rest) == gpu + MARK + (Digits(xid) + kept) && (kept == "" || kept[0] == ' ')
  {
    var head, tail := gpu + MARK + Digits(xid), " (" + hint + ") " + rest;
    DigitsMeaning(xid);
    var last := Digits(xid)[|Digits(xid)|-1];
    assert last in Digits(xid) && head[|head|-1] == last && IsDigit(last);
    assert gpu + " Xid " + Digits(xid) + " (" + hint + ") " + rest == head + tail;
    StartsBare(head + tail);
    TrimEndKeepsPrefix(head, tail);
    var kept :| TrimEnd(head + tail) == head + kept && (kept == "" || kept[0] == tail[0]);
    assert head + kept == gpu + MARK + (Digits(xid) + kept);
  }

  lemma {:induction false} StartsBare(s: string)
    requires s != "" && !White(s[0])
    ensures TrimStart(s) == s
  {
  }

  /** THE MIGRATION FINDS THE KEY THE INSERT USED: the wording an Xid is booked under gives its
      own key back, however the hint and the rest of the kernel line read. */
  lemma BookedDetailGivesItsKey(gpu: string, xid: nat, hint: string, rest: string, ts: int)
    requires PlainLabel(gpu) && xid < 0x1_0000_0000
    ensures KeyFromDetail(XidDetail(gpu, xid, hint, rest), ts) == Some(XidKey(gpu, xid, ts))
  {
    BookedShape(gpu, xid, hint, rest);
    var kept :| XidDetail(gpu, xid, hint, rest) == gpu + MARK + (Digits(xid) + kept) && (kept == "" || kept[0] == ' ');
    DigitsMeaning(xid);
    SplitAtFirst(gpu, Digits(xid) + kept);
    LeadingDigitsOf(Digits(xid), kept);
    TrimPlain(gpu);
  }

  // ------------------------------------------------------------------ the key, for any wording

  lemma {:induction false} SplitMeaning(s: string)
    ensures SplitAtMark(s).None? ==> forall i :: 0 <= i <= |s| ==> !StartsWithMark(s[i..])
    ensures SplitAtMark(s).Some? ==> s == SplitAtMark(s).value.0 + MARK + SplitAtMark(s).value.1
    ensures SplitAtMark(s).Some? ==> forall i :: 0 <= i < |SplitAtMark(s).value.0| ==> !StartsWithMark(s[i..])
  {
    if StartsWithMark(s) {
      assert s == "" + MARK + s[|MARK|..];
    } else if s != [] {
      SplitMeaning(s[1..]);
      assert s == [s[0]] + s[1..] && s[0..] == s;
      assert forall i :: 1 <= i <= |s| ==> s[i..] == s[1..][i - 1..];
      if SplitAtMark(s).Some? {
        Rejoined(s, SplitAtMark(s[1..]).value.0, MARK, SplitAtMark(s[1..]).value.1);
      }
    }
  }

  lemma Rejoined(s: string, head: string, mark: string, tail: string)
    requires s != "" && s[1..] == head + mark + tail
    ensures s == [s[0]] + head + mark + tail
  {
    assert s == [s[0]] + s[1..];
  }

  lemma {:induction false} LeadingMeaning(s: string)
    ensures LeadingDigits(s) <= s && (forall c :: c in LeadingDigits(s) ==> '0' <= c <= '9')
    ensures |LeadingDigits(s)| < |s| ==> !('0' <= s[|LeadingDigits(s)|] <= '9')
  {
    if s != [] && IsDigit(s[0]) {
      LeadingMeaning(s[1..]);
    }
  }

  /** Trimming takes the blanks off both ends and nothing else. */
  lemma {:induction false} TrimMeaning(s: string)
    ensures exists a, b :: s == a + Trim(s) + b && (forall c :: c in a + b ==> White(c))
    ensures Trim(s) != "" ==> !White(Trim(s)[0]) && !White(Trim(s)[|Trim(s)|-1])
  {
    var a := TrimStartMeaning(s);
    var b := TrimEndMeaning(TrimStart(s));
    assert s == a + Trim(s) + b;
    forall c | c in a + b ensures White(c) {
      assert c in a || c in b;
    }
    if Trim(s) != "" {
      assert TrimStart(s)[0] == Trim(s)[0];
    }
  }

  lemma {:induction false} TrimStartMeaning(s: string) returns (a: string)
    ensures s == a + TrimStart(s) && (forall c :: c in a ==> White(c))
    ensures TrimStart(s) != "" ==> !White(TrimStart(s)[0])
  {
    a := "";
    if s != [] && White(s[0]) {
      var rest := TrimStartMeaning(s[1..]);
      a := [s[0]] + rest;
      assert s == [s[0]] + s[1..];
    }
  }

  lemma {:induction false} TrimEndMeaning(s: string) returns (b: string)
    ensures s == TrimEnd(s) + b && (forall c :: c in b ==> White(c))
    ensures TrimEnd(s) != "" ==> !White(TrimEnd(s)[|TrimEnd(s)|-1])
  {
    b := "";
    if s != [] && White(s[|s|-1]) {
      var init := TrimEndMeaning(s[..|s|-1]);
      b := init + [s[|s|-1]];
      assert s == s[..|s|-1] + [s[|s|-1]];
    }
  }

  /** A wording as one reads it: a label, the first mark, a number below 2^32, anything else. */
  ghost predicate ReadAs(detail: string, name: string, digits: string, rest: string) {
    && detail == name + " Xid " + (digits + rest)
    && name != "" && digits != ""
    && (forall i :: 0 <= i < |name| ==> !(" Xid " <= detail[i..]))
    && (forall c :: c in digits ==> '0' <= c <= '9') && (rest != "" ==> !('0' <= rest[0] <= '9'))
    && Value(digits) < 4_294_967_296
  }

  /** WHICH WORDINGS GIVE A KEY, and which key: exactly those that read as a label, the mark and a
      number, and the key is that label without blanks around it, that number and the row's start. */
  lemma {:induction false} KeyReadExactly(detail: string, start: int)
    ensures KeyFromDetail(detail, start).Some? <==> exists name, digits, rest :: ReadAs(detail, name, digits, rest)
    ensures forall name, digits, rest :: ReadAs(detail, name, digits, rest) ==>
              KeyFromDetail(detail, start) == Some(XidKey(Trim(name), Value(digits), start))
  {
    forall name, digits, rest | ReadAs(detail, name, digits, rest)
      ensures KeyFromDetail(detail, start) == Some(XidKey(Trim(name), Value(digits), start))
    {
      ReadGivesKey(detail, start, name, digits, rest);
    }
    if KeyFromDetail(detail, start).Some? {
      KeyIsRead(detail, start);
    }
  }

  lemma {:induction false} ReadGivesKey(detail: string, start: int, name: string, digits: string, rest: string)
    requires ReadAs(detail, name, digits, rest)
    ensures KeyFromDetail(detail, start) == Some(XidKey(Trim(name), Value(digits), start))
  {
    forall i | 0 <= i < |name| ensures !StartsWithMark((name + MARK)[i..]) {
      assert detail[i..][..|MARK|] == (name + MARK)[i..][..|MARK|];
    }
    SplitAtFirst(name, digits + rest);
    LeadingDigitsOf(digits, rest);
  }

  lemma KeyIsRead(detail: string, start: int)
    requires KeyFromDetail(detail, start).Some?
    ensures exists name, digits, rest :: ReadAs(detail, name, digits, rest)
  {
    SplitMeaning(detail);
    var (name, tail) := SplitAtMark(detail).value;
    LeadingMeaning(tail);
    var digits := LeadingDigits(tail);
    var rest := tail[|digits|..];
    assert tail == digits + rest;
    assert forall i :: 0 <= i < |name| ==> !(" Xid " <= detail[i..]) by {
      assert forall i :: 0 <= i < |name| ==> !StartsWithMark(detail[i..]);
    }
    assert ReadAs(detail, name, digits, rest);
  }

  /** The two labels a report can carry: its GPU's index, or the PCI address as printed. */
  function GpuLabel(i: nat): string { "GPU" + Digits(i) }
  function PciLabel(pci: string): string { "PCI " + pci }

  lemma LabelsArePlain(i: nat, pci: string)
    requires pci != "" && pci != "Xid" && forall c :: c in pci ==> !White(c)
    ensures PlainLabel(GpuLabel(i)) && PlainLabel(PciLabel(pci))
  {
    DigitsMeaning(i);
    NoSpaceIsPlain("GPU", Digits(i));
    NoSpaceIsPlain("PCI ", pci);
  }

  lemma NoSpaceIsPlain(head: string, tail: string)
    requires tail != "" && tail != "Xid" && forall c :: c in tail ==> !White(c)
    requires head == "GPU" || head == "PCI "
    ensures PlainLabel(head + tail)
  {
    var gpu := head + tail;
    assert gpu[|gpu|-1] == tail[|tail|-1] && tail[|tail|-1] in tail;
    forall i | 0 <= i < |gpu| ensures !StartsWithMark((gpu + MARK)[i..]) {
      var s := (gpu + MARK)[i..];
      assert s[0] == gpu[i];
      if head == "PCI " && i == 3 {
        NoMarkAfterPci(tail);
        assert s == " " + tail + MARK;
      } else if i >= |head| {
        assert gpu[i] == tail[i - |head|] && tail[i - |head|] in tail;
      }
    }
  }

  lemma NoMarkAfterPci(tail: string)
    requires tail != "" && tail != "Xid" && forall c :: c in tail ==> !White(c)
    ensures !StartsWithMark(" " + tail + MARK)
  {
    var s := " " + tail + MARK;
    if |tail| >= 4 {
      assert s[4] == tail[3] && tail[3] in tail;
    } else if |tail| == 3 {
      assert tail == [s[1], s[2], s[3]];
    } else {
      assert s[|tail| + 1] == ' ';
    }
  }
}

/** Table `incidents`: point events booked once, old rows merged once. */
module IncidentTable {
  import opened Wrappers
  import opened Incidents

  datatype Id = Id(n: nat)

  datatype Incident = Incident(start: int, end: Option<int>, kind: string, detail: string, key: Option<string>)

  type Rows = map<Id, Incident>

  const KIND_XID := "xid"

  predicate HasKey(t: Rows, k: string) {
    exists i :: i in t && t[i].key == Some(k)
  }

  /** What the unique index on `dedupe_key` asks of the table. */
  ghost predicate UniqueKeys(t: Rows) {
    forall i, j :: i in t && j in t && t[i].key.Some? && t[i].key == t[j].key ==> i == j
  }

  // ------------------------------------------------------------------ keyed inserts

  predicate SameEvent(r: Incident, kind: string, ts: int, detail: string, key: Option<string>) {
    if key.Some? then r.key == key else r.kind == kind && r.start == ts && r.detail == detail
  }

  predicate Known(t: Rows, kind: string, ts: int, detail: string, key: Option<string>) {
    exists i :: i in t && SameEvent(t[i], kind, ts, detail, key)
  }

  /** `Db::event_incident` on values. */
  function Booked(t: Rows, next: nat, kind: string, ts: int, detail: string, key: Option<string>): Rows {
    if Known(t, kind, ts, detail, key) then t else t[Id(next) := Incident(ts, Some(ts), kind, detail, key)]
  }

  ghost predicate Below(t: Rows, next: nat) {
    forall i :: i in t ==> i.n < next
  }

  /** A keyed insert adds its key and nothing else, and the table stays without duplicates - the
      event is there exactly once, whatever its wording. */
  lemma BookedKeepsKeysUnique(t: Rows, next: nat, kind: string, ts: int, detail: string, key: Option<string>)
    requires Below(t, next) && UniqueKeys(t)
    ensures UniqueKeys(Booked(t, next, kind, ts, detail, key))
    ensures forall k :: HasKey(Booked(t, next, kind, ts, detail, key), k) <==> HasKey(t, k) || key == Some(k)
    ensures forall i :: i in t ==> i in Booked(t, next, kind, ts, detail, key) && Booked(t, next, kind, ts, detail, key)[i] == t[i]
    ensures key.Some? && HasKey(t, key.value) ==> Booked(t, next, kind, ts, detail, key) == t
  {
    var u := Booked(t, next, kind, ts, detail, key);
    if !Known(t, kind, ts, detail, key) {
      assert u[Id(next)].key == key;
      forall k ensures HasKey(u, k) <==> HasKey(t, k) || key == Some(k) {
        if HasKey(t, k) {
          var i :| i in t && t[i].key == Some(k);
          assert u[i].key == Some(k);
        }
      }
      assert forall i :: i in t && key.Some? ==> SameEvent(t[i], kind, ts, detail, key) || t[i].key != key;
    }
    if key.Some? && HasKey(t, key.value) {
      var i :| i in t && t[i].key == Some(key.value);
      assert SameEvent(t[i], kind, ts, detail, key);
    }
  }

  /** A point event without a key is the same as a row of its kind, time and wording. */
  lemma UnkeyedIsKnown(t: Rows, kind: string, ts: int, detail: string)
    ensures Known(t, kind, ts, detail, None) <==> exists i :: i in t && t[i].kind == kind && t[i].start == ts && t[i].detail == detail
  {
    if Known(t, kind, ts, detail, None) {
      var i :| i in t && SameEvent(t[i], kind, ts, detail, None);
      assert t[i].kind == kind;
    }
    if i :| i in t && t[i].kind == kind && t[i].start == ts && t[i].detail == detail {
      assert SameEvent(t[i], kind, ts, detail, None);
    }
  }

  /** THE ROW OF A NEW EVENT: one row more, that begins and ends at its time, of its kind, wording and
      key; all others as before. A known event changes nothing, and no event is new twice. */
  lemma BookedRow(t: Rows, next: nat, kind: string, ts: int, detail: string, key: Option<string>)
    requires Below(t, next)
    ensures
      var u := Booked(t, next, kind, ts, detail, key);
      && (Known(t, kind, ts, detail, key) ==> u == t)
      && (!Known(t, kind, ts, detail, key) ==>
            && u.Keys == t.Keys + {Id(next)} && Id(next) !in t && (forall i :: i in t ==> u[i] == t[i])
            && u[Id(next)].start == ts && u[Id(next)].end == Some(ts) && u[Id(next)].kind == kind
            && u[Id(next)].detail == detail && u[Id(next)].key == key)
      && Known(u, kind, ts, detail, key)
  {
    var u := Booked(t, next, kind, ts, detail, key);
    if !Known(t, kind, ts, detail, key) {
      assert SameEvent(u[Id(next)], kind, ts, detail, key);
    }
  }

  // ------------------------------------------------------------------ the one-off merge

  function KeyAt(t: Rows, id: Id): Option<string>
    requires id in t
  {
    KeyFromDetail(t[id].detail, t[id].start)
  }

  predicate Unkeyed(r: Incident) { r.kind == KIND_XID && r.key.None? }

  /** An Xid row without a key whose wording gives one. */
  ghost predicate Derives(t: Rows, id: Id, k: string) {
    id in t && Unkeyed(t[id]) && KeyAt(t, id) == Some(k)
  }

  /** The rows the merge walks, oldest first. */
  ghost predicate Snapshot(t: Rows, snap: seq<Id>) {
    && (forall i, j :: 0 <= i < j < |snap| ==> snap[i].n < snap[j].n)
    && (forall id :: id in snap <==> id in t && Unkeyed(t[id]))
  }

  /** Some walked rows of the table, oldest first. */
  ghost predicate Walk(t: Rows, snap: seq<Id>) {
    && (forall i, j :: 0 <= i < j < |snap| ==> snap[i].n < snap[j].n)
    && (forall id :: id in snap ==> id in t && Unkeyed(t[id]))
  }

  function Reworded(t: Rows, k: string, detail: string): Rows {
    map i | i in t :: if t[i].key == Some(k) then t[i].(detail := detail) else t[i]
  }

  /** One row of the walk, as it was read before the walk began. */
  function MergeOne(t: Rows, id: Id, row: Incident): Rows
    requires id in t
  {
    match KeyFromDetail(row.detail, row.start)
    case None => t
    case Some(k) => if HasKey(t, k) then Reworded(t, k, row.detail) - {id} else t[id := t[id].(key := Some(k))]
  }

  /** The detail of the last walked row that gives `k`. */
  ghost function LastWording(t: Rows, snap: seq<Id>, k: string): Option<string>
    requires Walk(t, snap)
  {
    if snap == [] then None
    else if KeyAt(t, snap[|snap|-1]) == Some(k) then Some(t[snap[|snap|-1]].detail)
    else LastWording(t, snap[..|snap|-1], k)
  }

  /** The first walked row that gives `k`. */
  ghost function FirstGiving(t: Rows, snap: seq<Id>, k: string): Option<Id>
    requires Walk(t, snap)
  {
    if snap == [] then None
    else
      var before := FirstGiving(t, snap[..|snap|-1], k);
      if before.Some? then before
      else if KeyAt(t, snap[|snap|-1]) == Some(k) then Some(snap[|snap|-1]) else None
  }

  lemma WalkPrefix(t: Rows, snap: seq<Id>)
    requires Walk(t, snap) && snap != []
    ensures Walk(t, snap[..|snap|-1]) && snap[|snap|-1] in t && Unkeyed(t[snap[|snap|-1]]) && snap[|snap|-1] !in snap[..|snap|-1]
    ensures forall id :: id in snap <==> id in snap[..|snap|-1] || id == snap[|snap|-1]
  {
    assert snap == snap[..|snap|-1] + [snap[|snap|-1]];
    assert snap[|snap|-1] in snap;
  }

  lemma {:induction false} FirstGivingMeaning(t: Rows, snap: seq<Id>, k: string)
    requires Walk(t, snap)
    ensures FirstGiving(t, snap, k).None? ==> forall i :: i in snap ==> KeyAt(t, i) != Some(k)
    ensures FirstGiving(t, snap, k).Some? ==>
              var f := FirstGiving(t, snap, k).value;
              f in snap && KeyAt(t, f) == Some(k) && forall i :: i in snap && KeyAt(t, i) == Some(k) ==> f.n <= i.n
    ensures LastWording(t, snap, k).Some? <==> FirstGiving(t, snap, k).Some?
  {
    if snap != [] {
      WalkPrefix(t, snap);
      FirstGivingMeaning(t, snap[..|snap|-1], k);
    }
  }

  lemma {:induction false} LastWordingMeaning(t: Rows, snap: seq<Id>, k: string)
    requires Walk(t, snap) && LastWording(t, snap, k).Some?
    ensures exists l :: l in snap && KeyAt(t, l) == Some(k) && LastWording(t, snap, k).value == t[l].detail
                        && forall i :: i in snap && KeyAt(t, i) == Some(k) ==> i.n <= l.n
  {
    WalkPrefix(t, snap);
    if KeyAt(t, snap[|snap|-1]) != Some(k) {
      LastWordingMeaning(t, snap[..|snap|-1], k);
    }
  }

  /** What becomes of one row, said without walking: a row that gives a key stays only as the
      first of its key with no keyed row there; a keyed row keeps its place; wordings are the last. */
  ghost function MergedRow(t: Rows, snap: seq<Id>, id: Id): Option<Incident>
    requires Walk(t, snap) && id in t
  {
    var r := t[id];
    if id in snap && KeyAt(t, id).Some? then
      var k := KeyAt(t, id).value;
      FirstGivingMeaning(t, snap, k);
      if HasKey(t, k) || FirstGiving(t, snap, k) != Some(id) then None
      else Some(r.(key := Some(k), detail := LastWording(t, snap, k).value))
    else if r.key.Some? && LastWording(t, snap, r.key.value).Some? then
      Some(r.(detail := LastWording(t, snap, r.key.value).value))
    else Some(r)
  }

  ghost function MergedAll(t: Rows, snap: seq<Id>): (u: Rows)
    requires Walk(t, snap)
    ensures u.Keys <= t.Keys
    ensures forall id :: id in t && id !in snap ==> id in u
  {
    if snap == [] then t else
      WalkPrefix(t, snap);
      var u := MergedAll(t, snap[..|snap|-1]);
      MergeOne(u, snap[|snap|-1], t[snap[|snap|-1]])
  }

  ghost predicate SameRow(u: Rows, id: Id, r: Option<Incident>) {
    match r
    case None => id !in u
    case Some(x) => id in u && u[id] == x
  }

  /** Row by row the walk does what `MergedRow` says. */
  lemma {:induction false} MergedAllRow(t: Rows, snap: seq<Id>, id: Id)
    requires Walk(t, snap) && id in t
    ensures SameRow(MergedAll(t, snap), id, MergedRow(t, snap, id))
    decreases |snap|, 0
  {
    if snap != [] {
      var init, last := snap[..|snap|-1], snap[|snap|-1];
      WalkPrefix(t, snap);
      MergedAllRow(t, init, id);
      if KeyAt(t, last).Some? {
        MergedAllHasKey(t, init, KeyAt(t, last).value);
        if id == last {
          WalkedRow(t, snap, MergedAll(t, init));
        } else {
          OtherRow(t, snap, MergedAll(t, init), id);
        }
      } else {
        NoKeyNoChange(t, snap, id);
      }
    }
  }

  lemma NoKeyNoChange(t: Rows, snap: seq<Id>, id: Id)
    requires Walk(t, snap) && snap != [] && id in t && Walk(t, snap[..|snap|-1])
    requires snap[|snap|-1] in t && KeyAt(t, snap[|snap|-1]).None?
    ensures MergedRow(t, snap, id) == MergedRow(t, snap[..|snap|-1], id)
  {
    WalkPrefix(t, snap);
  }

  lemma {:induction false} WalkedRow(t: Rows, snap: seq<Id>, u: Rows)
    requires Walk(t, snap) && snap != [] && Walk(t, snap[..|snap|-1])
    requires
      var init, last := snap[..|snap|-1], snap[|snap|-1];
      && last in t && last in u && u[last] == t[last] && KeyAt(t, last).Some?
      && (HasKey(u, KeyAt(t, last).value) <==> HasKey(t, KeyAt(t, last).value) || FirstGiving(t, init, KeyAt(t, last).value).Some?)
    ensures SameRow(MergeOne(u, snap[|snap|-1], t[snap[|snap|-1]]), snap[|snap|-1], MergedRow(t, snap, snap[|snap|-1]))
  {
    var init, last := snap[..|snap|-1], snap[|snap|-1];
    WalkPrefix(t, snap);
    FirstGivingMeaning(t, init, KeyAt(t, last).value);
  }

  /** One step of the walk on a row that is not the one walked over. */
  lemma OtherRowStep(u: Rows, last: Id, row: Incident, id: Id, k: string)
    requires last in u && id != last && KeyFromDetail(row.detail, row.start) == Some(k)
    ensures id in MergeOne(u, last, row) <==> id in u
    ensures id in u ==> MergeOne(u, last, row)[id] == if u[id].key == Some(k) then u[id].(detail := row.detail) else u[id]
  {
    if id in u && u[id].key == Some(k) {
      assert HasKey(u, k);
    }
  }

  lemma OtherRow(t: Rows, snap: seq<Id>, u: Rows, id: Id)
    requires Walk(t, snap) && snap != [] && Walk(t, snap[..|snap|-1]) && id in t && id != snap[|snap|-1]
    requires SameRow(u, id, MergedRow(t, snap[..|snap|-1], id))
    requires snap[|snap|-1] in t && snap[|snap|-1] in u && KeyAt(t, snap[|snap|-1]).Some?
    ensures SameRow(MergeOne(u, snap[|snap|-1], t[snap[|snap|-1]]), id, MergedRow(t, snap, id))
  {
    var last := snap[|snap|-1];
    OtherRowStep(u, last, t[last], id, KeyAt(t, last).value);
    NextMergedRow(t, snap, id, KeyAt(t, last).value);
  }

  /** What one more walked row does to what becomes of another. */
  lemma {:induction false} NextMergedRow(t: Rows, snap: seq<Id>, id: Id, k: string)
    requires Walk(t, snap) && snap != [] && Walk(t, snap[..|snap|-1]) && id in t && id != snap[|snap|-1]
    requires snap[|snap|-1] in t && KeyAt(t, snap[|snap|-1]) == Some(k)
    ensures
      var before, row := MergedRow(t, snap[..|snap|-1], id), t[snap[|snap|-1]];
      MergedRow(t, snap, id)
      == if before.Some? && before.value.key == Some(k) then Some(before.value.(detail := row.detail)) else before
  {
    var init := snap[..|snap|-1];
    WalkPrefix(t, snap);
    NextWording(t, snap, k);
    if id in init && KeyAt(t, id).Some? {
      var own := KeyAt(t, id).value;
      FirstGivingMeaning(t, init, own);
      FirstStaysFirst(t, snap, own);
      NextWording(t, snap, own);
    } else if t[id].key.Some? {
      NextWording(t, snap, t[id].key.value);
    }
  }

  lemma {:induction false} NextWording(t: Rows, snap: seq<Id>, k: string)
    requires Walk(t, snap) && snap != [] && Walk(t, snap[..|snap|-1]) && snap[|snap|-1] in t
    ensures LastWording(t, snap, k) ==
            if KeyAt(t, snap[|snap|-1]) == Some(k) then Some(t[snap[|snap|-1]].detail) else LastWording(t, snap[..|snap|-1], k)
  {
  }

  lemma {:induction false} FirstStaysFirst(t: Rows, snap: seq<Id>, k: string)
    requires Walk(t, snap) && snap != [] && Walk(t, snap[..|snap|-1]) && FirstGiving(t, snap[..|snap|-1], k).Some?
    ensures FirstGiving(t, snap, k) == FirstGiving(t, snap[..|snap|-1], k)
  {
  }

  /** Which keys are there half-way: the ones there before, and the ones walked over. */
  lemma {:induction false} MergedAllHasKey(t: Rows, snap: seq<Id>, k: string)
    requires Walk(t, snap)
    ensures HasKey(MergedAll(t, snap), k) <==> HasKey(t, k) || FirstGiving(t, snap, k).Some?
    decreases |snap|, 1
  {
    var u := MergedAll(t, snap);
    if HasKey(u, k) {
      var i :| i in u && u[i].key == Some(k);
      MergedAllRow(t, snap, i);
      KeyedRowGives(t, snap, i, k);
    }
    if HasKey(t, k) {
      var i :| i in t && t[i].key == Some(k);
      MergedAllRow(t, snap, i);
      assert i in u && u[i].key == Some(k);
    } else if FirstGiving(t, snap, k).Some? {
      var f := FirstGiving(t, snap, k).value;
      FirstGivingMeaning(t, snap, k);
      MergedAllRow(t, snap, f);
      assert f in u && u[f].key == Some(k);
    }
  }

  /** A row that ends up with a key had it, or gives it. */
  lemma {:induction false} KeyedRowGives(t: Rows, snap: seq<Id>, i: Id, k: string)
    requires Walk(t, snap) && i in t && MergedRow(t, snap, i).Some? && MergedRow(t, snap, i).value.key == Some(k)
    ensures HasKey(t, k) || FirstGiving(t, snap, k).Some?
  {
    FirstGivingMeaning(t, snap, k);
  }

  // ------------------------------------------------------------------ what the merge promises

  ghost predicate Derivable(t: Rows, k: string) {
    exists id :: Derives(t, id, k)
  }

  lemma {:induction false} DerivableIsGiven(t: Rows, snap: seq<Id>, k: string)
    requires Snapshot(t, snap)
    ensures Walk(t, snap)
    ensures FirstGiving(t, snap, k).Some? <==> Derivable(t, k)
    ensures FirstGiving(t, snap, k).Some? ==> Derives(t, FirstGiving(t, snap, k).value, k)
    ensures FirstGiving(t, snap, k).Some? ==> forall id :: Derives(t, id, k) ==> FirstGiving(t, snap, k).value.n <= id.n
  {
    FirstGivingMeaning(t, snap, k);
    if FirstGiving(t, snap, k).Some? {
      assert Derives(t, FirstGiving(t, snap, k).value, k);
    }
  }

  /** NO TWO ROWS SHARE A KEY afterwards, and every key that was there or could be read from a
      wording is there still - no other. */
  lemma {:induction false} MergeKeepsEveryKeyOnce(t: Rows, snap: seq<Id>)
    requires Snapshot(t, snap) && UniqueKeys(t)
    ensures UniqueKeys(MergedAll(t, snap))
    ensures forall k :: HasKey(MergedAll(t, snap), k) <==> HasKey(t, k) || Derivable(t, k)
  {
    var u := MergedAll(t, snap);
    forall k ensures HasKey(u, k) <==> HasKey(t, k) || Derivable(t, k) {
      DerivableIsGiven(t, snap, k);
      MergedAllHasKey(t, snap, k);
    }
    forall i, j | i in u && j in u && u[i].key.Some? && u[i].key == u[j].key ensures i == j {
      MergedAllRow(t, snap, i);
      MergedAllRow(t, snap, j);
    }
  }

  /** Whatever Xid row had no key but a wording that gives one, its key is there afterwards. */
  lemma {:induction false} EveryXidIsKeyed(t: Rows, snap: seq<Id>, id: Id)
    requires Snapshot(t, snap) && UniqueKeys(t) && id in t && t[id].kind == "xid" && t[id].key.None? && KeyAt(t, id).Some?
    ensures HasKey(MergedAll(t, snap), KeyAt(t, id).value)
  {
    MergeKeepsEveryKeyOnce(t, snap);
    assert Derives(t, id, KeyAt(t, id).value);
  }

  /** ROWS THE MERGE HAS NO BUSINESS WITH are unchanged: other kinds, Xid rows whose wording gives
      no key, and of keyed rows everything but the wording. */
  lemma {:induction false} MergeTouchesNothingElse(t: Rows, snap: seq<Id>, id: Id)
    requires Snapshot(t, snap) && id in t
    ensures t[id].kind != "xid" || t[id].key.Some? || KeyAt(t, id).None? ==>
              id in MergedAll(t, snap) && MergedAll(t, snap)[id].(detail := t[id].detail) == t[id]
    ensures t[id].key.None? && (t[id].kind != "xid" || KeyAt(t, id).None?) ==> MergedAll(t, snap)[id] == t[id]
    ensures t[id].key.Some? && !Derivable(t, t[id].key.value) ==> MergedAll(t, snap)[id] == t[id]
    ensures id in MergedAll(t, snap) ==> MergedAll(t, snap)[id].(detail := t[id].detail, key := t[id].key) == t[id]
  {
    MergedAllRow(t, snap, id);
    if t[id].key.Some? {
      DerivableIsGiven(t, snap, t[id].key.value);
      FirstGivingMeaning(t, snap, t[id].key.value);
    }
  }

  /** A SECOND RUN REMOVES NOTHING: no row is left whose wording gives a key it does not have. */
  lemma {:induction false} MergeTwice(t: Rows, snap: seq<Id>, again: seq<Id>)
    requires Snapshot(t, snap) && Snapshot(MergedAll(t, snap), again)
    ensures forall k :: !Derivable(MergedAll(t, snap), k)
    ensures MergedAll(MergedAll(t, snap), again) == MergedAll(t, snap)
  {
    var u := MergedAll(t, snap);
    forall id | id in u && Unkeyed(u[id]) ensures KeyAt(u, id).None? {
      MergedAllRow(t, snap, id);
    }
    NothingToMerge(u, again);
  }

  lemma {:induction false} NothingToMerge(t: Rows, snap: seq<Id>)
    requires Walk(t, snap) && forall id :: id in t && Unkeyed(t[id]) ==> KeyAt(t, id).None?
    ensures MergedAll(t, snap) == t
  {
    if snap != [] {
      WalkPrefix(t, snap);
      NothingToMerge(t, snap[..|snap|-1]);
    }
  }

  /** The row an event was booked as, keyed or not. */
  ghost predicate IsEvent(t: Rows, id: Id, k: string) {
    Derives(t, id, k) || (id in t && t[id].key == Some(k))
  }

  /** WHICH ROW STAYS: a row already keyed keeps its place, else the oldest row of the event. */
  lemma {:induction false} MergeKeeper(t: Rows, snap: seq<Id>, id: Id, k: string)
    requires Snapshot(t, snap) && UniqueKeys(t) && Derivable(t, k)
    requires id in MergedAll(t, snap) && MergedAll(t, snap)[id].key == Some(k)
    ensures id in t && IsEvent(t, id, k)
    ensures HasKey(t, k) ==> t[id].key == Some(k)
    ensures !HasKey(t, k) ==> forall j :: IsEvent(t, j, k) ==> id.n <= j.n
  {
    MergedAllRow(t, snap, id);
    DerivableIsGiven(t, snap, k);
    FirstGivingMeaning(t, snap, k);
    if !HasKey(t, k) {
      forall j | IsEvent(t, j, k) ensures id.n <= j.n {
        assert Derives(t, j, k);
      }
    }
  }

  /** ... AND WITH WHAT: the wording of the newest row that had no key. */
  lemma {:induction false} MergeWording(t: Rows, snap: seq<Id>, id: Id, k: string)
    requires Snapshot(t, snap) && UniqueKeys(t) && Derivable(t, k)
    requires id in MergedAll(t, snap) && MergedAll(t, snap)[id].key == Some(k)
    ensures exists l :: Derives(t, l, k) && MergedAll(t, snap)[id].detail == t[l].detail
                        && forall j :: Derives(t, j, k) ==> j.n <= l.n
  {
    DerivableIsGiven(t, snap, k);
    FirstGivingMeaning(t, snap, k);
    KeeperWording(t, snap, id, k);
    LastWordingMeaning(t, snap, k);
    var l :| && l in snap && KeyAt(t, l) == Some(k) && LastWording(t, snap, k).value == t[l].detail
             && forall i :: i in snap && KeyAt(t, i) == Some(k) ==> i.n <= l.n;
    assert Derives(t, l, k);
  }

  lemma {:induction false} KeeperWording(t: Rows, snap: seq<Id>, id: Id, k: string)
    requires Walk(t, snap) && LastWording(t, snap, k).Some?
    requires id in MergedAll(t, snap) && MergedAll(t, snap)[id].key == Some(k)
    ensures MergedAll(t, snap)[id].detail == LastWording(t, snap, k).value
  {
    MergedAllRow(t, snap, id);
  }

  /** THE OLDEST ROW STAYS, exactly when no younger row of the event already had the key. */
  lemma {:induction false} OldestStaysExactly(t: Rows, snap: seq<Id>, id: Id, k: string)
    requires Snapshot(t, snap) && UniqueKeys(t) && Derivable(t, k)
    requires id in MergedAll(t, snap) && MergedAll(t, snap)[id].key == Some(k)
    ensures (forall j :: IsEvent(t, j, k) ==> id.n <= j.n)
            <==> (forall i, j :: i in t && t[i].key == Some(k) && Derives(t, j, k) ==> i.n <= j.n)
  {
    MergeKeeper(t, snap, id, k);
    if (forall j :: IsEvent(t, j, k) ==> id.n <= j.n) {
      forall i, j | i in t && t[i].key == Some(k) && Derives(t, j, k) ensures i.n <= j.n {
        assert HasKey(t, k) && IsEvent(t, j, k);
        assert i == id;
      }
    } else {
      var j :| IsEvent(t, j, k) && !(id.n <= j.n);
      assert HasKey(t, k);
      assert t[id].key == Some(k) && Derives(t, j, k);
    }
  }

  /** A row without a key, and a younger one of the same event that has it already: the younger one
      stays. */
  lemma {:induction false} YoungerRowStays(hint: string, rest: string, t: Rows, snap: seq<Id>)
    requires
      var gpu := GpuLabel(0);
      var detail, k := XidDetail(gpu, 79, hint, rest), XidKey(gpu, 79, 0);
      && t == map[Id(0) := Incident(0, Some(0), KIND_XID, detail, None), Id(1) := Incident(0, Some(0), KIND_XID, detail, Some(k))]
      && snap == [Id(0)]
    ensures Snapshot(t, snap) && UniqueKeys(t)
    ensures IsEvent(t, Id(0), XidKey(GpuLabel(0), 79, 0)) && IsEvent(t, Id(1), XidKey(GpuLabel(0), 79, 0))
    ensures MergedAll(t, snap).Keys == {Id(1)}
  {
    var gpu := GpuLabel(0);
    var k := XidKey(gpu, 79, 0);
    LabelsArePlain(0, "0000");
    BookedDetailGivesItsKey(gpu, 79, hint, rest, 0);
    assert KeyAt(t, Id(0)) == Some(k) && t[Id(1)].key == Some(k);
    assert HasKey(t, k);
    assert snap[..0] == [] && MergedAll(t, snap) == MergeOne(MergedAll(t, snap[..0]), Id(0), t[Id(0)]);
  }

  // ------------------------------------------------------------------ the table itself

  lemma MergeOneKeepsUnique(t: Rows, id: Id, row: Incident)
    requires id in t && UniqueKeys(t) && t[id].key.None?
    ensures UniqueKeys(MergeOne(t, id, row))
  {
  }

  lemma OneReworded(t: Rows, k: string, detail: string, keeper: Id)
    requires UniqueKeys(t) && keeper in t && t[keeper].key == Some(k)
    ensures Reworded(t, k, detail) == t[keeper := t[keeper].(detail := detail)]
  {
  }

  lemma SameSize(t: Rows, u: Rows)
    requires t.Keys == u.Keys
    ensures |t| == |u|
  {
    assert |t| == |t.Keys| && |u| == |u.Keys|;
  }

  lemma OneLess(t: Rows, id: Id)
    requires id in t
    ensures |t - {id}| == |t| - 1
  {
    assert (t - {id}).Keys == t.Keys - {id};
    assert |t| == |t.Keys| && |t - {id}| == |(t - {id}).Keys|;
  }

  class Table {
    var rows: Rows
    var next: nat

    ghost predicate Valid()
      reads this
    {
      Below(rows, next)
    }

    /** Point incident; says whether it was new. */
    method EventIncident(kind: string, ts: int, detail: string, key: Option<string>) returns (inserted: bool)
      requires Valid()
      modifies this
      ensures Valid()
      ensures rows == Booked(old(rows), old(next), kind, ts, detail, key)
      ensures inserted == !Known(old(rows), kind, ts, detail, key)
    {
      inserted := !Known(rows, kind, ts, detail, key);
      if !inserted {
        return;
      }
      rows := rows[Id(next) := Incident(ts, Some(ts), kind, detail, key)];
      next := next + 1;
    }

    /** `SELECT ... WHERE kind = 'xid' AND dedupe_key IS NULL ORDER BY id`. */
    method UnkeyedXids() returns (snap: seq<Id>)
      requires Valid()
      ensures Snapshot(rows, snap)
    {
      snap := [];
      for n := 0 to next
        invariant forall i, j :: 0 <= i < j < |snap| ==> snap[i].n < snap[j].n
        invariant forall id :: id in snap <==> id in rows && Unkeyed(rows[id]) && id.n < n
      {
        if Id(n) in rows && Unkeyed(rows[Id(n)]) {
          assert forall i :: 0 <= i < |snap| ==> snap[i] in snap;
          snap := snap + [Id(n)];
        }
      }
    }

    /** The row that has a key, if any. */
    method Keeper(k: string) returns (first: Option<Id>)
      ensures first.None? ==> !HasKey(rows, k)
      ensures first.Some? ==> first.value in rows && rows[first.value].key == Some(k)
    {
      if i :| i in rows && rows[i].key == Some(k) {
        return Some(i);
      }
      first := None;
    }

    /** One walked row: into the row that has its key, or keyed itself. */
    method MergeRow(id: Id, row: Incident) returns (removed: nat)
      requires Valid() && UniqueKeys(rows) && id in rows && rows[id].key.None?
      modifies this`rows
      ensures Valid() && UniqueKeys(rows)
      ensures rows == MergeOne(old(rows), id, row) && rows.Keys <= old(rows.Keys)
      ensures removed == |old(rows)| - |rows|
    {
      removed := 0;
      MergeOneKeepsUnique(rows, id, row);
      var key := KeyFromDetail(row.detail, row.start);
      if key.None? {
        return;
      }
      var keeper := Keeper(key.value);
      if keeper.Some? {
        OneReworded(rows, key.value, row.detail, keeper.value);
        SameSize(rows, rows[keeper.value := rows[keeper.value].(detail := row.detail)]);
        rows := rows[keeper.value := rows[keeper.value].(detail := row.detail)];
        OneLess(rows, id);
        rows := rows - {id};
        removed := 1;
      } else {
        SameSize(rows, rows[id := rows[id].(key := key)]);
        rows := rows[id := rows[id].(key := key)];
      }
    }

    method MergeDuplicateXids() returns (removed: nat, ghost snap: seq<Id>)
      requires Valid() && UniqueKeys(rows)
      modifies this`rows
      ensures Valid()
      ensures Snapshot(old(rows), snap) && rows == MergedAll(old(rows), snap)
      ensures removed == |old(rows)| - |rows|
    {
      removed := 0;
      var t := rows;
      var unkeyed := UnkeyedXids();
      snap := unkeyed;
      assert unkeyed[..0] == [];
      for n := 0 to |unkeyed|
        invariant Valid() && Walk(t, unkeyed[..n]) && rows == MergedAll(t, unkeyed[..n])
        invariant UniqueKeys(rows)
        invariant removed == |t| - |rows|
      {
        var id := unkeyed[n];
        WalkStep(t, unkeyed, n);
        var more := MergeRow(id, t[id]);
        removed := removed + more;
      }
      assert unkeyed[..|unkeyed|] == unkeyed;
    }
  }

  /** The next row to walk over is still as it was read. */
  lemma {:induction false} WalkStep(t: Rows, snap: seq<Id>, n: nat)
    requires Walk(t, snap) && n < |snap| && Walk(t, snap[..n])
    ensures snap[n] in t && Unkeyed(t[snap[n]]) && Walk(t, snap[..n+1])
    ensures snap[n] in MergedAll(t, snap[..n]) && MergedAll(t, snap[..n])[snap[n]] == t[snap[n]]
    ensures MergedAll(t, snap[..n+1]) == MergeOne(MergedAll(t, snap[..n]), snap[n], t[snap[n]])
  {
    assert snap[n] in snap;
    assert snap[..n+1][..n] == snap[..n];
    WalkPrefix(t, snap[..n+1]);
    MergedAllRow(t, snap[..n], snap[n]);
  }
}
