/** Finding the engines of this machine (`lss-collector/src/detect.rs`): the two-phase scan, which
    asks a proxy's port only one cheap question, against the full scan of every port. */
module Detect {
  import opened Wrappers

  /** An engine recognised by its fingerprint, or a plain OpenAI-compatible answer. */
  datatype Kind = OpenAi | Native(name: string)

  datatype Found = Found(kind: Kind, url: string, model: Option<string>)

  // ------------------------------------------------------------------ order

  predicate LexLeq(a: string, b: string) {
    a == [] || (b != [] && (a[0] < b[0] || (a[0] == b[0] && LexLeq(a[1..], b[1..]))))
  }

  lemma {:induction false} LexTotal(a: string, b: string)
    ensures LexLeq(a, b) || LexLeq(b, a)
    ensures LexLeq(a, b) && LexLeq(b, a) ==> a == b
  {
    if a != [] && b != [] {
      LexTotal(a[1..], b[1..]);
      if LexLeq(a, b) && LexLeq(b, a) {
        assert a == [a[0]] + a[1..] && b == [b[0]] + b[1..];
      }
    }
  }

  lemma {:induction false} LexTransitive(a: string, b: string, c: string)
    requires LexLeq(a, b) && LexLeq(b, c)
    ensures LexLeq(a, c)
  {
    if a != [] && a[0] == b[0] && b[0] == c[0] {
      LexTransitive(a[1..], b[1..], c[1..]);
    }
  }

  /** Engines known by name first, those with a model before those without, then by URL. */
  function Class(f: Found): nat {
    (if f.kind == OpenAi then 2 else 0) + if f.model.None? then 1 else 0
  }

  predicate Before(f: Found, g: Found) {
    Class(f) < Class(g) || (Class(f) == Class(g) && LexLeq(f.url, g.url))
  }

  lemma BeforeTotal(f: Found, g: Found)
    ensures Before(f, g) || Before(g, f)
    ensures Before(f, g) && Before(g, f) ==> f.url == g.url
  {
    LexTotal(f.url, g.url);
  }

  lemma BeforeTransitive(f: Found, g: Found, h: Found)
    requires Before(f, g) && Before(g, h)
    ensures Before(f, h)
  {
    if Class(f) == Class(g) == Class(h) {
      LexTransitive(f.url, g.url, h.url);
    }
  }

  ghost predicate Sorted(fs: seq<Found>) {
    forall i, j :: 0 <= i < j < |fs| ==> Before(fs[i], fs[j])
  }

  ghost predicate DistinctUrls(fs: seq<Found>) {
    forall i, j :: 0 <= i < j < |fs| ==> fs[i].url != fs[j].url
  }

  /** The stable sort by that order. */
  function Insert(fs: seq<Found>, f: Found): seq<Found> {
    if fs != [] && !Before(fs[|fs|-1], f) then Insert(fs[..|fs|-1], f) + [fs[|fs|-1]] else fs + [f]
  }

  function Sort(fs: seq<Found>): seq<Found> {
    if fs == [] then [] else Insert(Sort(fs[..|fs|-1]), fs[|fs|-1])
  }

  lemma {:induction false} InsertMeaning(fs: seq<Found>, f: Found)
    ensures multiset(Insert(fs, f)) == multiset(fs) + multiset{f}
  {
    if fs != [] {
      var init, last := fs[..|fs|-1], fs[|fs|-1];
      assert fs == init + [last];
      if !Before(last, f) {
        InsertMeaning(init, f);
      }
    }
  }

  lemma SortedLast(fs: seq<Found>, last: Found)
    requires Sorted(fs) && forall g :: g in fs ==> Before(g, last)
    ensures Sorted(fs + [last])
  {
  }

  lemma {:induction false} InsertSorted(fs: seq<Found>, f: Found)
    requires Sorted(fs)
    ensures Sorted(Insert(fs, f))
  {
    if fs != [] {
      var init, last := fs[..|fs|-1], fs[|fs|-1];
      BeforeTotal(last, f);
      if !Before(last, f) {
        InsertSorted(init, f);
        InsertMeaning(init, f);
        forall g | g in Insert(init, f) ensures Before(g, last) {
          assert g in multiset(Insert(init, f));
        }
        SortedLast(Insert(init, f), last);
      } else {
        forall g | g in fs ensures Before(g, f) {
          BeforeLast(fs, g);
          BeforeTransitive(g, last, f);
        }
        SortedLast(fs, f);
      }
    }
  }

  lemma BeforeLast(fs: seq<Found>, g: Found)
    requires Sorted(fs) && g in fs
    ensures Before(g, fs[|fs|-1])
  {
    BeforeTotal(g, g);
  }

  lemma {:induction false} SortMeaning(fs: seq<Found>)
    ensures Sorted(Sort(fs)) && multiset(Sort(fs)) == multiset(fs)
  {
    if fs != [] {
      assert fs == fs[..|fs|-1] + [fs[|fs|-1]];
      SortMeaning(fs[..|fs|-1]);
      InsertMeaning(Sort(fs[..|fs|-1]), fs[|fs|-1]);
      InsertSorted(Sort(fs[..|fs|-1]), fs[|fs|-1]);
    }
  }

  /** A sorted list stays as it is. */
  lemma {:induction false} SortSorted(fs: seq<Found>)
    requires Sorted(fs)
    ensures Sort(fs) == fs
  {
    if fs != [] {
      SortSorted(fs[..|fs|-1]);
    }
  }

  ghost predicate SameFinds(a: seq<Found>, b: seq<Found>) {
    forall f :: f in a <==> f in b
  }

  lemma DistinctTail(a: seq<Found>)
    requires a != [] && DistinctUrls(a)
    ensures DistinctUrls(a[1..]) && forall f :: f in a[1..] <==> f in a && f != a[0]
  {
    assert a == [a[0]] + a[1..];
  }

  lemma SameHead(a: seq<Found>, b: seq<Found>)
    requires Sorted(a) && Sorted(b) && DistinctUrls(a) && DistinctUrls(b) && SameFinds(a, b) && a != [] && b != []
    ensures a[0] == b[0]
  {
    assert a[0] in b && b[0] in a;
    var i :| 0 <= i < |b| && b[i] == a[0];
    var j :| 0 <= j < |a| && a[j] == b[0];
    BeforeTotal(a[0], b[0]);
  }

  lemma SameEmpty(a: seq<Found>, b: seq<Found>)
    requires SameFinds(a, b)
    ensures a == [] <==> b == []
  {
    if a != [] {
      assert a[0] in b;
    }
    if b != [] {
      assert b[0] in a;
    }
  }

  /** Two sorted lists of the same finds are the same list. */
  lemma {:induction false} SortedUnique(a: seq<Found>, b: seq<Found>)
    requires Sorted(a) && Sorted(b) && DistinctUrls(a) && DistinctUrls(b) && SameFinds(a, b)
    ensures a == b
  {
    SameEmpty(a, b);
    if a != [] {
      SameHead(a, b);
      DistinctTail(a);
      DistinctTail(b);
      SortedUnique(a[1..], b[1..]);
      assert a == [a[0]] + a[1..] && b == [b[0]] + b[1..];
    }
  }

  lemma {:induction false} InsertDistinct(fs: seq<Found>, f: Found)
    requires DistinctUrls(fs) && forall g :: g in fs ==> g.url != f.url
    ensures DistinctUrls(Insert(fs, f)) && forall g :: g in Insert(fs, f) <==> g in fs || g == f
  {
    if fs != [] && !Before(fs[|fs|-1], f) {
      var init, last := fs[..|fs|-1], fs[|fs|-1];
      assert fs == init + [last];
      DistinctLast(fs);
      InsertDistinct(init, f);
      forall i | 0 <= i < |Insert(init, f)| ensures Insert(init, f)[i].url != last.url {
        assert Insert(init, f)[i] in Insert(init, f);
      }
    }
  }

  lemma DistinctLast(fs: seq<Found>)
    requires fs != [] && DistinctUrls(fs)
    ensures DistinctUrls(fs[..|fs|-1]) && forall g :: g in fs[..|fs|-1] ==> g.url != fs[|fs|-1].url
  {
  }

  lemma {:induction false} SortDistinct(fs: seq<Found>)
    requires DistinctUrls(fs)
    ensures DistinctUrls(Sort(fs)) && SameFinds(Sort(fs), fs)
  {
    if fs != [] {
      var init, last := fs[..|fs|-1], fs[|fs|-1];
      assert fs == init + [last];
      DistinctLast(fs);
      SortDistinct(init);
      InsertDistinct(Sort(init), last);
    }
  }

  lemma {:induction false} SortIgnoresOrder(a: seq<Found>, b: seq<Found>)
    requires DistinctUrls(a) && DistinctUrls(b) && SameFinds(a, b)
    ensures Sort(a) == Sort(b)
  {
    SortMeaning(a);
    SortMeaning(b);
    SortDistinct(a);
    SortDistinct(b);
    SortedUnique(Sort(a), Sort(b));
  }

  // ------------------------------------------------------------------ rank

  ghost predicate NativeModel(fs: seq<Found>, m: Option<string>) {
    exists f :: f in fs && f.kind != OpenAi && f.model == m
  }

  function Natives(fs: seq<Found>): (ms: seq<Option<string>>)
    ensures forall m :: m in ms <==> NativeModel(fs, m)
  {
    if fs == [] then [] else
      var rest := Natives(fs[..|fs|-1]);
      assert fs == fs[..|fs|-1] + [fs[|fs|-1]];
      assert forall m :: NativeModel(fs, m) <==> NativeModel(fs[..|fs|-1], m) || (fs[|fs|-1].kind != OpenAi && fs[|fs|-1].model == m);
      if fs[|fs|-1].kind != OpenAi then rest + [fs[|fs|-1].model] else rest
  }

  function Kept(fs: seq<Found>, native: seq<Option<string>>): seq<Found> {
    if fs == [] then []
    else
      var rest := Kept(fs[..|fs|-1], native);
      var f := fs[|fs|-1];
      if f.kind != OpenAi || f.model !in native then rest + [f] else rest
  }

  function Ranked(fs: seq<Found>): seq<Found> {
    Sort(Kept(fs, Natives(fs)))
  }

  method Rank(found: seq<Found>) returns (ranked: seq<Found>)
    ensures ranked == Ranked(found)
  {
    var native: seq<Option<string>> := [];
    for i := 0 to |found|
      invariant native == Natives(found[..i])
    {
      assert found[..i+1][..i] == found[..i];
      if found[i].kind != OpenAi {
        native := native + [found[i].model];
      }
    }
    assert found[..|found|] == found;
    var kept: seq<Found> := [];
    for i := 0 to |found|
      invariant kept == Kept(found[..i], native)
    {
      assert found[..i+1][..i] == found[..i];
      if found[i].kind != OpenAi || found[i].model !in native {
        kept := kept + [found[i]];
      }
    }
    ranked := [];
    for i := 0 to |kept|
      invariant ranked == Sort(kept[..i])
    {
      assert kept[..i+1][..i] == kept[..i];
      ranked := Insert(ranked, kept[i]);
    }
    assert kept[..|kept|] == kept;
  }

  lemma {:induction false} KeptMeaning(fs: seq<Found>, native: seq<Option<string>>)
    ensures forall f :: f in Kept(fs, native) <==> f in fs && (f.kind != OpenAi || f.model !in native)
    ensures DistinctUrls(fs) ==> DistinctUrls(Kept(fs, native))
  {
    if fs != [] {
      var init, last := fs[..|fs|-1], fs[|fs|-1];
      assert fs == init + [last];
      KeptMeaning(init, native);
      if DistinctUrls(fs) {
        forall f | f in init ensures f.url != last.url {
          var i :| 0 <= i < |init| && init[i] == f;
          assert fs[i] == f && fs[|init|] == last;
        }
      }
    }
  }

  /** WHAT RANK KEEPS, and in which order: every engine known by name, every plain answer whose model
      no such engine serves, each find as often as it was there - best first. */
  lemma RankedMeaning(fs: seq<Found>, f: Found)
    ensures f in Ranked(fs) <==> f in fs && (f.kind != OpenAi || !NativeModel(fs, f.model))
    ensures Sorted(Ranked(fs))
  {
    var kept := Kept(fs, Natives(fs));
    KeptMeaning(fs, Natives(fs));
    SortMeaning(kept);
    assert f in Ranked(fs) <==> f in multiset(Sort(kept));
    assert f in kept <==> f in multiset(kept);
  }

  lemma {:induction false} KeptAll(fs: seq<Found>, native: seq<Option<string>>)
    requires forall f :: f in fs ==> f.kind != OpenAi || f.model !in native
    ensures Kept(fs, native) == fs
  {
    if fs != [] {
      assert fs == fs[..|fs|-1] + [fs[|fs|-1]];
      KeptAll(fs[..|fs|-1], native);
    }
  }

  /** RANKING TWICE is ranking once. */
  lemma RankIsIdempotent(fs: seq<Found>)
    ensures Ranked(Ranked(fs)) == Ranked(fs)
  {
    var r := Ranked(fs);
    forall f ensures f in r <==> f in fs && (f.kind != OpenAi || !NativeModel(fs, f.model)) {
      RankedMeaning(fs, f);
    }
    forall m ensures NativeModel(r, m) <==> NativeModel(fs, m) {
      if NativeModel(fs, m) {
        var f :| f in fs && f.kind != OpenAi && f.model == m;
        assert f in r;
      }
    }
    KeptAll(r, Natives(r));
    RankedMeaning(fs, Found(OpenAi, "", None));
    SortSorted(r);
  }

  /** The order of the list: engines known by name before plain answers, of each those with a model before
      those without, of these by address. */
  lemma BestFirst(fs: seq<Found>, i: nat, j: nat)
    requires i < j < |Ranked(fs)|
    ensures
      var f, g := Ranked(fs)[i], Ranked(fs)[j];
      && (g.kind != OpenAi ==> f.kind != OpenAi)
      && ((f.kind == OpenAi <==> g.kind == OpenAi) ==> (g.model.Some? ==> f.model.Some?))
      && ((f.kind == OpenAi <==> g.kind == OpenAi) && (f.model.Some? <==> g.model.Some?) ==> LexLeq(f.url, g.url))
  {
    RankedMeaning(fs, Ranked(fs)[i]);
    assert Before(Ranked(fs)[i], Ranked(fs)[j]);
  }

  /** The order of addresses is that of a dictionary. */
  lemma LexExamples()
    ensures LexLeq("", "a") && !LexLeq("a", "") && LexLeq("ab", "b") && LexLeq("a", "ab") && !LexLeq("b", "ab")
  {
  }

  /** THE ORDER OF THE FINDS DOES NOT MATTER: threads may finish in any order. */
  lemma RankIgnoresOrder(a: seq<Found>, b: seq<Found>)
    requires DistinctUrls(a) && DistinctUrls(b) && SameFinds(a, b)
    ensures Ranked(a) == Ranked(b)
  {
    forall m ensures NativeModel(a, m) <==> NativeModel(b, m) {}
    KeptMeaning(a, Natives(a));
    KeptMeaning(b, Natives(b));
    SortIgnoresOrder(Kept(a, Natives(a)), Kept(b, Natives(b)));
  }

  // ------------------------------------------------------------------ the two-phase scan

  type Port = nat

  /** What the full, multi-path identification of each port would say, and what the one cheap
      question (`/v1/models`) is answered with. */
  datatype Machine = Machine(detect: Port -> Option<Found>, cheap: Port -> Option<string>)

  function Detected(w: Machine, ports: seq<Port>): seq<Found> {
    if ports == [] then []
    else
      var rest := Detected(w, ports[..|ports|-1]);
      var f := w.detect(ports[|ports|-1]);
      if f.Some? then rest + [f.value] else rest
  }

  function KnownModels(fs: seq<Found>): (ms: set<string>)
    ensures forall m :: m in ms <==> NativeModel(fs, Some(m))
  {
    set f | f in fs && f.kind != OpenAi && f.model.Some? :: f.model.value
  }

  predicate Skipped(w: Machine, known: set<string>, p: Port) {
    w.cheap(p).Some? && w.cheap(p).value in known
  }

  /** The ports still asked in full. */
  function Asked(w: Machine, known: set<string>, ports: seq<Port>): seq<Port> {
    if ports == [] then []
    else
      var rest := Asked(w, known, ports[..|ports|-1]);
      if Skipped(w, known, ports[|ports|-1]) then rest else rest + [ports[|ports|-1]]
  }

  function FullScan(w: Machine, primary: seq<Port>, secondary: seq<Port>): seq<Found> {
    Ranked(Detected(w, primary) + Detected(w, secondary))
  }

  function TwoPhase(w: Machine, primary: seq<Port>, secondary: seq<Port>): seq<Found> {
    var found := Detected(w, primary);
    Ranked(found + Detected(w, Asked(w, KnownModels(found), secondary)))
  }

  /** `scan_ports`: first the well-known ports in full, then the others, cheap question first. */
  method ScanPorts(w: Machine, primary: seq<Port>, secondary: seq<Port>) returns (ranked: seq<Found>)
    ensures ranked == TwoPhase(w, primary, secondary)
  {
    var found: seq<Found> := [];
    for i := 0 to |primary|
      invariant found == Detected(w, primary[..i])
    {
      assert primary[..i+1][..i] == primary[..i];
      var f := w.detect(primary[i]);
      if f.Some? {
        found := found + [f.value];
      }
    }
    assert primary[..|primary|] == primary;
    var known := KnownModels(found);
    var second: seq<Found> := [];
    for i := 0 to |secondary|
      invariant second == Detected(w, Asked(w, known, secondary[..i]))
    {
      assert secondary[..i+1][..i] == secondary[..i];
      if !(w.cheap(secondary[i]).Some? && w.cheap(secondary[i]).value in known) {
        var asked := Asked(w, known, secondary[..i]);
        assert (asked + [secondary[i]])[..|asked|] == asked;
        var f := w.detect(secondary[i]);
        if f.Some? {
          second := second + [f.value];
        }
      }
    }
    assert secondary[..|secondary|] == secondary;
    ranked := Rank(found + second);
  }

  lemma {:induction false} DetectedMeaning(w: Machine, ports: seq<Port>, f: Found)
    ensures f in Detected(w, ports) <==> exists p :: p in ports && w.detect(p) == Some(f)
  {
    if ports != [] {
      assert ports == ports[..|ports|-1] + [ports[|ports|-1]];
      DetectedMeaning(w, ports[..|ports|-1], f);
    }
  }

  lemma {:induction false} AskedMeaning(w: Machine, known: set<string>, ports: seq<Port>)
    ensures forall p :: p in Asked(w, known, ports) <==> p in ports && !Skipped(w, known, p)
  {
    if ports != [] {
      assert ports == ports[..|ports|-1] + [ports[|ports|-1]];
      AskedMeaning(w, known, ports[..|ports|-1]);
    }
  }

  /** The find a skipped port would have made is one that ranking throws away. */
  ghost predicate Harmless(w: Machine, all: seq<Found>, p: Port) {
    match w.detect(p)
    case None => true
    case Some(f) => f.kind == OpenAi && NativeModel(all, f.model)
  }

  /** Different ports answer under different URLs. */
  ghost predicate OneUrlPerPort(w: Machine) {
    forall p, q :: w.detect(p).Some? && w.detect(q).Some? && w.detect(p).value.url == w.detect(q).value.url ==> p == q
  }

  ghost predicate DistinctPorts(ps: seq<Port>) {
    forall i, j :: 0 <= i < j < |ps| ==> ps[i] != ps[j]
  }

  /** Every find of a list of ports, with the port it came from. */
  lemma {:induction false} DetectedDistinct(w: Machine, ports: seq<Port>)
    requires OneUrlPerPort(w) && DistinctPorts(ports)
    ensures DistinctUrls(Detected(w, ports))
  {
    if ports != [] {
      var init, last := ports[..|ports|-1], ports[|ports|-1];
      DetectedDistinct(w, init);
      forall g | g in Detected(w, init) && w.detect(last).Some? ensures g.url != w.detect(last).value.url {
        DetectedMeaning(w, init, g);
        var p :| p in init && w.detect(p) == Some(g);
        assert p != last;
      }
    }
  }

  lemma {:induction false} DetectedConcat(w: Machine, a: seq<Port>, b: seq<Port>)
    ensures Detected(w, a + b) == Detected(w, a) + Detected(w, b)
  {
    if b == [] {
      assert a + b == a;
    } else {
      assert (a + b)[..|a + b|-1] == a + b[..|b|-1];
      DetectedConcat(w, a, b[..|b|-1]);
    }
  }

  lemma OneMorePort(ps: seq<Port>, p: Port)
    requires DistinctPorts(ps) && forall i :: 0 <= i < |ps| ==> ps[i] != p
    ensures DistinctPorts(ps + [p])
  {
  }

  lemma {:induction false} AskedDistinct(w: Machine, known: set<string>, a: seq<Port>, b: seq<Port>)
    requires DistinctPorts(a + b)
    ensures DistinctPorts(a + Asked(w, known, b))
  {
    if b != [] {
      var init, last := b[..|b|-1], b[|b|-1];
      assert (a + b)[..|a + b|-1] == a + init;
      assert DistinctPorts(a + init);
      AskedDistinct(w, known, a, init);
      AskedMeaning(w, known, init);
      if !Skipped(w, known, last) {
        var asked := Asked(w, known, init);
        assert a + Asked(w, known, b) == a + asked + [last];
        forall i | 0 <= i < |a + asked| ensures (a + asked)[i] != last {
          if i < |a| {
            assert (a + b)[i] != (a + b)[|a + b|-1];
          } else {
            assert asked[i - |a|] in init;
            var j :| 0 <= j < |init| && init[j] == asked[i - |a|];
            assert (a + b)[|a| + j] != (a + b)[|a + b|-1];
          }
        }
        OneMorePort(a + asked, last);
      }
    }
  }

  /** THE TWO-PHASE SCAN IS THE FULL SCAN exactly when every port it skips would have been nothing,
      or a plain answer with a model some engine known by name serves. */
  lemma {:induction false} TwoPhaseIsFull(w: Machine, primary: seq<Port>, secondary: seq<Port>)
    requires OneUrlPerPort(w) && DistinctPorts(primary + secondary)
    ensures
      var all := Detected(w, primary + secondary);
      TwoPhase(w, primary, secondary) == FullScan(w, primary, secondary)
      <==> forall p :: p in secondary && Skipped(w, KnownModels(Detected(w, primary)), p) ==> Harmless(w, all, p)
  {
    var known := KnownModels(Detected(w, primary));
    var all := Detected(w, primary + secondary);
    DetectedConcat(w, primary, secondary);
    if forall p :: p in secondary && Skipped(w, known, p) ==> Harmless(w, all, p) {
      SkippingIsHarmless(w, primary, secondary);
    } else {
      var p :| p in secondary && Skipped(w, known, p) && !Harmless(w, all, p);
      SkippingLosesAFind(w, primary, secondary, p);
    }
  }

  function TwoEngines(p: Port): Option<Found> {
    if p == 8000 then Some(Found(Native("vllm"), "a", Some("m")))
    else if p == 30000 then Some(Found(Native("sglang"), "b", Some("m")))
    else None
  }

  function OneModel(p: Port): Option<string> {
    if p == 8000 || p == 30000 then Some("m") else None
  }

  /** A second engine known by name that serves the first one's model: the cheap answer names a known
      model, the port is skipped, and the engine is not found. */
  lemma SecondEngineMissed(w: Machine)
    requires w == Machine(TwoEngines, OneModel)
    ensures OneUrlPerPort(w) && DistinctPorts([8000] + [30000])
    ensures TwoPhase(w, [8000], [30000]) != FullScan(w, [8000], [30000])
  {
    var known := KnownModels(Detected(w, [8000]));
    var first := w.detect(8000).value;
    DetectedMeaning(w, [8000], first);
    assert 8000 in [8000] && Some("m") == first.model;
    assert NativeModel(Detected(w, [8000]), Some("m"));
    assert "m" in known && Skipped(w, known, 30000) && 30000 in [30000];
    assert !Harmless(w, Detected(w, [8000] + [30000]), 30000);
    SkippingLosesAFind(w, [8000], [30000], 30000);
  }

  lemma {:induction false} SkippingLosesAFind(w: Machine, primary: seq<Port>, secondary: seq<Port>, p: Port)
    requires OneUrlPerPort(w) && DistinctPorts(primary + secondary)
    requires p in secondary && Skipped(w, KnownModels(Detected(w, primary)), p)
    requires !Harmless(w, Detected(w, primary + secondary), p)
    ensures TwoPhase(w, primary, secondary) != FullScan(w, primary, secondary)
  {
    var known := KnownModels(Detected(w, primary));
    var f := w.detect(p).value;
    var asked := Asked(w, known, secondary);
    DetectedConcat(w, primary, secondary);
    DetectedMeaning(w, secondary, f);
    RankedMeaning(Detected(w, primary) + Detected(w, secondary), f);
    RankedMeaning(Detected(w, primary) + Detected(w, asked), f);
    assert f in FullScan(w, primary, secondary);
    DetectedMeaning(w, primary, f);
    DetectedMeaning(w, asked, f);
    AskedMeaning(w, known, secondary);
    NotBoth(primary, secondary, p);
  }

  lemma NotBoth(a: seq<Port>, b: seq<Port>, p: Port)
    requires DistinctPorts(a + b) && p in b
    ensures p !in a
  {
    var j :| 0 <= j < |b| && b[j] == p;
    assert (a + b)[|a| + j] == p;
    forall i | 0 <= i < |a| ensures a[i] != p {
      assert (a + b)[i] == a[i];
    }
  }

  /** What the two-phase scan finds besides what it skips. */
  lemma {:induction false} AllOrSkipped(w: Machine, primary: seq<Port>, secondary: seq<Port>, f: Found)
    ensures
      var known := KnownModels(Detected(w, primary));
      var all, two := Detected(w, primary) + Detected(w, secondary), Detected(w, primary) + Detected(w, Asked(w, known, secondary));
      && (f in two ==> f in all)
      && (f in all && f !in two ==> exists p :: p in secondary && Skipped(w, known, p) && w.detect(p) == Some(f))
  {
    var known := KnownModels(Detected(w, primary));
    DetectedMeaning(w, primary, f);
    DetectedMeaning(w, secondary, f);
    DetectedMeaning(w, Asked(w, known, secondary), f);
    AskedMeaning(w, known, secondary);
  }

  lemma {:induction false} SkippingIsHarmless(w: Machine, primary: seq<Port>, secondary: seq<Port>)
    requires OneUrlPerPort(w) && DistinctPorts(primary + secondary)
    requires
      var known := KnownModels(Detected(w, primary));
      forall p :: p in secondary && Skipped(w, known, p) ==> Harmless(w, Detected(w, primary + secondary), p)
    ensures TwoPhase(w, primary, secondary) == FullScan(w, primary, secondary)
  {
    var known := KnownModels(Detected(w, primary));
    var asked := Asked(w, known, secondary);
    var all, two := Detected(w, primary) + Detected(w, secondary), Detected(w, primary) + Detected(w, asked);
    DetectedConcat(w, primary, secondary);
    DetectedConcat(w, primary, asked);
    forall f
      ensures f in two ==> f in all
      ensures f in all && f !in two ==> f.kind == OpenAi && NativeModel(all, f.model)
    {
      AllOrSkipped(w, primary, secondary, f);
    }
    forall m ensures NativeModel(two, m) <==> NativeModel(all, m) {}
    DetectedDistinct(w, primary + secondary);
    AskedDistinct(w, known, primary, secondary);
    DetectedDistinct(w, primary + asked);
    KeptMeaning(all, Natives(all));
    KeptMeaning(two, Natives(two));
    SortIgnoresOrder(Kept(all, Natives(all)), Kept(two, Natives(two)));
  }

  /** In particular: a proxy whose full identification agrees with its cheap answer is always
      skipped safely. */
  lemma {:induction false} HonestProxiesAreSkippedSafely(w: Machine, primary: seq<Port>, secondary: seq<Port>)
    requires OneUrlPerPort(w) && DistinctPorts(primary + secondary)
    requires forall p :: p in secondary && Skipped(w, KnownModels(Detected(w, primary)), p) && w.detect(p).Some? ==>
               w.detect(p).value.kind == OpenAi && w.detect(p).value.model == w.cheap(p)
    ensures TwoPhase(w, primary, secondary) == FullScan(w, primary, secondary)
  {
    var known, found := KnownModels(Detected(w, primary)), Detected(w, primary);
    DetectedConcat(w, primary, secondary);
    forall p | p in secondary && Skipped(w, known, p) ensures Harmless(w, Detected(w, primary + secondary), p) {
      assert NativeModel(found, w.cheap(p));
      var g :| g in found && g.kind != OpenAi && g.model == w.cheap(p);
      assert g in found + Detected(w, secondary);
    }
    TwoPhaseIsFull(w, primary, secondary);
  }
}
