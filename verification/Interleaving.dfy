/** What of a device's events depends on how the detectors' events interleave. */
module Interleaving {
  import opened Events
  import opened CoordinatorSpec
  import opened CoordinatorHistory

  /** Both have the same accepted events of each detector for each device, in the
      same order: any two may be what the detectors of one run delivered. */
  ghost predicate Interleaves(g: seq<Input>, h: seq<Input>) {
    forall e, z :: InputsAbout(g, e, z) == InputsAbout(h, e, z)
  }

  /** The ONs and OFFs emitted for d. */
  function Kinds(h: seq<Input>, d: string): seq<u32> {
    var events := EventsOf(RunAll(h).log, d);
    seq(|events|, k requires 0 <= k < |events| => events[k].kind)
  }

  /** Some input of x moved it, for d, to this kind. */
  ghost predicate Switched(h: seq<Input>, d: string, x: string, kind: u32) {
    h != [] &&
    var p, i := h[..|h| - 1], h[|h| - 1];
    Switched(p, d, x, kind) || (About(i, d, x) && i.ev.kind == kind && Changes(p, i))
  }

  // --- What does not depend ---

  /** With the accepted events for a device in the same order its events are the
      same, whatever comes in between. */
  lemma SameOrderSameEvents(g: seq<Input>, h: seq<Input>, d: string)
    requires InputsOf(g, d) == InputsOf(h, d)
    ensures EventsOf(RunAll(g).log, d) == EventsOf(RunAll(h).log, d)
    ensures DetectorsOn(RunAll(g).active, d) == DetectorsOn(RunAll(h).active, d)
  {
    Projection(g, d);
    Projection(h, d);
  }

  lemma {:induction false} SoleSource(h: seq<Input>, d: string, x: string)
    requires forall k :: 0 <= k < |h| && Concerns(h[k], d) ==> h[k].ev.detector == x
    ensures InputsOf(h, d) == InputsAbout(h, d, x)
  {
    if h != [] {
      SoleSource(h[..|h| - 1], d, x);
    }
  }

  /** In particular with one detector, as main starts it, interleaving with other
      devices never shows. */
  lemma OneDetectorSameEvents(g: seq<Input>, h: seq<Input>, d: string, x: string)
    requires forall k :: 0 <= k < |g| && Concerns(g[k], d) ==> g[k].ev.detector == x
    requires forall k :: 0 <= k < |h| && Concerns(h[k], d) ==> h[k].ev.detector == x
    requires Interleaves(g, h)
    ensures EventsOf(RunAll(g).log, d) == EventsOf(RunAll(h).log, d)
  {
    SoleSource(g, d, x);
    SoleSource(h, d, x);
    assert InputsAbout(g, d, x) == InputsAbout(h, d, x);
    SameOrderSameEvents(g, h, d);
  }

  // --- The events of d as flips of its set of detectors ---

  function NextOn(on: set<string>, i: Input, d: string): set<string> {
    if !Concerns(i, d) then on
    else if i.ev.kind == RECORDING_ON then on + {i.ev.detector} else on - {i.ev.detector}
  }

  function OnAfter(on: set<string>, q: seq<Input>, d: string): set<string> {
    if q == [] then on else NextOn(OnAfter(on, q[..|q| - 1], d), q[|q| - 1], d)
  }

  /** How often the set becomes empty or stops being so. */
  function Flips(on: set<string>, q: seq<Input>, d: string): nat {
    if q == [] then 0 else
    var p := q[..|q| - 1];
    Flips(on, p, d) + if (OnAfter(on, p, d) == {}) == (OnAfter(on, q, d) == {}) then 0 else 1
  }

  lemma FlipsSnoc(on: set<string>, p: seq<Input>, i: Input, d: string)
    ensures OnAfter(on, p + [i], d) == NextOn(OnAfter(on, p, d), i, d)
    ensures Flips(on, p + [i], d) == Flips(on, p, d) +
            if (OnAfter(on, p, d) == {}) == (OnAfter(on, p + [i], d) == {}) then 0 else 1
  {
    assert (p + [i])[..|p|] == p;
  }

  lemma {:induction false} FlipsAppend(on: set<string>, p: seq<Input>, q: seq<Input>, d: string)
    ensures OnAfter(on, p + q, d) == OnAfter(OnAfter(on, p, d), q, d)
    ensures Flips(on, p + q, d) == Flips(on, p, d) + Flips(OnAfter(on, p, d), q, d)
    decreases |q|
  {
    if q == [] {
      assert p + q == p;
    } else {
      var n := |q| - 1;
      assert p + q == (p + q[..n]) + [q[n]] && q == q[..n] + [q[n]];
      FlipsAppend(on, p, q[..n], d);
      FlipsSnoc(on, p + q[..n], q[n], d);
      FlipsSnoc(OnAfter(on, p, d), q[..n], q[n], d);
    }
  }

  lemma {:induction false} FlipsParity(on: set<string>, q: seq<Input>, d: string)
    ensures Flips(on, q, d) % 2 == 0 <==> (on == {}) == (OnAfter(on, q, d) == {})
  {
    if q != [] {
      FlipsParity(on, q[..|q| - 1], d);
    }
  }

  lemma {:induction false} RunFlips(h: seq<Input>, d: string)
    ensures OnAfter({}, h, d) == DetectorsOn(RunAll(h).active, d)
    ensures Flips({}, h, d) == |EventsOf(RunAll(h).log, d)|
  {
    if h != [] {
      var p, i := h[..|h| - 1], h[|h| - 1];
      RunFlips(p, d);
      StepDetectors(RunAll(p), i, d);
      EventsStep(RunAll(p), i, d);
    }
  }

  lemma MemberIsOn(h: seq<Input>, d: string, x: string)
    ensures x in OnAfter({}, h, d) <==> IsOn(h, d, x)
  {
    RunFlips(h, d);
    ActiveIsLastOn(h, d, x);
  }

  /** As the events alternate from an ON, their number says it all. */
  lemma KindsByFlips(g: seq<Input>, h: seq<Input>, d: string)
    ensures Kinds(g, d) == Kinds(h, d) <==> Flips({}, g, d) == Flips({}, h, d)
  {
    RunFlips(g, d);
    RunFlips(h, d);
    Alternation(g, d);
    Alternation(h, d);
    if Flips({}, g, d) == Flips({}, h, d) {
      forall k | 0 <= k < |Kinds(g, d)| ensures Kinds(g, d)[k] == Kinds(h, d)[k] {
      }
    } else {
      assert |Kinds(g, d)| != |Kinds(h, d)|;
    }
  }

  lemma SwitchedSnoc(p: seq<Input>, i: Input, d: string, x: string, kind: u32)
    ensures Switched(p + [i], d, x, kind) <==>
            Switched(p, d, x, kind) || (About(i, d, x) && i.ev.kind == kind && Changes(p, i))
  {
    assert (p + [i])[..|p|] == p;
  }

  lemma ChangesAlone(p: seq<Input>, i: Input, d: string, x: string)
    requires About(i, d, x)
    ensures Changes(InputsAbout(p, d, x), i) <==> Changes(p, i)
  {
    IsOnAlone(p, d, x);
  }

  lemma {:induction false} SwitchedAlone(h: seq<Input>, d: string, x: string, kind: u32)
    ensures Switched(InputsAbout(h, d, x), d, x, kind) <==> Switched(h, d, x, kind)
  {
    if h != [] {
      var p, i := h[..|h| - 1], h[|h| - 1];
      assert h == p + [i];
      SwitchedAlone(p, d, x, kind);
      SwitchedSnoc(p, i, d, x, kind);
      if About(i, d, x) {
        SwitchedSnoc(InputsAbout(p, d, x), i, d, x, kind);
        ChangesAlone(p, i, d, x);
      }
    }
  }

  /** When only x is ever switched on, the others' OFFs are strays. */
  lemma {:induction false} OnlyOne(h: seq<Input>, d: string, x: string)
    requires forall y :: y != x ==> !Switched(h, d, y, RECORDING_ON)
    ensures OnAfter({}, h, d) == OnAfter({}, InputsAbout(h, d, x), d) <= {x}
    ensures Flips({}, h, d) == Flips({}, InputsAbout(h, d, x), d)
  {
    if h != [] {
      var p, i := h[..|h| - 1], h[|h| - 1];
      assert forall y :: Switched(p, d, y, RECORDING_ON) ==> Switched(h, d, y, RECORDING_ON);
      OnlyOne(p, d, x);
      if About(i, d, x) {
        FlipsSnoc({}, InputsAbout(p, d, x), i, d);
      } else if Concerns(i, d) {
        var y := i.ev.detector;
        MemberIsOn(p, d, y);
        assert !Switched(h, d, y, RECORDING_ON);
        assert i.ev.kind == RECORDING_OFF;
      }
    }
  }

  /** When no detector is ever switched off, there is at most the one ON. */
  lemma {:induction false} NeverOff(h: seq<Input>, d: string)
    requires forall x :: !Switched(h, d, x, RECORDING_OFF)
    ensures Flips({}, h, d) == if OnAfter({}, h, d) == {} then 0 else 1
  {
    if h != [] {
      var p, i := h[..|h| - 1], h[|h| - 1];
      assert forall x :: Switched(p, d, x, RECORDING_OFF) ==> Switched(h, d, x, RECORDING_OFF);
      NeverOff(p, d);
      if Concerns(i, d) {
        MemberIsOn(p, d, i.ev.detector);
        assert !Switched(h, d, i.ev.detector, RECORDING_OFF);
      }
    }
  }

  /** One detector switches d off and another switches it on. */
  ghost predicate Contended(h: seq<Input>, d: string) {
    exists x, y :: x != y && Switched(h, d, x, RECORDING_OFF) && Switched(h, d, y, RECORDING_ON)
  }

  lemma SwitchedSame(g: seq<Input>, h: seq<Input>, d: string, x: string, kind: u32)
    requires Interleaves(g, h)
    ensures Switched(g, d, x, kind) <==> Switched(h, d, x, kind)
  {
    assert InputsAbout(g, d, x) == InputsAbout(h, d, x);
    SwitchedAlone(g, d, x, kind);
    SwitchedAlone(h, d, x, kind);
  }

  lemma OrderFixed(g: seq<Input>, h: seq<Input>, d: string)
    requires Interleaves(g, h) && !Contended(h, d)
    ensures Flips({}, g, d) == Flips({}, h, d)
  {
    if x :| Switched(h, d, x, RECORDING_OFF) {
      forall y | y != x ensures !Switched(h, d, y, RECORDING_ON) && !Switched(g, d, y, RECORDING_ON) {
        SwitchedSame(g, h, d, y, RECORDING_ON);
      }
      OnlyOne(g, d, x);
      OnlyOne(h, d, x);
      assert InputsAbout(g, d, x) == InputsAbout(h, d, x);
    } else {
      forall x ensures !Switched(g, d, x, RECORDING_OFF) {
        SwitchedSame(g, h, d, x, RECORDING_OFF);
      }
      NeverOff(g, d);
      NeverOff(h, d);
      Confluence(g, h);
      RunFlips(g, d);
      RunFlips(h, d);
    }
  }

  // --- What does ---

  ghost predicate AllAbout(q: seq<Input>, d: string, x: string) {
    forall k :: 0 <= k < |q| ==> About(q[k], d, x)
  }

  lemma AllAboutParts(q: seq<Input>, d: string, x: string, k: nat)
    requires AllAbout(q, d, x) && k <= |q|
    ensures AllAbout(q[..k], d, x) && AllAbout(q[k..], d, x)
  {
    assert forall i :: 0 <= i < |q| - k ==> q[k..][i] == q[k + i];
  }

  lemma {:induction false} AboutAll(h: seq<Input>, d: string, x: string)
    ensures AllAbout(InputsAbout(h, d, x), d, x)
  {
    if h != [] {
      AboutAll(h[..|h| - 1], d, x);
    }
  }

  lemma {:induction false} AboutPure(q: seq<Input>, d: string, x: string, e: string, z: string)
    requires AllAbout(q, d, x)
    ensures InputsAbout(q, e, z) == if e == d && z == x then q else []
  {
    if q != [] {
      AboutPure(q[..|q| - 1], d, x, e, z);
    }
  }

  lemma {:induction false} AboutAppend(p: seq<Input>, q: seq<Input>, d: string, x: string)
    ensures InputsAbout(p + q, d, x) == InputsAbout(p, d, x) + InputsAbout(q, d, x)
    decreases |q|
  {
    if q == [] {
      assert p + q == p;
    } else {
      var n := |q| - 1;
      assert p + q == (p + q[..n]) + [q[n]];
      AboutAppend(p, q[..n], d, x);
      InputsAboutSnoc(p + q[..n], q[n], d, x);
    }
  }

  /** The inputs of neither x nor y for d. */
  function Others(h: seq<Input>, d: string, x: string, y: string): seq<Input> {
    if h == [] then [] else
    var rest, i := Others(h[..|h| - 1], d, x, y), h[|h| - 1];
    if About(i, d, x) || About(i, d, y) then rest else rest + [i]
  }

  lemma {:induction false} OthersAbout(h: seq<Input>, d: string, x: string, y: string, e: string, z: string)
    ensures InputsAbout(Others(h, d, x, y), e, z) == if e == d && (z == x || z == y) then [] else InputsAbout(h, e, z)
  {
    if h != [] {
      OthersAbout(h[..|h| - 1], d, x, y, e, z);
      InputsAboutSnoc(Others(h[..|h| - 1], d, x, y), h[|h| - 1], e, z);
    }
  }

  /** Where the history of x alone moves it to this kind. */
  lemma {:induction false} Moment(q: seq<Input>, d: string, x: string, kind: u32) returns (k: nat)
    requires Switched(q, d, x, kind)
    ensures k < |q| && About(q[k], d, x) && q[k].ev.kind == kind && Changes(q[..k], q[k])
  {
    var n := |q| - 1;
    if Switched(q[..n], d, x, kind) {
      k := Moment(q[..n], d, x, kind);
      assert q[..n][..k] == q[..k];
    } else {
      k := n;
    }
  }

  lemma {:induction false} StaysOn(on: set<string>, q: seq<Input>, d: string, x: string, y: string)
    requires AllAbout(q, d, x) && x != y && y in on
    ensures y in OnAfter(on, q, d) && Flips(on, q, d) == 0
  {
    if q != [] {
      StaysOn(on, q[..|q| - 1], d, x, y);
    }
  }

  lemma {:induction false} OnlyIts(q: seq<Input>, d: string, x: string)
    requires AllAbout(q, d, x)
    ensures OnAfter({}, q, d) <= {x}
  {
    if q != [] {
      OnlyIts(q[..|q| - 1], d, x);
    }
  }

  /** A history of x alone up to where it is switched off has both edges. */
  lemma OffFlips(q: seq<Input>, d: string, x: string, k: nat)
    requires AllAbout(q, d, x) && k < |q| && q[k].ev.kind == RECORDING_OFF && Changes(q[..k], q[k])
    ensures OnAfter({}, q[..k + 1], d) == {} && Flips({}, q[..k + 1], d) >= 2
  {
    assert q[..k + 1] == q[..k] + [q[k]];
    OnlyIts(q[..k], d, x);
    MemberIsOn(q[..k], d, x);
    FlipsParity({}, q[..k], d);
    FlipsSnoc({}, q[..k], q[k], d);
  }

  lemma OnStays(q: seq<Input>, d: string, y: string, k: nat)
    requires AllAbout(q, d, y) && k < |q| && q[k].ev.kind == RECORDING_ON
    ensures y in OnAfter({}, q[..k + 1], d)
  {
    assert q[..k + 1] == q[..k] + [q[k]];
    FlipsSnoc({}, q[..k], q[k], d);
  }

  lemma EitherAbout(px: seq<Input>, py: seq<Input>, d: string, x: string, y: string, e: string, z: string)
    requires x != y && AllAbout(px, d, x) && AllAbout(py, d, y)
    ensures InputsAbout(px + py, e, z) == InputsAbout(py + px, e, z)
            == if e == d && z == x then px else if e == d && z == y then py else []
  {
    AboutAppend(px, py, e, z);
    AboutAppend(py, px, e, z);
    AboutPure(px, d, x, e, z);
    AboutPure(py, d, y, e, z);
  }

  /** x and y in either order end alike. */
  lemma EitherOrder(px: seq<Input>, py: seq<Input>, d: string, x: string, y: string)
    requires x != y && AllAbout(px, d, x) && AllAbout(py, d, y)
    ensures OnAfter({}, px + py, d) == OnAfter({}, py + px, d)
  {
    forall e, z ensures InputsAbout(px + py, e, z) == InputsAbout(py + px, e, z) {
      EitherAbout(px, py, d, x, y, e, z);
    }
    Confluence(px + py, py + px);
    RunFlips(px + py, d);
    RunFlips(py + px, d);
  }

  lemma FlipsDiffer(px: seq<Input>, py: seq<Input>, rest: seq<Input>, d: string, x: string, y: string)
    requires x != y && AllAbout(px, d, x) && AllAbout(py, d, y)
    requires OnAfter({}, px, d) == {} && Flips({}, px, d) >= 2 && y in OnAfter({}, py, d)
    ensures Flips({}, (px + py) + rest, d) >= Flips({}, (py + px) + rest, d) + 2
  {
    FlipsAppend({}, px, py, d);
    FlipsAppend({}, py, px, d);
    StaysOn(OnAfter({}, py, d), px, d, x, y);
    EitherOrder(px, py, d, x, y);
    FlipsAppend({}, px + py, rest, d);
    FlipsAppend({}, py + px, rest, d);
  }

  lemma RearrangedAt(h: seq<Input>, d: string, x: string, y: string, p: seq<Input>, px: seq<Input>, rx: seq<Input>,
                     py: seq<Input>, ry: seq<Input>, rest: seq<Input>, e: string, z: string)
    requires x != y && InputsAbout(h, d, x) == px + rx && InputsAbout(h, d, y) == py + ry
    requires AllAbout(rx, d, x) && AllAbout(ry, d, y) && rest == (rx + ry) + Others(h, d, x, y)
    requires InputsAbout(p, e, z) == if e == d && z == x then px else if e == d && z == y then py else []
    ensures InputsAbout(p + rest, e, z) == InputsAbout(h, e, z)
  {
    EitherAbout(rx, ry, d, x, y, e, z);
    OthersAbout(h, d, x, y, e, z);
    AboutAppend(rx + ry, Others(h, d, x, y), e, z);
    AboutAppend(p, rest, e, z);
  }

  /** What x and y do first, in either order, then what they do later, then the
      other inputs of h: an interleaving of h. */
  lemma Rearranged(h: seq<Input>, d: string, x: string, y: string,
                   px: seq<Input>, rx: seq<Input>, py: seq<Input>, ry: seq<Input>, rest: seq<Input>)
    requires x != y && InputsAbout(h, d, x) == px + rx && InputsAbout(h, d, y) == py + ry
    requires AllAbout(px, d, x) && AllAbout(rx, d, x) && AllAbout(py, d, y) && AllAbout(ry, d, y)
    requires rest == (rx + ry) + Others(h, d, x, y)
    ensures Interleaves((px + py) + rest, h) && Interleaves((py + px) + rest, h)
  {
    forall e, z ensures InputsAbout((px + py) + rest, e, z) == InputsAbout(h, e, z)
                && InputsAbout((py + px) + rest, e, z) == InputsAbout(h, e, z)
    {
      EitherAbout(px, py, d, x, y, e, z);
      RearrangedAt(h, d, x, y, px + py, px, rx, py, ry, rest, e, z);
      RearrangedAt(h, d, x, y, py + px, px, rx, py, ry, rest, e, z);
    }
  }

  /** The inputs of x for d, cut where it has switched to this kind. */
  lemma Cut(h: seq<Input>, d: string, x: string, kind: u32) returns (p: seq<Input>, r: seq<Input>)
    requires Switched(h, d, x, kind) && (kind == RECORDING_ON || kind == RECORDING_OFF)
    ensures InputsAbout(h, d, x) == p + r && AllAbout(p, d, x) && AllAbout(r, d, x)
    ensures if kind == RECORDING_ON then x in OnAfter({}, p, d) else OnAfter({}, p, d) == {} && Flips({}, p, d) >= 2
  {
    var q := InputsAbout(h, d, x);
    AboutAll(h, d, x);
    SwitchedAlone(h, d, x, kind);
    var k := Moment(q, d, x, kind);
    p, r := q[..k + 1], q[k + 1..];
    assert q == p + r;
    AllAboutParts(q, d, x, k + 1);
    if kind == RECORDING_ON {
      OnStays(q, d, x, k);
    } else {
      OffFlips(q, d, x, k);
    }
  }

  lemma Reorders(h: seq<Input>, d: string, x: string, y: string) returns (g: seq<Input>)
    requires x != y && Switched(h, d, x, RECORDING_OFF) && Switched(h, d, y, RECORDING_ON)
    ensures Interleaves(g, h) && Flips({}, g, d) != Flips({}, h, d)
  {
    var px, rx := Cut(h, d, x, RECORDING_OFF);
    var py, ry := Cut(h, d, y, RECORDING_ON);
    var rest := (rx + ry) + Others(h, d, x, y);
    Rearranged(h, d, x, y, px, rx, py, ry, rest);
    FlipsDiffer(px, py, rest, d, x, y);
    g := if Flips({}, (px + py) + rest, d) != Flips({}, h, d) then (px + py) + rest else (py + px) + rest;
  }

  /** For every history the ONs and OFFs of d depend on how the detectors' events
      interleave exactly when one detector switches d off and another switches it
      on. */
  lemma OrderMatters(h: seq<Input>, d: string)
    ensures (exists g :: Interleaves(g, h) && Kinds(g, d) != Kinds(h, d)) <==> Contended(h, d)
  {
    if Contended(h, d) {
      var x, y :| x != y && Switched(h, d, x, RECORDING_OFF) && Switched(h, d, y, RECORDING_ON);
      var g := Reorders(h, d, x, y);
      KindsByFlips(g, h, d);
    } else {
      forall g | Interleaves(g, h) ensures Kinds(g, d) == Kinds(h, d) {
        OrderFixed(g, h, d);
        KindsByFlips(g, h, d);
      }
    }
  }

  /** An ON or OFF of some detector for device d. */
  predicate Switches(i: Input, d: string, x: string, kind: u32) {
    About(i, d, x) && i.ev.kind == kind
  }

  lemma StepEdge(p: seq<Input>, i: Input, d: string)
    requires Accepted(i) && i.ev.videoDevice == d
    ensures DetectorsOn(RunAll(p + [i]).active, d) ==
            if i.ev.kind == RECORDING_ON then DetectorsOn(RunAll(p).active, d) + {i.ev.detector}
            else DetectorsOn(RunAll(p).active, d) - {i.ev.detector}
    ensures |RunAll(p + [i]).log| == |RunAll(p).log| +
            if (DetectorsOn(RunAll(p).active, d) == {}) == (DetectorsOn(RunAll(p + [i]).active, d) == {}) then 0 else 1
  {
    StepAllSnoc(INITIAL, p, i);
    StepDetectors(RunAll(p), i, d);
    LogStep(RunAll(p), i);
  }

  /** Confluence is of the state only: two detectors on one device, one after the
      other or overlapping, end alike but emit four events or two. */
  lemma LogsMayDiffer(a: Input, a': Input, b: Input, b': Input, d: string, x: string, y: string)
    requires x != y && Switches(a, d, x, RECORDING_ON) && Switches(a', d, x, RECORDING_OFF)
    requires Switches(b, d, y, RECORDING_ON) && Switches(b', d, y, RECORDING_OFF)
    ensures var g, h := [] + [a] + [a'] + [b] + [b'], [] + [a] + [b] + [a'] + [b'];
            && Interleaves(g, h)
            && |RunAll(g).log| == 4 && |RunAll(h).log| == 2
  {
    var g1, g2, g3 := [] + [a], [] + [a] + [a'], [] + [a] + [a'] + [b];
    var h2, h3 := [] + [a] + [b], [] + [a] + [b] + [a'];
    StepEdge([], a, d);
    StepEdge(g1, a', d);
    StepEdge(g2, b, d);
    StepEdge(g3, b', d);
    StepEdge(g1, b, d);
    StepEdge(h2, a', d);
    StepEdge(h3, b', d);
    forall e, z ensures InputsAbout(g3 + [b'], e, z) == InputsAbout(h3 + [b'], e, z) {
      InputsAboutSnoc(g1, a', e, z);
      InputsAboutSnoc(g2, b, e, z);
      InputsAboutSnoc(g3, b', e, z);
      InputsAboutSnoc(g1, b, e, z);
      InputsAboutSnoc(h2, a', e, z);
      InputsAboutSnoc(h3, b', e, z);
    }
  }
}
