/** What the coordinator promises, stated on the history of received events
    alone, and the proof that the stepwise state machine meets it. */
module CoordinatorHistory {
  import opened Events
  import opened Capability
  import opened CoordinatorSpec

  /** Input i is an accepted ON or OFF of detector x for device d. */
  predicate About(i: Input, d: string, x: string) {
    Accepted(i) && i.ev.videoDevice == d && i.ev.detector == x
  }

  /** The last accepted event of detector x for device d is an ON. */
  ghost predicate IsOn(h: seq<Input>, d: string, x: string) {
    exists k :: 0 <= k < |h| && About(h[k], d, x) && h[k].ev.kind == RECORDING_ON
                && forall j :: k < j < |h| ==> !About(h[j], d, x)
  }

  ghost predicate SomeOn(h: seq<Input>, d: string) {
    exists x :: IsOn(h, d, x)
  }

  /** The rising and falling edges of SomeOn over the prefixes of h, each named
      with the capability record that was read for the event causing it. */
  ghost function EdgeLog(h: seq<Input>): seq<CameraEvent> {
    if h == [] then [] else
    var p, i := h[..|h| - 1], h[|h| - 1];
    var d := i.ev.videoDevice;
    if i.answer.Queried? && SomeOn(p, d) != SomeOn(h, d) then
      EdgeLog(p) + [CameraEvent("coordinator", if SomeOn(h, d) then RECORDING_ON else RECORDING_OFF, d,
                                ByteSliceToString(i.answer.capability.card),
                                ByteSliceToString(i.answer.capability.busInfo))]
    else EdgeLog(p)
  }

  lemma IsOnSnoc(p: seq<Input>, i: Input, d: string, x: string)
    ensures IsOn(p + [i], d, x) <==> if About(i, d, x) then i.ev.kind == RECORDING_ON else IsOn(p, d, x)
  {
    var h := p + [i];
    if About(i, d, x) {
      assert h[|p|] == i;
    } else {
      if IsOn(p, d, x) {
        var k :| 0 <= k < |p| && About(p[k], d, x) && p[k].ev.kind == RECORDING_ON
                 && forall j :: k < j < |p| ==> !About(p[j], d, x);
        assert h[k] == p[k] && forall j :: k < j < |h| ==> !About(h[j], d, x);
      }
      if IsOn(h, d, x) {
        var k :| 0 <= k < |h| && About(h[k], d, x) && h[k].ev.kind == RECORDING_ON
                 && forall j :: k < j < |h| ==> !About(h[j], d, x);
        assert p[k] == h[k] && forall j :: k < j < |p| ==> h[j] == p[j];
      }
    }
  }

  lemma StepDetectors(s: CoordState, i: Input, d: string)
    ensures DetectorsOn(Step(s, i).active, d) ==
            if !Accepted(i) || i.ev.videoDevice != d then DetectorsOn(s.active, d)
            else if i.ev.kind == RECORDING_ON then DetectorsOn(s.active, d) + {i.ev.detector}
            else DetectorsOn(s.active, d) - {i.ev.detector}
  {
  }

  ghost predicate Tidy(active: map<string, set<string>>) {
    forall d :: d in active ==> active[d] != {}
  }

  lemma StepTidy(s: CoordState, i: Input)
    requires Tidy(s.active)
    ensures Tidy(Step(s, i).active)
  {
    forall d | d in Step(s, i).active ensures Step(s, i).active[d] != {} {
    }
  }

  /** No device ever keeps an empty set of detectors. */
  lemma {:induction false} NoEmptySet(h: seq<Input>)
    ensures Tidy(RunAll(h).active)
  {
    if h != [] {
      NoEmptySet(h[..|h| - 1]);
      StepTidy(RunAll(h[..|h| - 1]), h[|h| - 1]);
    }
  }

  lemma {:induction false} ActiveIsLastOn(h: seq<Input>, d: string, x: string)
    ensures x in DetectorsOn(RunAll(h).active, d) <==> IsOn(h, d, x)
  {
    if h != [] {
      var p, i := h[..|h| - 1], h[|h| - 1];
      assert h == p + [i];
      ActiveIsLastOn(p, d, x);
      StepDetectors(RunAll(p), i, d);
      IsOnSnoc(p, i, d, x);
    }
  }

  lemma ActiveIsSomeOn(h: seq<Input>, d: string)
    ensures d in RunAll(h).active <==> SomeOn(h, d)
  {
    NoEmptySet(h);
    var on := DetectorsOn(RunAll(h).active, d);
    if on != {} {
      var x :| x in on;
      ActiveIsLastOn(h, d, x);
    }
    if SomeOn(h, d) {
      var x :| IsOn(h, d, x);
      ActiveIsLastOn(h, d, x);
    }
  }

  /** Refinement: the state after any history is the set of detectors whose last
      accepted event is ON, and the log is the edges of "some detector is on". */
  lemma {:induction false} Refinement(h: seq<Input>)
    ensures forall d, x :: x in DetectorsOn(RunAll(h).active, d) <==> IsOn(h, d, x)
    ensures forall d :: d in RunAll(h).active <==> SomeOn(h, d)
    ensures RunAll(h).log == EdgeLog(h)
  {
    forall d, x ensures x in DetectorsOn(RunAll(h).active, d) <==> IsOn(h, d, x) {
      ActiveIsLastOn(h, d, x);
    }
    forall d ensures d in RunAll(h).active <==> SomeOn(h, d) {
      ActiveIsSomeOn(h, d);
    }
    LogIsEdges(h);
  }

  lemma {:induction false} LogIsEdges(h: seq<Input>)
    ensures RunAll(h).log == EdgeLog(h)
  {
    if h != [] {
      var p, i := h[..|h| - 1], h[|h| - 1];
      var d := i.ev.videoDevice;
      LogIsEdges(p);
      ActiveIsSomeOn(p, d);
      ActiveIsSomeOn(h, d);
      NoEmptySet(p);
      NoEmptySet(h);
      StepDetectors(RunAll(p), i, d);
    }
  }

  // --- Alternation and conservation ---

  function EventsOf(log: seq<CameraEvent>, d: string): seq<CameraEvent> {
    if log == [] then [] else
    var rest := EventsOf(log[..|log| - 1], d);
    if log[|log| - 1].videoDevice == d then rest + [log[|log| - 1]] else rest
  }

  ghost predicate Alternates(events: seq<CameraEvent>) {
    forall k :: 0 <= k < |events| ==> events[k].kind == if k % 2 == 0 then RECORDING_ON else RECORDING_OFF
  }

  lemma AlternatesSnoc(a: seq<CameraEvent>, e: CameraEvent)
    ensures Alternates(a + [e]) <==> Alternates(a) && e.kind == if |a| % 2 == 0 then RECORDING_ON else RECORDING_OFF
  {
    assert forall k :: 0 <= k < |a| ==> (a + [e])[k] == a[k];
    assert (a + [e])[|a|] == e;
  }

  function CountKind(log: seq<CameraEvent>, kind: u32): nat {
    if log == [] then 0 else
    CountKind(log[..|log| - 1], kind) + if log[|log| - 1].kind == kind then 1 else 0
  }

  lemma EventsOfSnoc(log: seq<CameraEvent>, e: CameraEvent, d: string)
    ensures EventsOf(log + [e], d) == EventsOf(log, d) + if e.videoDevice == d then [e] else []
  {
    assert (log + [e])[..|log|] == log;
  }

  lemma CountKindSnoc(log: seq<CameraEvent>, e: CameraEvent, kind: u32)
    ensures CountKind(log + [e], kind) == CountKind(log, kind) + if e.kind == kind then 1 else 0
  {
    assert (log + [e])[..|log|] == log;
  }

  /** Whether the step makes an edge, from the device's detectors alone. */
  predicate Edge(s: CoordState, i: Input) {
    && Accepted(i)
    && (DetectorsOn(s.active, i.ev.videoDevice) == {})
       != (DetectorsOn(Step(s, i).active, i.ev.videoDevice) == {})
  }

  lemma LogStep(s: CoordState, i: Input)
    ensures Step(s, i).log == if Edge(s, i) then s.log + [Notice(i)] else s.log
  {
    StepDetectors(s, i, i.ev.videoDevice);
  }

  /** A step adds to the events of d its own notice or nothing. */
  lemma EventsStep(s: CoordState, i: Input, d: string)
    ensures EventsOf(Step(s, i).log, d) ==
            if Edge(s, i) && i.ev.videoDevice == d then EventsOf(s.log, d) + [Notice(i)] else EventsOf(s.log, d)
  {
    LogStep(s, i);
    if Edge(s, i) {
      EventsOfSnoc(s.log, Notice(i), d);
    }
  }

  ghost predicate Balanced(events: seq<CameraEvent>, on: bool) {
    Alternates(events) && (on <==> |events| % 2 == 1)
  }

  lemma BalancedSnoc(events: seq<CameraEvent>, e: CameraEvent, on: bool)
    requires Balanced(events, on) && e.kind == if on then RECORDING_OFF else RECORDING_ON
    ensures Balanced(events + [e], !on)
  {
    AlternatesSnoc(events, e);
  }

  ghost predicate DeviceBalance(s: CoordState, d: string) {
    Balanced(EventsOf(s.log, d), DetectorsOn(s.active, d) != {})
  }

  lemma StepBalance(s: CoordState, i: Input, d: string)
    requires DeviceBalance(s, d)
    ensures DeviceBalance(Step(s, i), d)
  {
    var on, on' := DetectorsOn(s.active, d) != {}, DetectorsOn(Step(s, i).active, d) != {};
    EventsStep(s, i, d);
    StepDetectors(s, i, d);
    if Edge(s, i) && i.ev.videoDevice == d {
      assert on' == !on && Notice(i).kind == if on then RECORDING_OFF else RECORDING_ON;
      BalancedSnoc(EventsOf(s.log, d), Notice(i), on);
    } else {
      assert on' == on;
    }
  }

  lemma {:induction false} Balance(h: seq<Input>, d: string)
    ensures DeviceBalance(RunAll(h), d)
  {
    if h != [] {
      Balance(h[..|h| - 1], d);
      StepBalance(RunAll(h[..|h| - 1]), h[|h| - 1], d);
    }
  }

  /** For every run and device the emitted events alternate ON, OFF from an ON,
      and the device is active exactly when the last of them is an ON. */
  lemma {:induction false} Alternation(h: seq<Input>, d: string)
    ensures Alternates(EventsOf(RunAll(h).log, d))
    ensures d in RunAll(h).active <==> |EventsOf(RunAll(h).log, d)| % 2 == 1
  {
    Balance(h, d);
    NoEmptySet(h);
  }

  lemma StepKeys(s: CoordState, i: Input)
    requires Tidy(s.active)
    ensures Step(s, i).active.Keys ==
            if !Edge(s, i) then s.active.Keys
            else if i.ev.kind == RECORDING_ON then s.active.Keys + {i.ev.videoDevice}
            else s.active.Keys - {i.ev.videoDevice}
    ensures Edge(s, i) ==> (i.ev.videoDevice in s.active <==> i.ev.kind == RECORDING_OFF)
  {
    StepTidy(s, i);
    StepDetectors(s, i, i.ev.videoDevice);
  }

  function Surplus(log: seq<CameraEvent>): int {
    CountKind(log, RECORDING_ON) - CountKind(log, RECORDING_OFF)
  }

  lemma SurplusSnoc(log: seq<CameraEvent>, e: CameraEvent)
    requires e.kind == RECORDING_ON || e.kind == RECORDING_OFF
    ensures Surplus(log + [e]) == Surplus(log) + if e.kind == RECORDING_ON then 1 else -1
  {
    CountKindSnoc(log, e, RECORDING_ON);
    CountKindSnoc(log, e, RECORDING_OFF);
  }

  lemma StepSurplus(s: CoordState, i: Input)
    requires Tidy(s.active)
    ensures Surplus(Step(s, i).log) - |Step(s, i).active.Keys| == Surplus(s.log) - |s.active.Keys|
  {
    LogStep(s, i);
    StepKeys(s, i);
    if Edge(s, i) {
      SurplusSnoc(s.log, Notice(i));
    }
  }

  /** The ONs emitted less the OFFs emitted count the active devices. */
  lemma {:induction false} Conservation(h: seq<Input>)
    ensures CountKind(RunAll(h).log, RECORDING_ON) - CountKind(RunAll(h).log, RECORDING_OFF)
            == |RunAll(h).active.Keys|
  {
    if h != [] {
      Conservation(h[..|h| - 1]);
      NoEmptySet(h[..|h| - 1]);
      StepSurplus(RunAll(h[..|h| - 1]), h[|h| - 1]);
    }
  }

  // --- Projection, confluence, stuttering ---

  /** Input i is an accepted ON or OFF for device d. */
  predicate Concerns(i: Input, d: string) {
    Accepted(i) && i.ev.videoDevice == d
  }

  function InputsOf(h: seq<Input>, d: string): seq<Input> {
    if h == [] then [] else
    var rest := InputsOf(h[..|h| - 1], d);
    if Concerns(h[|h| - 1], d) then rest + [h[|h| - 1]] else rest
  }

  function InputsAbout(h: seq<Input>, d: string, x: string): seq<Input> {
    if h == [] then [] else
    var rest := InputsAbout(h[..|h| - 1], d, x);
    if About(h[|h| - 1], d, x) then rest + [h[|h| - 1]] else rest
  }

  /** State s is what state t shows of device d. */
  ghost predicate ShareOf(s: CoordState, t: CoordState, d: string) {
    && s.log == EventsOf(t.log, d)
    && DetectorsOn(s.active, d) == DetectorsOn(t.active, d)
    && forall e :: e in s.active ==> e == d
  }

  lemma StepElsewhere(t: CoordState, i: Input, d: string)
    requires !Concerns(i, d)
    ensures EventsOf(Step(t, i).log, d) == EventsOf(t.log, d)
    ensures DetectorsOn(Step(t, i).active, d) == DetectorsOn(t.active, d)
  {
    EventsStep(t, i, d);
    StepDetectors(t, i, d);
  }

  lemma StepShare(s: CoordState, t: CoordState, i: Input, d: string)
    requires ShareOf(s, t, d) && Concerns(i, d)
    ensures ShareOf(Step(s, i), Step(t, i), d)
  {
    StepDetectors(s, i, d);
    StepDetectors(t, i, d);
    LogStep(s, i);
    EventsStep(t, i, d);
    assert Edge(s, i) == Edge(t, i);
    forall e | e in Step(s, i).active ensures e == d {
      assert e == d || e in s.active;
    }
  }

  lemma {:induction false} Share(h: seq<Input>, d: string)
    ensures ShareOf(RunAll(InputsOf(h, d)), RunAll(h), d)
  {
    if h != [] {
      var p, i := h[..|h| - 1], h[|h| - 1];
      Share(p, d);
      if Concerns(i, d) {
        StepShare(RunAll(InputsOf(p, d)), RunAll(p), i, d);
        StepAllSnoc(INITIAL, InputsOf(p, d), i);
      } else {
        StepElsewhere(RunAll(p), i, d);
      }
    }
  }

  /** Running the accepted inputs of one device alone yields exactly that device's
      share of the whole run: its detectors, its events, and nothing else. */
  lemma {:induction false} Projection(h: seq<Input>, d: string)
    ensures RunAll(InputsOf(h, d)).log == EventsOf(RunAll(h).log, d)
    ensures RunAll(InputsOf(h, d)).active.Keys == RunAll(h).active.Keys * {d}
    ensures DetectorsOn(RunAll(InputsOf(h, d)).active, d) == DetectorsOn(RunAll(h).active, d)
  {
    Share(h, d);
    NoEmptySet(h);
    NoEmptySet(InputsOf(h, d));
  }

  lemma {:induction false} IsOnAlone(h: seq<Input>, d: string, x: string)
    ensures IsOn(InputsAbout(h, d, x), d, x) <==> IsOn(h, d, x)
  {
    if h != [] {
      var p, i := h[..|h| - 1], h[|h| - 1];
      assert h == p + [i];
      IsOnAlone(p, d, x);
      IsOnSnoc(p, i, d, x);
      IsOnSnoc(InputsAbout(p, d, x), i, d, x);
    }
  }

  /** Two interleavings with the same order of accepted events for every device
      and detector end in the same active map. */
  lemma Confluence(g: seq<Input>, h: seq<Input>)
    requires forall d, x :: InputsAbout(g, d, x) == InputsAbout(h, d, x)
    ensures RunAll(g).active == RunAll(h).active
  {
    var a, b := RunAll(g).active, RunAll(h).active;
    NoEmptySet(g);
    NoEmptySet(h);
    forall d ensures DetectorsOn(a, d) == DetectorsOn(b, d) {
      forall x ensures x in DetectorsOn(a, d) <==> x in DetectorsOn(b, d) {
        assert InputsAbout(g, d, x) == InputsAbout(h, d, x);
        IsOnAlone(g, d, x);
        IsOnAlone(h, d, x);
        ActiveIsLastOn(g, d, x);
        ActiveIsLastOn(h, d, x);
      }
    }
    forall d ensures (d in a <==> d in b) && (d in a ==> a[d] == b[d]) {
      assert DetectorsOn(a, d) == DetectorsOn(b, d);
    }
  }

  lemma InputsAboutSnoc(p: seq<Input>, i: Input, d: string, x: string)
    ensures InputsAbout(p + [i], d, x) == InputsAbout(p, d, x) + if About(i, d, x) then [i] else []
  {
    assert (p + [i])[..|p|] == p;
  }

  // --- Which inputs count ---

  /** On the fields of the event and of the query's answer. */
  lemma AcceptedOnFields(i: Input)
    ensures Accepted(i) <==>
            && i.answer.Queried? && (i.ev.kind == 1 || i.ev.kind == 2)
            && if i.answer.capability.capabilities & 0x8000_0000 != 0
               then i.answer.capability.deviceCaps & 0x1 != 0
               else i.answer.capability.capabilities & 0x1 != 0
  {
    if i.answer.Queried? {
      CaptureOnFields(i.answer.capability);
    }
  }

  /** A device is active only because of an ON for it whose query succeeded and
      showed a capture device. */
  lemma ActiveWasCapture(h: seq<Input>, d: string) returns (k: nat)
    requires d in RunAll(h).active
    ensures k < |h| && h[k].ev.videoDevice == d && h[k].ev.kind == 1 && h[k].answer.Queried?
    ensures var c := h[k].answer.capability;
            if c.capabilities & 0x8000_0000 != 0 then c.deviceCaps & 0x1 != 0 else c.capabilities & 0x1 != 0
  {
    ActiveIsSomeOn(h, d);
    var x :| IsOn(h, d, x);
    k :| 0 <= k < |h| && About(h[k], d, x) && h[k].ev.kind == RECORDING_ON
         && forall j :: k < j < |h| ==> !About(h[j], d, x);
    AcceptedOnFields(h[k]);
  }

  /** A node whose per-device word lacks video capture, such as a webcam's metadata
      node, is never active and never shows in the log, whatever the per-driver
      word says of its siblings. */
  lemma {:induction false} MetadataNodeIsIgnored(h: seq<Input>, d: string)
    requires forall k :: 0 <= k < |h| && h[k].ev.videoDevice == d && h[k].answer.Queried? ==>
               && h[k].answer.capability.capabilities & 0x8000_0000 != 0
               && h[k].answer.capability.deviceCaps & 0x1 == 0
    ensures d !in RunAll(h).active && EventsOf(RunAll(h).log, d) == []
  {
    if h != [] {
      var p, i := h[..|h| - 1], h[|h| - 1];
      assert forall k :: 0 <= k < |p| ==> p[k] == h[k];
      MetadataNodeIsIgnored(p, d);
      if i.ev.videoDevice == d {
        AcceptedOnFields(i);
      }
      StepElsewhere(RunAll(p), i, d);
      NoEmptySet(p);
      NoEmptySet(h);
    }
  }

  /** The input would move its detector between off and on. */
  ghost predicate Changes(p: seq<Input>, i: Input) {
    Accepted(i) && (IsOn(p, i.ev.videoDevice, i.ev.detector) != (i.ev.kind == RECORDING_ON))
  }

  /** An input leaves the state and the log alone exactly when it is skipped by
      capability, of unknown type, a duplicate ON or a stray OFF. */
  lemma StutterExactly(p: seq<Input>, i: Input)
    ensures Step(RunAll(p), i) == RunAll(p) <==> !Changes(p, i)
  {
    var s, d := RunAll(p), i.ev.videoDevice;
    ActiveIsLastOn(p, d, i.ev.detector);
    NoEmptySet(p);
    StepDetectors(s, i, d);
    if Accepted(i) && !Changes(p, i) {
      assert DetectorsOn(Step(s, i).active, d) == DetectorsOn(s.active, d);
      assert Step(s, i).active == s.active;
    }
  }

  /** h without its stuttering inputs. */
  ghost function Strip(h: seq<Input>): seq<Input> {
    if h == [] then [] else
    var p, i := h[..|h| - 1], h[|h| - 1];
    if Changes(p, i) then Strip(p) + [i] else Strip(p)
  }

  /** Deleting every stuttering input changes neither the final state nor the
      log, and leaves nothing more to delete. */
  lemma {:induction false} Stuttering(h: seq<Input>)
    ensures RunAll(Strip(h)) == RunAll(h)
    ensures forall k :: 0 <= k < |Strip(h)| ==> Changes(Strip(h)[..k], Strip(h)[k])
  {
    if h != [] {
      var p, i := h[..|h| - 1], h[|h| - 1];
      var q := Strip(p);
      Stuttering(p);
      StutterExactly(p, i);
      StutterExactly(q, i);
      StepAllSnoc(INITIAL, q, i);
      forall k | 0 <= k < |Strip(h)| ensures Changes(Strip(h)[..k], Strip(h)[k]) {
        if k < |q| {
          assert Strip(h)[..k] == q[..k];
        } else {
          assert Strip(h)[..k] == q;
        }
      }
    }
  }
}
