/** The coordinator's event handling as functions on values: the reference that
    the class in CameraCoordinator refines and the other machines step with. */
module CoordinatorSpec {
  import opened Events
  import opened Capability

  /** An event received from the detectors, with the answer of the capability
      query that the coordinator makes for it. */
  datatype Input = Input(ev: CameraEvent, answer: QueryResult)

  /** For each device with one, the non-empty set of detectors holding it on,
      and the log of events handed to broadcastEvent. */
  datatype CoordState = CoordState(active: map<string, set<string>>, log: seq<CameraEvent>)

  const INITIAL := CoordState(map[], [])

  predicate Accepted(i: Input) {
    && i.answer.Queried? && IsCapture(i.answer.capability)
    && (i.ev.kind == RECORDING_ON || i.ev.kind == RECORDING_OFF)
  }

  function DetectorsOn<D, X>(active: map<D, set<X>>, device: D): set<X> {
    if device in active then active[device] else {}
  }

  function WithDetectors<D, X>(active: map<D, set<X>>, device: D, on: set<X>): map<D, set<X>> {
    if on == {} then active - {device} else active[device := on]
  }

  function Notice(i: Input): CameraEvent
    requires Accepted(i)
  {
    var c := i.answer.capability;
    CameraEvent("coordinator", i.ev.kind, i.ev.videoDevice,
                ByteSliceToString(c.card), ByteSliceToString(c.busInfo))
  }

  function Step(s: CoordState, i: Input): CoordState {
    if !Accepted(i) then s else
    var before := DetectorsOn(s.active, i.ev.videoDevice);
    var after := if i.ev.kind == RECORDING_ON then before + {i.ev.detector} else before - {i.ev.detector};
    CoordState(
      WithDetectors(s.active, i.ev.videoDevice, after),
      if (before == {}) == (after == {}) then s.log else s.log + [Notice(i)])
  }

  function StepAll(s: CoordState, h: seq<Input>): CoordState {
    if h == [] then s else Step(StepAll(s, h[..|h| - 1]), h[|h| - 1])
  }

  function RunAll(h: seq<Input>): CoordState {
    StepAll(INITIAL, h)
  }

  /** The events of the log that reached output j, when event k reached the first
      reach[k] outputs. */
  function Reached<T>(log: seq<T>, reach: seq<nat>, j: nat): seq<T>
    requires |log| == |reach|
  {
    if log == [] then [] else
    var n := |log| - 1;
    var rest := Reached(log[..n], reach[..n], j);
    if reach[n] > j then rest + [log[n]] else rest
  }

  lemma ReachedSnoc<T>(log: seq<T>, e: T, reach: seq<nat>, r: nat, j: nat)
    requires |log| == |reach|
    ensures Reached(log + [e], reach + [r], j) == Reached(log, reach, j) + if r > j then [e] else []
  {
    assert (log + [e])[..|log|] == log && (reach + [r])[..|reach|] == reach;
  }

  lemma ReachedSnocs<T>(log: seq<T>, e: T, reach: seq<nat>, r: nat)
    requires |log| == |reach|
    ensures forall j: nat ::
              Reached(log + [e], reach + [r], j) == Reached(log, reach, j) + if r > j then [e] else []
  {
    forall j: nat ensures Reached(log + [e], reach + [r], j) == Reached(log, reach, j) + if r > j then [e] else [] {
      ReachedSnoc(log, e, reach, r, j);
    }
  }

  lemma StepAllSnoc(s: CoordState, p: seq<Input>, i: Input)
    ensures StepAll(s, p + [i]) == Step(StepAll(s, p), i)
  {
    assert (p + [i])[..|p|] == p;
  }
}

/** CameraCoordinator.Run with its nested map in the heap: the inner detector
    maps are objects reached through `active`, as in camera_coordinator.go. */
module Coordinator {
  import opened Events
  import opened Capability
  import opened CoordinatorSpec

  class DetectorMap<X(==, !new)> {
    var on: map<X, bool>

    /** Between iterations of the loop the map holds these detectors, each with
        the value true, and at least one. */
    ghost predicate Holds(detectors: set<X>)
      reads this
    {
      on.Keys == detectors && detectors != {} && forall x :: x in on ==> on[x]
    }

    constructor ()
      ensures on == map[]
    {
      on := map[];
    }
  }

  /** The nested map `active`: device to inner map. */
  class ActiveMap<D(==, !new), X(==, !new)> {
    var active: map<D, DetectorMap<X>>
    /** The nested map as a value. */
    ghost var view: map<D, set<X>>
    ghost var repr: set<DetectorMap<X>>

    /** Between iterations no two devices share an inner map, no inner map is
        empty and every stored value is true. */
    ghost predicate Valid()
      reads this, repr
    {
      && (forall d :: d in active <==> d in view)
      && (forall d :: d in active ==> active[d] in repr && active[d].Holds(view[d]))
      && (forall d, e :: d in active && e in active && d != e ==> active[d] != active[e])
    }

    constructor ()
      ensures Valid() && view == map[] && repr == {}
    {
      active := map[];
      view := map[];
      repr := {};
    }

    /** Valid, but for what `view` says of this device. */
    ghost predicate ValidBut(device: D)
      reads this, repr
    {
      && (forall d :: d != device ==> (d in active <==> d in view))
      && (forall d :: d in active ==> active[d] in repr)
      && (forall d :: d in active && d != device ==> active[d].Holds(view[d]))
      && (forall d, e :: d in active && e in active && d != e ==> active[d] != active[e])
    }

    /** Brings `view` up to date with the inner map of the device. */
    ghost method Record(device: D, on: set<X>)
      requires ValidBut(device)
      requires if device in active then active[device].Holds(on) else on == {}
      modifies this`view
      ensures Valid() && view == WithDetectors(old(view), device, on)
    {
      view := WithDetectors(view, device, on);
    }

    /** The inner map of the device, made and stored when there is none. */
    method InnerMap(device: D) returns (inner: DetectorMap<X>)
      requires Valid()
      modifies this`active, this`repr
      ensures ValidBut(device) && fresh(repr - old(repr))
      ensures device in active && inner == active[device]
      ensures inner.on.Keys == DetectorsOn(view, device) && forall x :: x in inner.on ==> inner.on[x]
    {
      if device !in active {
        inner := new DetectorMap();
        active := active[device := inner];
      } else {
        inner := active[device];
      }
      repr := repr + {inner};
    }

    /** The ON case: ignores a duplicate from the same detector. */
    method SwitchOn(device: D, detector: X) returns (rising: bool)
      requires Valid()
      modifies this, repr
      ensures Valid() && fresh(repr - old(repr))
      ensures view == WithDetectors(old(view), device, DetectorsOn(old(view), device) + {detector})
      ensures rising == (DetectorsOn(old(view), device) == {})
    {
      ghost var after := DetectorsOn(view, device) + {detector};
      var inner := InnerMap(device);
      rising := false;
      if detector !in inner.on || !inner.on[detector] {
        rising := |inner.on| == 0;
        assert rising == (inner.on.Keys == {});
        inner.on := inner.on[detector := true];
      }
      assert inner.on.Keys == after;
      Record(device, after);
    }

    /** The OFF case: ignores a stray and drops the device with its last detector. */
    method SwitchOff(device: D, detector: X) returns (falling: bool)
      requires Valid()
      modifies this, repr
      ensures Valid() && repr == old(repr)
      ensures view == WithDetectors(old(view), device, DetectorsOn(old(view), device) - {detector})
      ensures falling == (DetectorsOn(old(view), device) != {} && DetectorsOn(view, device) == {})
    {
      ghost var after := DetectorsOn(view, device) - {detector};
      falling := false;
      if device in active && detector in active[device].on && active[device].on[detector] {
        // An alias of the inner map: deleting through it changes active[device].
        var detectors := active[device];
        assert forall d :: d in active && d != device ==> active[d] != detectors;
        detectors.on := detectors.on - {detector};
        assert detectors.on.Keys == after;
        falling := |detectors.on| == 0;
        assert falling == (detectors.on.Keys == {});
        if falling {
          active := active - {device};
        }
      }
      assert ValidBut(device);
      Record(device, after);
    }
  }

  /** If step k of the loop emitted an event, broadcastEvent served as many of the n
      outputs as its stopping point let it. */
  ghost predicate Reaches(s: CoordState, received: seq<Input>, stops: seq<nat>, reach: seq<nat>, n: nat, k: nat)
    requires |stops| == |received| && k < |received|
  {
    var before, after := StepAll(s, received[..k]).log, StepAll(s, received[..k + 1]).log;
    |before| < |after| ==> |before| < |reach| && reach[|before|] == if stops[k] < n then stops[k] else n
  }

  ghost predicate AllReach(s: CoordState, received: seq<Input>, stops: seq<nat>, reach: seq<nat>, n: nat, k: nat)
    requires |stops| == |received| && k <= |received|
  {
    forall i :: 0 <= i < k ==> Reaches(s, received, stops, reach, n, i)
  }

  lemma AllReachNext(s: CoordState, received: seq<Input>, stops: seq<nat>, r: seq<nat>, reach: seq<nat>, n: nat, k: nat)
    requires |stops| == |received| && k < |received| && r <= reach
    requires AllReach(s, received, stops, r, n, k) && Reaches(s, received, stops, reach, n, k)
    ensures AllReach(s, received, stops, reach, n, k + 1)
  {
    forall i | 0 <= i < k ensures Reaches(s, received, stops, reach, n, i) {
      assert Reaches(s, received, stops, r, n, i);
    }
  }

  /** The loop of broadcastEvent. */
  method SendEach<T>(outputs: array<seq<T>>, ev: T, stop: nat)
    modifies outputs
    ensures forall j :: 0 <= j < outputs.Length ==>
              outputs[j] == old(outputs[j]) + if j < stop then [ev] else []
  {
    for i := 0 to outputs.Length
      invariant i <= stop
      invariant forall j :: 0 <= j < outputs.Length ==>
                  outputs[j] == old(outputs[j]) + if j < i then [ev] else []
    {
      if i >= stop {
        return;
      }
      outputs[i] := outputs[i] + [ev];
    }
  }

  class CameraCoordinator {
    const active: ActiveMap<string, string>
    /** What has been sent on each output channel. */
    const outputs: array<seq<CameraEvent>>
    var started: bool
    /** History: the events handed to BroadcastEvent, and how many outputs each
        one reached. */
    ghost var emitted: seq<CameraEvent>
    ghost var reach: seq<nat>

    ghost predicate Valid()
      reads this, active, active.repr, outputs
    {
      && active.Valid() && |reach| == |emitted|
      && forall j :: 0 <= j < outputs.Length ==> outputs[j] == Reached(emitted, reach, j)
    }

    ghost function Abstract(): CoordState
      requires active.Valid()
      reads this, active, active.repr
    {
      CoordState(active.view, emitted)
    }

    constructor (n: nat)
      ensures Valid() && fresh(active) && fresh(active.repr) && fresh(outputs)
      ensures Abstract() == INITIAL && outputs.Length == n && !started
    {
      active := new ActiveMap();
      outputs := new seq<CameraEvent>[n](_ => []);
      started := false;
      emitted, reach := [], [];
    }

    /** broadcastEvent: sends ev to the outputs in order until its select takes
        ctx.Done, which `stop` sends precede (at least outputs.Length when it never
        does). Module Daemon has the blocking and the interleaving. */
    method BroadcastEvent(ev: CameraEvent, stop: nat)
      requires Valid()
      modifies this`emitted, this`reach, outputs
      ensures Valid() && emitted == old(emitted) + [ev]
      ensures reach == old(reach) + [if stop < outputs.Length then stop else outputs.Length]
      ensures forall j :: 0 <= j < outputs.Length ==>
                outputs[j] == old(outputs[j]) + if j < stop then [ev] else []
    {
      ghost var k := if stop < outputs.Length then stop else outputs.Length;
      ReachedSnocs(emitted, ev, reach, k);
      emitted, reach := emitted + [ev], reach + [k];
      SendEach(outputs, ev, stop);
    }

    /** One iteration of the select loop, for a received event; stop is what
        BroadcastEvent is told, should it be called. */
    method Handle(i: Input, stop: nat)
      requires Valid()
      modifies this`emitted, this`reach, active, active.repr, outputs
      ensures Valid() && fresh(active.repr - old(active.repr))
      ensures Abstract() == Step(old(Abstract()), i)
      ensures reach == old(reach) + if emitted == old(emitted) then []
                                    else [if stop < outputs.Length then stop else outputs.Length]
    {
      if i.answer.QueryFailed? {
        return;
      }
      var capture := HasCapabilities(i.answer.capability, [V4L2_CAP_VIDEO_CAPTURE]);
      if !capture {
        return;
      }
      var edge := false;
      if i.ev.kind == RECORDING_ON {
        edge := active.SwitchOn(i.ev.videoDevice, i.ev.detector);
      } else if i.ev.kind == RECORDING_OFF {
        edge := active.SwitchOff(i.ev.videoDevice, i.ev.detector);
      }
      if edge {
        BroadcastEvent(Notice(i), stop);
      }
    }

    /** The whole loop on the events its select takes before it sees the channel
        closed or the context cancelled; a second call is refused. */
    method Run(received: seq<Input>, stops: seq<nat>) returns (ok: bool)
      requires Valid() && |stops| == |received|
      modifies this, active, active.repr, outputs
      ensures Valid() && started
      ensures ok == !old(started)
      ensures Abstract() == if ok then StepAll(old(Abstract()), received) else old(Abstract())
      ensures |old(reach)| <= |reach| && reach[..|old(reach)|] == old(reach)
      ensures ok ==> AllReach(old(Abstract()), received, stops, reach, outputs.Length, |received|)
      ensures (forall k :: 0 <= k < |stops| ==> stops[k] >= outputs.Length) ==>
                forall k :: |old(reach)| <= k < |reach| ==> reach[k] == outputs.Length
    {
      if started {
        return false;
      }
      started := true;
      ghost var uncut := forall k :: 0 <= k < |stops| ==> stops[k] >= outputs.Length;
      for k := 0 to |received|
        invariant Valid() && started && fresh(active.repr - old(active.repr))
        invariant Abstract() == StepAll(old(Abstract()), received[..k])
        invariant |old(reach)| <= |reach| && reach[..|old(reach)|] == old(reach)
        invariant AllReach(old(Abstract()), received, stops, reach, outputs.Length, k)
        invariant uncut ==> forall i :: |old(reach)| <= i < |reach| ==> reach[i] == outputs.Length
      {
        StepAllSnoc(old(Abstract()), received[..k], received[k]);
        assert received[..k] + [received[k]] == received[..k + 1];
        ghost var r := reach;
        Handle(received[k], stops[k]);
        AllReachNext(old(Abstract()), received, stops, r, reach, outputs.Length, k);
      }
      assert received[..|received|] == received;
      ok := true;
    }
  }
}
