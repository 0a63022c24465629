/** The whole chain as one transition system: the probes, the ring buffer, the
    reader and the query of module Pipeline, joined with the goroutines and
    channels of module Daemon, up to autolight. The reader goroutine reads the
    ring buffer, the event it sends is the record it holds, and the coordinator
    that takes it makes the query before it goes on. */
module WholeSystem {
  import opened Detector
  import opened Events
  import P = Pipeline
  import L = PipelineLimits
  import D = Daemon
  import A = AutolightSpec
  import E = EndToEnd

  datatype State = State(p: P.State, d: D.State)

  datatype Action =
    | Kernel(k: P.Action) // a probe, a read, the filter, the query's close or its end
    | Pass                // the held record passes the filter and is offered
    | Take(fd: bool)      // the coordinator takes it and starts the query
    | Local(l: D.Action)  // any other step of the daemon

  /** One eBPF detector, as main starts it, and n notifiers. */
  function Initial(room: nat, budget: nat, n: nat): State {
    State(P.Initial(room, budget), D.Initial(1, n))
  }

  function Offer(s: State): D.Action
    requires s.p.held.Some?
  {
    D.DetectorStep(0, D.ReadRecord(ToEvent(s.p.held.value)))
  }

  /** Daemon.Take already enters what the coordinator will decide. */
  function Taking(c: P.Config, s: State): D.Action
    requires s.p.held.Some?
  {
    D.Take(0, c.answer(s.p.held.value.name))
  }

  predicate Enabled(c: P.Config, s: State, a: Action)
    requires |s.d.detectors| == 1
  {
    var reader := s.d.detectors[0].reader;
    match a
    case Kernel(k) =>
      && P.Enabled(c, s.p, k) && !k.Take?
      && (k.Read? ==> reader == D.Reading && !s.d.detectors[0].closed)
      && (k.Discard? ==> reader == D.Reading)
    case Pass => s.p.held.Some? && D.Enabled(s.d, Offer(s))
    case Take(fd) => P.Enabled(c, s.p, P.Take(fd)) && D.Enabled(s.d, Taking(c, s))
    case Local(l) =>
      && D.Enabled(s.d, l) && !l.Take? && !(l.DetectorStep? && l.d.ReadRecord?)
      && (l.CoordinatorStep? ==> s.p.querying.None?)
  }

  function Apply(c: P.Config, s: State, a: Action): State
    requires |s.d.detectors| == 1
  {
    if !Enabled(c, s, a) then s else
    match a
    case Kernel(k) => s.(p := P.Apply(c, s.p, k))
    case Pass => s.(d := D.Apply(s.d, Offer(s)))
    case Take(fd) => State(P.Apply(c, s.p, P.Take(fd)), D.Apply(s.d, Taking(c, s)))
    case Local(l) => s.(d := D.Apply(s.d, l))
  }

  /** Both halves agree on what the coordinator has taken, and an event being
      sent is the record the reader holds. */
  predicate Joined(c: P.Config, s: State) {
    && |s.d.detectors| == 1
    && s.d.inputs == s.p.inputs + (if s.p.querying.Some? then [P.InputFor(c, s.p.querying.value)] else [])
    && (s.d.detectors[0].reader.Sending? ==>
          s.p.held.Some? && s.d.detectors[0].reader.ev == ToEvent(s.p.held.value))
  }

  lemma JoinedKernel(c: P.Config, s: State, k: P.Action)
    requires Joined(c, s) && Enabled(c, s, Kernel(k))
    ensures Joined(c, Apply(c, s, Kernel(k)))
  {
  }

  lemma JoinedLocal(c: P.Config, s: State, l: D.Action)
    requires Joined(c, s) && Enabled(c, s, Local(l))
    ensures Joined(c, Apply(c, s, Local(l)))
  {
  }

  lemma JoinedStep(c: P.Config, s: State, a: Action)
    requires Joined(c, s)
    ensures Joined(c, Apply(c, s, a))
  {
    if Enabled(c, s, a) {
      match a
      case Kernel(k) => JoinedKernel(c, s, k);
      case Local(l) => JoinedLocal(c, s, l);
      case _ =>
    }
  }

  function Execute(c: P.Config, s: State, acts: seq<Action>): (t: State)
    requires Joined(c, s)
    ensures Joined(c, t)
  {
    if acts == [] then s else
    var t := Execute(c, s, acts[..|acts| - 1]);
    JoinedStep(c, t, acts[|acts| - 1]);
    Apply(c, t, acts[|acts| - 1])
  }

  lemma PipelineThen(c: P.Config, s: P.State, ps: seq<P.Action>, a: P.Action)
    ensures P.Execute(c, s, ps + [a]) == P.Apply(c, P.Execute(c, s, ps), a)
  {
    assert (ps + [a])[..|ps|] == ps;
  }

  lemma DaemonThen(s: D.State, ds: seq<D.Action>, a: D.Action)
    ensures D.Execute(s, ds + [a]) == D.Apply(D.Execute(s, ds), a)
  {
    assert (ds + [a])[..|ds|] == ds;
  }

  /** Each run of the whole is a run of either half, so that all that is proved
      of the halves holds of it. */
  lemma {:induction false} Projections(c: P.Config, room: nat, budget: nat, n: nat, acts: seq<Action>)
    returns (ps: seq<P.Action>, ds: seq<D.Action>)
    ensures var s := Execute(c, Initial(room, budget, n), acts);
            s.p == P.Execute(c, P.Initial(room, budget), ps) && s.d == D.Execute(D.Initial(1, n), ds)
  {
    if acts == [] {
      ps, ds := [], [];
    } else {
      var p, a := acts[..|acts| - 1], acts[|acts| - 1];
      var s := Execute(c, Initial(room, budget, n), p);
      ps, ds := Projections(c, room, budget, n, p);
      if Enabled(c, s, a) {
        match a
        case Kernel(k) =>
          PipelineThen(c, P.Initial(room, budget), ps, k);
          ps := ps + [k];
        case Pass =>
          DaemonThen(D.Initial(1, n), ds, Offer(s));
          ds := ds + [Offer(s)];
        case Take(fd) =>
          PipelineThen(c, P.Initial(room, budget), ps, P.Take(fd));
          DaemonThen(D.Initial(1, n), ds, Taking(c, s));
          ps, ds := ps + [P.Take(fd)], ds + [Taking(c, s)];
        case Local(l) =>
          DaemonThen(D.Initial(1, n), ds, l);
          ds := ds + [l];
      }
    }
  }

  lemma Invariants(c: P.Config, room: nat, budget: nat, n: nat, acts: seq<Action>)
    ensures var s := Execute(c, Initial(room, budget, n), acts);
            P.Sound(c, s.p) && D.Ok(s.d) && |s.d.outputs| == n
  {
    var ps, ds := Projections(c, room, budget, n, acts);
    P.Invariants(c, room, budget, ps);
    D.Invariants(1, n, ds);
  }

  // --- What the notifiers know ---

  /** Nothing is in flight between the probes and notifier j. */
  predicate Settled(s: State, j: nat) {
    P.Quiescent(s.p) && !s.d.pc.Broadcasting? && j < |s.d.outputs| && s.d.outputs[j].buf == []
  }

  /** End to end, for every interleaving of probes, reader, coordinator, channels
      and notifiers, before cancellation: whenever nothing is in flight towards
      a notifier, replaying what it received shows a clean device exactly when it
      is a capture device with a recorded streaming PID; and for a capture device
      none of whose records was ever dropped, being clean is needed too. */
  lemma {:induction false} NotifiersKnow(c: P.Config, room: nat, budget: nat, n: nat, acts: seq<Action>, j: nat, d: string)
    requires var s := Execute(c, Initial(room, budget, n), acts);
             !s.d.cancelled && Settled(s, j)
    ensures var s := Execute(c, Initial(room, budget, n), acts);
            var shown := d in A.Replay(s.d.outputs[j].received);
            && (L.Clean(s.p, d) ==> (shown <==> d in s.p.kernel.pids && P.Capture(c, d)))
            && (P.Capture(c, d) && d !in s.p.dropped ==> ((shown <==> d in s.p.kernel.pids) <==> L.Clean(s.p, d)))
  {
    var s := Execute(c, Initial(room, budget, n), acts);
    var ps, ds := Projections(c, room, budget, n, acts);
    D.CaughtUp(1, n, ds, j);
    E.QuiescentTruth(c, room, budget, ps, d);
    assert s.p.inputs == s.d.inputs;
  }

  /** With autolight behind notifier j, having handled all of its signals and no
      click: the light is on exactly when some capture device has a recorded
      streaming PID. */
  lemma LightTellsTheTruth(c: P.Config, room: nat, budget: nat, n: nat, acts: seq<Action>, j: nat, steps: seq<A.Step>)
    requires var s := Execute(c, Initial(room, budget, n), acts);
             !s.d.cancelled && Settled(s, j) && (forall d :: L.Clean(s.p, d))
             && A.Play(steps).seen == s.d.outputs[j].received
    requires A.Play(steps).pending == A.Nothing && A.Quiet(steps)
    ensures var s := Execute(c, Initial(room, budget, n), acts);
            A.Play(steps).app.lightOn <==> exists d :: d in s.p.kernel.pids && P.Capture(c, d)
  {
    var s := Execute(c, Initial(room, budget, n), acts);
    var replica := A.Replay(s.d.outputs[j].received);
    A.AlwaysConsistent(steps);
    forall d ensures d in replica <==> d in s.p.kernel.pids && P.Capture(c, d) {
      assert L.Clean(s.p, d);
      NotifiersKnow(c, room, budget, n, acts, j, d);
    }
  }

  // --- Every run settles ---

  predicate AllEnabled(c: P.Config, s: State, acts: seq<Action>)
    requires Joined(c, s)
  {
    acts == [] || (AllEnabled(c, s, acts[..|acts| - 1])
                   && Enabled(c, Execute(c, s, acts[..|acts| - 1]), acts[|acts| - 1]))
  }

  function Weighted(n: nat, m: nat): nat {
    (2 * n + 3) * m
  }

  /** Each step of the pipeline outweighs what it can add to a daemon of n notifiers. */
  lemma Outweighs(n: nat, a: nat, b: nat)
    requires a < b
    ensures Weighted(n, a) + 2 * n + 3 <= Weighted(n, b)
  {
    assert (2 * n + 3) * (b - a - 1) >= 0;
  }

  function Measure(s: State): nat {
    Weighted(|s.d.outputs|, P.Measure(s.p)) + D.Measure(s.d)
  }

  lemma StepDecreases(c: P.Config, s: State, a: Action)
    requires Joined(c, s) && P.Guarded(c, s.p) && D.Ok(s.d) && Enabled(c, s, a)
    ensures Measure(Apply(c, s, a)) < Measure(s)
  {
    match a
    case Kernel(k) =>
      P.StepDecreases(c, s.p, k);
      Outweighs(|s.d.outputs|, P.Measure(P.Apply(c, s.p, k)), P.Measure(s.p));
    case Pass =>
      D.StepDecreases(s.d, Offer(s));
      D.OkStep(s.d, Offer(s));
    case Take(fd) =>
      P.StepDecreases(c, s.p, P.Take(fd));
      Outweighs(|s.d.outputs|, P.Measure(P.Apply(c, s.p, P.Take(fd))), P.Measure(s.p));
      D.StepBound(s.d, Taking(c, s));
      D.OkStep(s.d, Taking(c, s));
    case Local(l) =>
      D.StepDecreases(s.d, l);
      D.OkStep(s.d, l);
  }

  lemma {:induction false} RunsDecrease(c: P.Config, room: nat, budget: nat, n: nat, acts: seq<Action>)
    requires AllEnabled(c, Initial(room, budget, n), acts)
    ensures |acts| + Measure(Execute(c, Initial(room, budget, n), acts)) <= Measure(Initial(room, budget, n))
  {
    if acts != [] {
      var p := acts[..|acts| - 1];
      RunsDecrease(c, room, budget, n, p);
      Invariants(c, room, budget, n, p);
      StepDecreases(c, Execute(c, Initial(room, budget, n), p), acts[|acts| - 1]);
    }
  }

  lemma {:induction false} InitialOutputsWeight(n: nat, o: D.Output)
    requires D.OutputWeight(o) == 2
    ensures D.OutputsWeight(seq(n, _ => o)) == 2 * n
  {
    if n > 0 {
      assert seq(n, _ => o)[..n - 1] == seq(n - 1, _ => o);
      InitialOutputsWeight(n - 1, o);
    }
  }

  lemma InitialDaemonMeasure(n: nat)
    ensures D.Measure(D.Initial(1, n)) == 3 * n + 9
  {
    var d, o := D.Initial(1, n), D.Output([], false, D.Connecting, [], []);
    InitialOutputsWeight(n, o);
    assert d.outputs == seq(n, _ => o);
    assert d.detectors[..0] == [] && D.DetectorsWeight([]) == 0;
    assert D.DetectorsWeight(d.detectors) == 5;
  }

  lemma InitialMeasure(room: nat, budget: nat, n: nat)
    ensures Measure(Initial(room, budget, n)) == Weighted(n, 10 * budget) + 3 * n + 9
  {
    InitialDaemonMeasure(n);
    assert |D.Initial(1, n).outputs| == n;
    assert P.Measure(P.Initial(room, budget)) == 10 * budget;
  }

  /** Under any scheduling, cancelled or not, every run is finite: with b probes by
      other processes and n notifiers it has at most 10 (2n + 3) b + 3n + 9 steps. */
  lemma RunsAreBounded(c: P.Config, room: nat, budget: nat, n: nat, acts: seq<Action>)
    requires AllEnabled(c, Initial(room, budget, n), acts)
    ensures |acts| <= (2 * n + 3) * (10 * budget) + 3 * n + 9
  {
    RunsDecrease(c, room, budget, n, acts);
    InitialMeasure(room, budget, n);
  }

  /** A step the daemon does not take by itself: a probe by another process, the
      signal to stop, or an error of the ring-buffer reader. */
  predicate Outside(a: Action) {
    || (a.Kernel? && P.External(a.k))
    || a == Local(D.Cancel) || a == Local(D.DetectorStep(0, D.StopReading))
  }

  /** One that makes nothing fail and takes no record away. */
  predicate Ordinary(a: Action) {
    match a
    case Kernel(k) => !P.External(k) && !k.Discard?
    case Pass => true
    case Take(_) => true
    case Local(l) => l.CoordinatorStep? || (l.NotifierStep? && (l.n == D.Connect(true) || l.n == D.Receive))
  }

  ghost predicate Waiting(c: P.Config, s: State)
    requires |s.d.detectors| == 1
  {
    forall a :: Enabled(c, s, a) ==> Outside(a)
  }

  /** The reader goroutine runs and every notifier could connect. */
  predicate Healthy(s: State)
    requires |s.d.detectors| == 1
  {
    && (s.d.detectors[0].reader == D.Reading || s.d.detectors[0].reader.Sending?)
    && forall j :: 0 <= j < |s.d.outputs| ==> s.d.outputs[j].notifier != D.Failed
  }

  predicate Idle(s: State)
    requires |s.d.detectors| == 1
  {
    && P.Quiescent(s.p) && s.d.pc == D.Selecting
    && s.d.detectors[0].run == D.Waiting && s.d.detectors[0].reader == D.Reading
    && forall j :: 0 <= j < |s.d.outputs| ==> s.d.outputs[j].notifier == D.Running && s.d.outputs[j].buf == []
  }

  lemma IdleWaits(c: P.Config, s: State, a: Action)
    requires Joined(c, s) && D.Ok(s.d) && !s.d.cancelled && Idle(s)
    ensures Enabled(c, s, a) ==> Outside(a)
  {
    assert D.DetectorOk(s.d.detectors[0]);
    if a.Local? && a.l.NotifierStep? && a.l.j < |s.d.outputs| {
      assert D.OutputOk(s.d, a.l.j);
    }
  }

  /** While the reader runs, Run has started and waits. */
  lemma RunWaits(s: State)
    requires |s.d.detectors| == 1 && D.Ok(s.d) && !s.d.cancelled && Healthy(s)
    ensures s.d.detectors[0].run == D.Waiting && !s.d.detectors[0].closed && !s.d.eventsClosed
    ensures s.d.pc == D.Selecting || s.d.pc.Broadcasting?
  {
    assert D.DetectorOk(s.d.detectors[0]) && D.ClosedAfterExit(s.d.detectors[0], s.d.cancelled);
  }

  lemma NotifierMoves(c: P.Config, s: State, j: nat) returns (a: Action)
    requires Joined(c, s) && D.Ok(s.d) && !s.d.cancelled && Healthy(s) && j < |s.d.outputs|
    requires !(s.d.outputs[j].notifier == D.Running && s.d.outputs[j].buf == [])
    ensures Enabled(c, s, a) && Ordinary(a)
  {
    RunWaits(s);
    assert D.OutputOk(s.d, j);
    a := Local(D.NotifierStep(j, if s.d.outputs[j].notifier == D.Connecting then D.Connect(true) else D.Receive));
  }

  lemma KernelMoves(c: P.Config, s: State) returns (a: Action)
    requires Joined(c, s) && (s.p.probing.Keys != {} || s.p.open.Some? || s.p.querying.Some?)
    ensures Enabled(c, s, a) && Ordinary(a)
  {
    if s.p.probing.Keys != {} {
      var d :| d in s.p.probing.Keys;
      a := Kernel(P.FinishProbe(d));
    } else if s.p.open.Some? {
      a := Kernel(P.SelfRelease(s.p.open.value));
    } else {
      a := Kernel(P.Decide);
    }
  }

  lemma CoordinatorMoves(c: P.Config, s: State) returns (a: Action)
    requires Joined(c, s) && D.Ok(s.d) && !s.d.cancelled && Healthy(s)
    requires s.d.pc.Broadcasting? && s.p.querying.None?
    ensures Enabled(c, s, a) && Ordinary(a)
  {
    var i := s.d.pc.next;
    if i >= |s.d.outputs| {
      a := Local(D.CoordinatorStep(D.EndBroadcast));
    } else if s.d.outputs[i].buf == [] {
      a := Local(D.CoordinatorStep(D.Send));
    } else {
      a := NotifierMoves(c, s, i);
    }
  }

  lemma ReaderMoves(c: P.Config, s: State) returns (a: Action)
    requires Joined(c, s) && D.Ok(s.d) && !s.d.cancelled && Healthy(s)
    requires s.d.pc == D.Selecting && s.p.querying.None?
    requires s.d.detectors[0].reader.Sending? || s.p.held.Some? || s.p.kernel.ring != []
    ensures Enabled(c, s, a) && Ordinary(a)
  {
    RunWaits(s);
    if s.d.detectors[0].reader.Sending? {
      a := Take(true);
    } else if s.p.held.Some? {
      a := Pass;
    } else {
      a := Kernel(P.Read);
    }
  }

  lemma SomethingMoves(c: P.Config, s: State) returns (a: Action)
    requires Joined(c, s) && D.Ok(s.d) && !s.d.cancelled && Healthy(s) && !Idle(s)
    ensures Enabled(c, s, a) && Ordinary(a)
  {
    RunWaits(s);
    if s.p.probing.Keys != {} || s.p.open.Some? || s.p.querying.Some? {
      a := KernelMoves(c, s);
    } else if s.d.pc.Broadcasting? {
      a := CoordinatorMoves(c, s);
    } else if s.d.detectors[0].reader.Sending? || s.p.held.Some? || s.p.kernel.ring != [] {
      a := ReaderMoves(c, s);
    } else {
      assert s.p.probing == map[];
      var j :| 0 <= j < |s.d.outputs| && !(s.d.outputs[j].notifier == D.Running && s.d.outputs[j].buf == []);
      a := NotifierMoves(c, s, j);
    }
  }

  lemma WaitingIsIdle(c: P.Config, s: State)
    requires Joined(c, s) && D.Ok(s.d) && !s.d.cancelled && Healthy(s)
    ensures Waiting(c, s) <==> Idle(s)
  {
    if Idle(s) {
      forall a | Enabled(c, s, a) ensures Outside(a) {
        IdleWaits(c, s, a);
      }
    } else {
      var a := SomethingMoves(c, s);
    }
  }

  /** An uncancelled system whose reader runs and whose notifiers could connect has
      no step of its own left exactly when it is idle, and is then settled towards
      every notifier. With RunsAreBounded every such run gets there. */
  lemma {:induction false} WaitingIsSettled(c: P.Config, room: nat, budget: nat, n: nat, acts: seq<Action>)
    requires var s := Execute(c, Initial(room, budget, n), acts); !s.d.cancelled && Healthy(s)
    ensures var s := Execute(c, Initial(room, budget, n), acts);
            && (Waiting(c, s) <==> Idle(s))
            && (Waiting(c, s) ==> forall j: nat :: j < n ==> Settled(s, j))
  {
    Invariants(c, room, budget, n, acts);
    WaitingIsIdle(c, Execute(c, Initial(room, budget, n), acts));
  }

  // --- A streamon arrives ---

  lemma HealthyStep(c: P.Config, s: State, a: Action)
    requires Joined(c, s) && Healthy(s) && Ordinary(a)
    ensures var t := Apply(c, s, a); Healthy(t) && t.d.cancelled == s.d.cancelled
  {
  }

  /** d was streamed on and is or is about to be recorded, alone, with its record
      not lost. */
  predicate Coming(s: P.State, d: string) {
    && d in s.tried && L.Clean(s, d)
    && s.kernel.pids.Keys <= {d} && s.probing.Keys <= {d}
    && if d in s.probing then s.probing[d].WillRecord? else d in s.kernel.pids
  }

  lemma SoleKey<K, V>(m: map<K, V>, k: K)
    requires m.Keys <= {k}
    ensures |m| <= 1
  {
    assert |m| == |m.Keys|;
    assert m.Keys == {} || m.Keys == {k};
  }

  lemma ComingStep(c: P.Config, s: P.State, a: P.Action, d: string)
    requires P.Guarded(c, s) && Coming(s, d) && !P.External(a) && !a.Discard?
    ensures Coming(P.Apply(c, s, a), d)
  {
    SoleKey(s.kernel.pids, d);
    if a.FinishProbe? && a.d in s.probing {
      assert a.d == d;
    }
  }

  lemma ComesStep(c: P.Config, s: State, a: Action, d: string)
    requires Joined(c, s) && P.Guarded(c, s.p) && D.Ok(s.d) && Enabled(c, s, a) && Ordinary(a)
    requires !s.d.cancelled && Healthy(s) && Coming(s.p, d)
    ensures var t := Apply(c, s, a);
            !t.d.cancelled && Healthy(t) && Coming(t.p, d) && Measure(t) < Measure(s)
  {
    HealthyStep(c, s, a);
    StepDecreases(c, s, a);
    match a {
      case Kernel(k) => ComingStep(c, s.p, k, d);
      case Take(fd) => ComingStep(c, s.p, P.Take(fd), d);
      case _ =>
    }
  }

  /** The state after a run. */
  function Ran(c: P.Config, room: nat, budget: nat, n: nat, acts: seq<Action>): (s: State)
    ensures Joined(c, s)
  {
    Execute(c, Initial(room, budget, n), acts)
  }

  lemma RanSnoc(c: P.Config, room: nat, budget: nat, n: nat, acts: seq<Action>, a: Action)
    ensures Ran(c, room, budget, n, acts + [a]) == Apply(c, Ran(c, room, budget, n, acts), a)
  {
    assert (acts + [a])[..|acts|] == acts;
  }

  /** Left alone, and with nothing failing, the system comes to be idle. */
  lemma {:induction false} ComesToIdle(c: P.Config, room: nat, budget: nat, n: nat, acts: seq<Action>, d: string)
    returns (all: seq<Action>)
    requires var s := Ran(c, room, budget, n, acts); !s.d.cancelled && Healthy(s) && Coming(s.p, d)
    ensures var s := Ran(c, room, budget, n, all); Idle(s) && !s.d.cancelled && Coming(s.p, d)
    ensures acts <= all && forall k :: |acts| <= k < |all| ==> Ordinary(all[k])
    decreases Measure(Ran(c, room, budget, n, acts))
  {
    var s := Ran(c, room, budget, n, acts);
    Invariants(c, room, budget, n, acts);
    if Idle(s) {
      all := acts;
    } else {
      var a := SomethingMoves(c, s);
      RanSnoc(c, room, budget, n, acts, a);
      ComesStep(c, s, a, d);
      all := ComesToIdle(c, room, budget, n, acts + [a], d);
      assert all[|acts|] == a;
    }
  }

  lemma StreamonStarts(c: P.Config, room: nat, n: nat, d: string, p: u32) returns (acts: seq<Action>)
    requires room > 0 && p != c.self
    ensures var s := Ran(c, room, 1, n, acts); !s.d.cancelled && Healthy(s) && Coming(s.p, d)
  {
    var start, probe := Local(D.DetectorStep(0, D.Start(true))), Kernel(P.OnProbe(d, p));
    RanSnoc(c, room, 1, n, [], start);
    RanSnoc(c, room, 1, n, [] + [start], probe);
    acts := [] + [start] + [probe];
  }

  /** Some run brings a streamon to every notifier, for any buffer and any number of
      notifiers. */
  lemma StreamonArrives(c: P.Config, room: nat, n: nat, d: string, p: u32) returns (acts: seq<Action>)
    requires room > 0 && P.Capture(c, d) && p != c.self
    ensures var s := Ran(c, room, 1, n, acts);
            && !s.d.cancelled && Idle(s) && d in s.p.kernel.pids && |s.d.outputs| == n
            && forall j :: 0 <= j < n ==> d in A.Replay(s.d.outputs[j].received)
  {
    var begun := StreamonStarts(c, room, n, d, p);
    acts := ComesToIdle(c, room, 1, n, begun, d);
    Invariants(c, room, 1, n, acts);
    forall j | 0 <= j < n ensures d in A.Replay(Ran(c, room, 1, n, acts).d.outputs[j].received) {
      NotifiersKnow(c, room, 1, n, acts, j, d);
    }
  }
}
