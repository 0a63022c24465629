/** The daemon's goroutines and channels as a transition system
    (cmd/camera-coordinator/main.go): detectors with their reader goroutines,
    the unbuffered channel of events, the coordinator with broadcastEvent, one
    channel of capacity 1 per notifier, the closers, and cancellation at any
    point. A select with several ready cases is several enabled actions. */
module Daemon {
  import opened Events
  import opened Capability
  import opened CoordinatorSpec
  import H = CoordinatorHistory

  const OUTPUT_CAPACITY := 1
  const ERR_CAPACITY := 1

  // --- One detector: its Run goroutine and its reader goroutine ---

  datatype RunPhase = Starting | Waiting | Joining | Finished
  datatype ReaderPhase = NotStarted | Reading | Sending(ev: CameraEvent) | Exited

  /** closed: the ring-buffer reader is closed; errs: values held by errCh. */
  datatype Detector = Detector(run: RunPhase, reader: ReaderPhase, closed: bool, errs: nat)

  datatype DetectorAction =
    | Start(ok: bool)             // load, attach and open, or fail
    | ReadRecord(ev: CameraEvent) // a record that passes the filter
    | StopReading                 // reader closed, read error or short record
    | GiveUpSend                  // ctx.Done while sending
    | SeeCancel | SeeError        // the select of Run
    | Join                        // wg.Wait returns

  predicate DetectorEnabled(d: Detector, cancelled: bool, a: DetectorAction) {
    match a
    case Start(_) => d.run == Starting
    case ReadRecord(_) => d.reader == Reading && !d.closed
    case StopReading => d.reader == Reading && d.errs < ERR_CAPACITY
    case GiveUpSend => d.reader.Sending? && cancelled && d.errs < ERR_CAPACITY
    case SeeCancel => d.run == Waiting && cancelled
    case SeeError => d.run == Waiting && d.errs > 0
    case Join => d.run == Joining && d.reader == Exited
  }

  function DetectorApply(d: Detector, a: DetectorAction): Detector {
    match a
    case Start(ok) => if ok then d.(run := Waiting, reader := Reading) else d.(run := Finished)
    case ReadRecord(ev) => d.(reader := Sending(ev))
    case StopReading => d.(reader := Exited, errs := d.errs + 1)
    case GiveUpSend => d.(reader := Exited, errs := d.errs + 1)
    case SeeCancel => d.(run := Joining, closed := true)
    case SeeError => d.(run := Joining, closed := true, errs := if d.errs > 0 then d.errs - 1 else 0)
    case Join => d.(run := Finished)
  }

  // --- One notifier and its channel ---

  datatype NotifierPhase = Connecting | Running | Returned | Failed

  /** sent and received are histories. */
  datatype Output = Output(
    buf: seq<CameraEvent>, closed: bool, notifier: NotifierPhase,
    sent: seq<CameraEvent>, received: seq<CameraEvent>)

  datatype NotifierAction = Connect(ok: bool) | Receive | SeeEnd | SeeCancelled

  predicate NotifierEnabled(o: Output, cancelled: bool, a: NotifierAction) {
    match a
    case Connect(_) => o.notifier == Connecting
    case Receive => o.notifier == Running && o.buf != []
    case SeeEnd => o.notifier == Running && o.closed && o.buf == []
    case SeeCancelled => o.notifier == Running && cancelled
  }

  function NotifierApply(o: Output, a: NotifierAction): Output {
    match a
    case Connect(ok) => o.(notifier := if ok then Running else Failed)
    case Receive => if o.buf == [] then o else o.(buf := o.buf[1..], received := o.received + [o.buf[0]])
    case SeeEnd => o.(notifier := Returned)
    case SeeCancelled => o.(notifier := Returned)
  }

  // --- The whole daemon ---

  datatype Pc = Selecting | Broadcasting(ev: CameraEvent, next: nat) | Closing(next: nat) | Done

  datatype State = State(
    cancelled: bool,
    detectors: seq<Detector>,
    eventsClosed: bool,
    pc: Pc,
    inputs: seq<Input>, // history: taken by the coordinator, in order
    reach: seq<nat>,    // history: how many outputs each emitted event went to
    outputs: seq<Output>)

  datatype CoordinatorAction =
    | SeeClosed | SeeDone // the select of Run, besides taking an event
    | Send | Abandon | EndBroadcast
    | CloseOutput | Finish

  datatype Action =
    | DetectorStep(k: nat, d: DetectorAction)
    | CloseEvents
    | Take(k: nat, answer: QueryResult)
    | CoordinatorStep(c: CoordinatorAction)
    | NotifierStep(j: nat, n: NotifierAction)
    | Cancel

  /** The events the coordinator has handed to broadcastEvent. */
  function Log(s: State): seq<CameraEvent> {
    RunAll(s.inputs).log
  }

  function Initial(detectors: nat, outputs: nat): State {
    State(false, seq(detectors, _ => Detector(Starting, NotStarted, false, 0)), false, Selecting, [], [],
          seq(outputs, _ => Output([], false, Connecting, [], [])))
  }

  predicate AllDetectorsFinished(s: State) {
    forall k :: 0 <= k < |s.detectors| ==> s.detectors[k].run == Finished
  }

  predicate CoordinatorEnabled(s: State, c: CoordinatorAction) {
    match c
    case SeeClosed => s.pc == Selecting && s.eventsClosed
    case SeeDone => s.pc == Selecting && s.cancelled
    case Send => s.pc.Broadcasting? && s.pc.next < |s.outputs| && |s.outputs[s.pc.next].buf| < OUTPUT_CAPACITY
    case Abandon => s.pc.Broadcasting? && s.pc.next < |s.outputs| && s.cancelled
    case EndBroadcast => s.pc.Broadcasting? && s.pc.next >= |s.outputs|
    case CloseOutput => s.pc.Closing? && s.pc.next < |s.outputs|
    case Finish => s.pc.Closing? && s.pc.next >= |s.outputs|
  }

  predicate Enabled(s: State, a: Action) {
    match a
    case DetectorStep(k, d) => k < |s.detectors| && DetectorEnabled(s.detectors[k], s.cancelled, d)
    case CloseEvents => AllDetectorsFinished(s) && !s.eventsClosed
    case Take(k, _) => s.pc == Selecting && k < |s.detectors| && s.detectors[k].reader.Sending?
    case CoordinatorStep(c) => CoordinatorEnabled(s, c)
    case NotifierStep(j, n) => j < |s.outputs| && NotifierEnabled(s.outputs[j], s.cancelled, n)
    case Cancel => !s.cancelled
  }

  function CoordinatorApply(s: State, c: CoordinatorAction): State
    requires CoordinatorEnabled(s, c)
  {
    match c
    case SeeClosed => s.(pc := Closing(0))
    case SeeDone => s.(pc := Closing(0))
    case Send =>
      var i, ev := s.pc.next, s.pc.ev;
      var o := s.outputs[i];
      s.(pc := Broadcasting(ev, i + 1),
         reach := if s.reach == [] then [] else s.reach[|s.reach| - 1 := i + 1],
         outputs := s.outputs[i := o.(buf := o.buf + [ev], sent := o.sent + [ev])])
    case Abandon => s.(pc := Selecting)
    case EndBroadcast => s.(pc := Selecting)
    case CloseOutput =>
      var i := s.pc.next;
      s.(pc := Closing(i + 1), outputs := s.outputs[i := s.outputs[i].(closed := true)])
    case Finish => s.(pc := Done)
  }

  /** The coordinator receives the event and handles it; on an edge it enters
      broadcastEvent. */
  function ApplyTake(s: State, k: nat, answer: QueryResult): State
    requires k < |s.detectors| && s.detectors[k].reader.Sending?
  {
    var i := Input(s.detectors[k].reader.ev, answer);
    var t := s.(detectors := s.detectors[k := s.detectors[k].(reader := Reading)], inputs := s.inputs + [i]);
    if |Log(t)| > |Log(s)| then t.(pc := Broadcasting(Log(t)[|Log(s)|], 0), reach := s.reach + [0]) else t
  }

  /** The step of an enabled action; a disabled one leaves the state alone. */
  function Apply(s: State, a: Action): State {
    if !Enabled(s, a) then s else
    match a
    case DetectorStep(k, d) => s.(detectors := s.detectors[k := DetectorApply(s.detectors[k], d)])
    case CloseEvents => s.(eventsClosed := true)
    case Take(k, answer) => ApplyTake(s, k, answer)
    case CoordinatorStep(c) => CoordinatorApply(s, c)
    case NotifierStep(j, n) => s.(outputs := s.outputs[j := NotifierApply(s.outputs[j], n)])
    case Cancel => s.(cancelled := true)
  }

  function Execute(s: State, acts: seq<Action>): State {
    if acts == [] then s else Apply(Execute(s, acts[..|acts| - 1]), acts[|acts| - 1])
  }

  predicate Exits(o: Output) {
    o.notifier == Returned || o.notifier == Failed
  }

  /** main's wg.Wait can return. */
  predicate AllFinished(s: State) {
    && AllDetectorsFinished(s) && s.eventsClosed && s.pc == Done
    && forall j :: 0 <= j < |s.outputs| ==> Exits(s.outputs[j])
  }

  // --- Invariants ---

  predicate DetectorOk(d: Detector) {
    match d.run
    case Starting => d.reader == NotStarted && !d.closed && d.errs == 0
    case Waiting => d.reader != NotStarted && !d.closed && d.errs == if d.reader == Exited then 1 else 0
    case Joining => d.reader != NotStarted && d.closed && d.errs <= 1 && (d.reader != Exited ==> d.errs == 0)
    case Finished => d.reader == NotStarted || d.reader == Exited
  }

  /** Without cancellation Run closes the ring-buffer reader only when its
      goroutine has reported. */
  predicate ClosedAfterExit(d: Detector, cancelled: bool) {
    d.closed && !cancelled ==> d.reader == Exited
  }

  predicate DetectorsOk(s: State) {
    && (forall k :: 0 <= k < |s.detectors| ==> DetectorOk(s.detectors[k]))
    && (forall k :: 0 <= k < |s.detectors| ==> ClosedAfterExit(s.detectors[k], s.cancelled))
    && (s.eventsClosed ==> AllDetectorsFinished(s))
  }

  predicate ClosedByNow(pc: Pc, j: nat) {
    pc == Done || (pc.Closing? && j < pc.next)
  }

  predicate OutputOk(s: State, j: nat)
    requires j < |s.outputs|
  {
    var o := s.outputs[j];
    && |o.buf| <= OUTPUT_CAPACITY && o.sent == o.received + o.buf
    && o.closed == ClosedByNow(s.pc, j)
    && (o.notifier == Returned && !s.cancelled ==> o.closed && o.buf == [])
    && (o.notifier == Connecting || o.notifier == Failed ==> o.received == [])
  }

  predicate OutputsOk(s: State) {
    && (forall j :: 0 <= j < |s.outputs| ==> OutputOk(s, j))
    && (s.pc.Closing? || s.pc == Done ==> s.eventsClosed || s.cancelled)
    && (s.pc.Closing? ==> s.pc.next <= |s.outputs|)
  }

  predicate FanOut(log: seq<CameraEvent>, reach: seq<nat>, outputs: seq<Output>, pc: Pc, cancelled: bool) {
    && |reach| == |log|
    && (forall j :: 0 <= j < |outputs| ==> outputs[j].sent == Reached(log, reach, j))
    && (pc.Broadcasting? ==>
          log != [] && pc.ev == log[|log| - 1] && pc.next == reach[|log| - 1] <= |outputs|)
    && (!cancelled ==>
          forall k :: 0 <= k < |log| ==> reach[k] == |outputs| || (k == |log| - 1 && pc.Broadcasting?))
  }

  predicate FanOutOk(s: State) {
    FanOut(Log(s), s.reach, s.outputs, s.pc, s.cancelled)
  }

  lemma DetectorKeeps(d: Detector, cancelled: bool, a: DetectorAction)
    requires DetectorOk(d) && ClosedAfterExit(d, cancelled) && DetectorEnabled(d, cancelled, a)
    ensures DetectorOk(DetectorApply(d, a)) && ClosedAfterExit(DetectorApply(d, a), cancelled)
    ensures d.run == Finished ==> DetectorApply(d, a).run == Finished
  {
  }

  /** A detector in a phase of its own changes alone. */
  lemma DetectorsOkUpdate(s: State, t: State, k: nat, d: Detector)
    requires DetectorsOk(s) && k < |s.detectors|
    requires DetectorOk(d) && ClosedAfterExit(d, s.cancelled) && (s.detectors[k].run == Finished ==> d.run == Finished)
    requires t.detectors == s.detectors[k := d] && t.cancelled == s.cancelled && t.eventsClosed == s.eventsClosed
    ensures DetectorsOk(t)
  {
  }

  lemma DetectorsOkStep(s: State, a: Action)
    requires DetectorsOk(s)
    ensures DetectorsOk(Apply(s, a))
  {
    if Enabled(s, a) && a.DetectorStep? {
      var d := s.detectors[a.k];
      assert DetectorOk(d) && ClosedAfterExit(d, s.cancelled);
      DetectorKeeps(d, s.cancelled, a.d);
      DetectorsOkUpdate(s, Apply(s, a), a.k, DetectorApply(d, a.d));
    } else if Enabled(s, a) && a.Take? {
      var d := s.detectors[a.k];
      assert DetectorOk(d) && ClosedAfterExit(d, s.cancelled);
      DetectorsOkUpdate(s, Apply(s, a), a.k, d.(reader := Reading));
    }
  }

  lemma OutputsOkCoordinator(s: State, c: CoordinatorAction)
    requires OutputsOk(s) && CoordinatorEnabled(s, c)
    ensures OutputsOk(CoordinatorApply(s, c))
  {
    var t := CoordinatorApply(s, c);
    forall j | 0 <= j < |t.outputs| ensures OutputOk(t, j) {
      assert OutputOk(s, j);
    }
  }

  lemma OutputsOkNotifier(s: State, k: nat, n: NotifierAction)
    requires OutputsOk(s) && Enabled(s, NotifierStep(k, n))
    ensures OutputsOk(Apply(s, NotifierStep(k, n)))
  {
    var t := Apply(s, NotifierStep(k, n));
    forall j | 0 <= j < |t.outputs| ensures OutputOk(t, j) {
      assert OutputOk(s, j);
    }
  }

  lemma OutputsOkStep(s: State, a: Action)
    requires OutputsOk(s)
    ensures OutputsOk(Apply(s, a))
  {
    if Enabled(s, a) {
      match a
      case CoordinatorStep(c) => OutputsOkCoordinator(s, c);
      case NotifierStep(k, n) => OutputsOkNotifier(s, k, n);
      case _ =>
        var t := Apply(s, a);
        forall j | 0 <= j < |t.outputs| ensures OutputOk(t, j) {
          assert OutputOk(s, j);
        }
    }
  }

  lemma LogGrows(h: seq<Input>, i: Input) returns (e: seq<CameraEvent>)
    ensures RunAll(h + [i]).log == RunAll(h).log + e && |e| <= 1
  {
    StepAllSnoc(INITIAL, h, i);
    H.LogStep(RunAll(h), i);
    e := if H.Edge(RunAll(h), i) then [Notice(i)] else [];
  }

  lemma FanOutBegin(log: seq<CameraEvent>, reach: seq<nat>, outputs: seq<Output>, cancelled: bool, e: CameraEvent)
    requires FanOut(log, reach, outputs, Selecting, cancelled)
    ensures FanOut(log + [e], reach + [0], outputs, Broadcasting(e, 0), cancelled)
  {
    forall j | 0 <= j < |outputs| ensures outputs[j].sent == Reached(log + [e], reach + [0], j) {
      ReachedSnoc(log, e, reach, 0, j);
    }
  }

  lemma FanOutTake(s: State, k: nat, answer: QueryResult)
    requires FanOutOk(s) && Enabled(s, Take(k, answer))
    ensures FanOutOk(Apply(s, Take(k, answer)))
  {
    var e := LogGrows(s.inputs, Input(s.detectors[k].reader.ev, answer));
    if e != [] {
      assert e == [e[0]];
      FanOutBegin(Log(s), s.reach, s.outputs, s.cancelled, e[0]);
    } else {
      assert Log(s) + e == Log(s);
    }
  }

  lemma FanOutSend(log: seq<CameraEvent>, reach: seq<nat>, outputs: seq<Output>, cancelled: bool, ev: CameraEvent, i: nat)
    requires FanOut(log, reach, outputs, Broadcasting(ev, i), cancelled) && i < |outputs|
    ensures var o := outputs[i];
            FanOut(log, reach[|reach| - 1 := i + 1], outputs[i := o.(buf := o.buf + [ev], sent := o.sent + [ev])],
                   Broadcasting(ev, i + 1), cancelled)
  {
    var n := |log| - 1;
    var p, q, r := log[..n], reach[..n], reach[n := i + 1];
    assert log == p + [ev] && reach == q + [i] && r == q + [i + 1];
    forall j | 0 <= j < |outputs| ensures Reached(log, r, j) == Reached(log, reach, j) + if j == i then [ev] else [] {
      ReachedSnoc(p, ev, q, i, j);
      ReachedSnoc(p, ev, q, i + 1, j);
    }
  }

  lemma FanOutCoordinator(s: State, c: CoordinatorAction)
    requires FanOutOk(s) && CoordinatorEnabled(s, c)
    ensures FanOutOk(CoordinatorApply(s, c))
  {
    if c.Send? {
      FanOutSend(Log(s), s.reach, s.outputs, s.cancelled, s.pc.ev, s.pc.next);
    }
  }

  lemma FanOutOkStep(s: State, a: Action)
    requires FanOutOk(s)
    ensures FanOutOk(Apply(s, a))
  {
    if Enabled(s, a) {
      match a
      case Take(k, answer) => FanOutTake(s, k, answer);
      case CoordinatorStep(c) => FanOutCoordinator(s, c);
      case _ =>
    }
  }

  predicate Ok(s: State) {
    DetectorsOk(s) && OutputsOk(s) && FanOutOk(s)
  }

  lemma SameGoroutines(s: State, a: Action)
    ensures |Apply(s, a).detectors| == |s.detectors| && |Apply(s, a).outputs| == |s.outputs|
  {
  }

  lemma OkStep(s: State, a: Action)
    requires Ok(s)
    ensures Ok(Apply(s, a))
    ensures |Apply(s, a).detectors| == |s.detectors| && |Apply(s, a).outputs| == |s.outputs|
  {
    SameGoroutines(s, a);
    DetectorsOkStep(s, a);
    OutputsOkStep(s, a);
    FanOutOkStep(s, a);
  }

  lemma InitialOk(m: nat, n: nat)
    ensures Ok(Initial(m, n))
  {
  }

  /** The invariants hold in every state of every run. */
  lemma {:induction false} Invariants(m: nat, n: nat, acts: seq<Action>)
    ensures Ok(Execute(Initial(m, n), acts))
    ensures |Execute(Initial(m, n), acts).detectors| == m && |Execute(Initial(m, n), acts).outputs| == n
  {
    if acts == [] {
      InitialOk(m, n);
    } else {
      Invariants(m, n, acts[..|acts| - 1]);
      OkStep(Execute(Initial(m, n), acts[..|acts| - 1]), acts[|acts| - 1]);
    }
  }

  // --- Fan-out ---

  /** a is b with some elements left out. */
  predicate Subsequence<T(==)>(a: seq<T>, b: seq<T>)
    decreases |b|
  {
    if a == [] then true
    else if b == [] then false
    else if a[|a| - 1] == b[|b| - 1] then Subsequence(a[..|a| - 1], b[..|b| - 1])
    else Subsequence(a, b[..|b| - 1])
  }

  lemma {:induction false} SubsequenceSnoc<T>(a: seq<T>, b: seq<T>, e: T)
    requires Subsequence(a, b)
    ensures Subsequence(a, b + [e])
    decreases |b|, 1
  {
    assert (b + [e])[..|b|] == b;
    if a != [] && a[|a| - 1] == e {
      DropLast(a, b);
    }
  }

  lemma {:induction false} DropLast<T>(a: seq<T>, b: seq<T>)
    requires Subsequence(a, b) && a != []
    ensures Subsequence(a[..|a| - 1], b)
    decreases |b|, 0
  {
    var a', b' := a[..|a| - 1], b[..|b| - 1];
    assert b == b' + [b[|b| - 1]];
    if a[|a| - 1] == b[|b| - 1] {
      SubsequenceSnoc(a', b', b[|b| - 1]);
    } else {
      DropLast(a, b');
      SubsequenceSnoc(a', b', b[|b| - 1]);
    }
  }

  lemma {:induction false} ReachedChain<T>(log: seq<T>, reach: seq<nat>, i: nat, j: nat)
    requires |log| == |reach| && i <= j
    ensures Subsequence(Reached(log, reach, j), Reached(log, reach, i))
  {
    if log != [] {
      var n := |log| - 1;
      var a, b := Reached(log[..n], reach[..n], j), Reached(log[..n], reach[..n], i);
      ReachedChain(log[..n], reach[..n], i, j);
      assert (b + [log[n]])[..|b|] == b && (a + [log[n]])[..|a|] == a;
      if reach[n] <= j {
        SubsequenceSnoc(a, b, log[n]);
      }
    }
  }

  lemma {:induction false} ReachedWithin<T>(log: seq<T>, reach: seq<nat>, i: nat)
    requires |log| == |reach|
    ensures Subsequence(Reached(log, reach, i), log)
    ensures |Reached(log, reach, i)| <= |log|
  {
    if log != [] {
      var n := |log| - 1;
      var p, b := log[..n], Reached(log[..n], reach[..n], i);
      assert log == p + [log[n]];
      ReachedWithin(p, reach[..n], i);
      if reach[n] > i {
        assert (b + [log[n]])[..|b|] == b;
      } else {
        SubsequenceSnoc(b, p, log[n]);
      }
    }
  }

  predicate AllPast(reach: seq<nat>, i: nat) {
    forall k :: 0 <= k < |reach| ==> reach[k] > i
  }

  lemma AllPastSnoc(q: seq<nat>, r: nat, i: nat)
    ensures AllPast(q + [r], i) <==> AllPast(q, i) && r > i
  {
    assert (q + [r])[|q|] == r && forall k :: 0 <= k < |q| ==> (q + [r])[k] == q[k];
  }

  lemma {:induction false} ReachedAll<T>(log: seq<T>, reach: seq<nat>, i: nat)
    requires |log| == |reach|
    ensures |Reached(log, reach, i)| == |log| <==> AllPast(reach, i)
    ensures AllPast(reach, i) ==> Reached(log, reach, i) == log
  {
    if log != [] {
      var n := |log| - 1;
      var p, q := log[..n], reach[..n];
      assert log == p + [log[n]] && reach == q + [reach[n]];
      ReachedAll(p, q, i);
      ReachedWithin(p, q, i);
      ReachedSnoc(p, log[n], q, reach[n], i);
      AllPastSnoc(q, reach[n], i);
    }
  }

  lemma ReachedOfLog<T>(log: seq<T>, reach: seq<nat>, i: nat)
    requires |log| == |reach|
    ensures Subsequence(Reached(log, reach, i), log)
    ensures Reached(log, reach, i) == log <==> forall k :: 0 <= k < |log| ==> reach[k] > i
  {
    ReachedWithin(log, reach, i);
    ReachedAll(log, reach, i);
  }

  /** What output j was sent is a subsequence of what an earlier output was sent
      and of the emitted log; it is the whole log exactly when every broadcast got
      past j; and notifier j has a prefix of it, at most one event behind. */
  ghost predicate Chained<T>(
      log: seq<T>, reach: seq<nat>, earlier: seq<T>, sent: seq<T>, received: seq<T>, j: nat)
    requires |log| == |reach|
  {
    && Subsequence(sent, earlier) && Subsequence(sent, log)
    && (sent == log <==> forall k :: 0 <= k < |log| ==> reach[k] > j)
    && received <= sent && |sent| - |received| <= OUTPUT_CAPACITY
  }

  lemma ChainOf<T>(log: seq<T>, reach: seq<nat>, received: seq<T>, buf: seq<T>, i: nat, j: nat)
    requires |log| == |reach| && i <= j && Reached(log, reach, j) == received + buf && |buf| <= OUTPUT_CAPACITY
    ensures Chained(log, reach, Reached(log, reach, i), Reached(log, reach, j), received, j)
  {
    ReachedChain(log, reach, i, j);
    ReachedOfLog(log, reach, j);
  }

  /** The chain of outputs holds at all times, before and after cancellation. */
  lemma {:induction false} FanOutChain(m: nat, n: nat, acts: seq<Action>, i: nat, j: nat)
    requires i <= j < n
    ensures var s := Execute(Initial(m, n), acts);
            && |s.outputs| == n && |s.reach| == |Log(s)|
            && Chained(Log(s), s.reach, s.outputs[i].sent, s.outputs[j].sent, s.outputs[j].received, j)
  {
    var s := Execute(Initial(m, n), acts);
    Invariants(m, n, acts);
    assert OutputOk(s, j);
    ChainOf(Log(s), s.reach, s.outputs[j].received, s.outputs[j].buf, i, j);
  }

  lemma LockstepAt(s: State, j: nat)
    requires FanOutOk(s) && !s.cancelled && j < |s.outputs|
    ensures if s.pc.Broadcasting? && j >= s.pc.next
            then s.outputs[j].sent + [s.pc.ev] == Log(s)
            else s.outputs[j].sent == Log(s)
  {
    var log := Log(s);
    if s.pc.Broadcasting? {
      var k := |log| - 1;
      var p, q := log[..k], s.reach[..k];
      assert log == p + [log[k]] && s.reach == q + [s.reach[k]];
      ReachedOfLog(p, q, j);
      ReachedSnoc(p, log[k], q, s.reach[k], j);
    } else {
      ReachedOfLog(log, s.reach, j);
    }
  }

  /** Before cancellation every output has been sent the emitted log, but for
      the event in flight, which only the outputs before `next` have. */
  lemma {:induction false} FanOutLockstep(m: nat, n: nat, acts: seq<Action>, j: nat)
    requires j < n && !Execute(Initial(m, n), acts).cancelled
    ensures var s := Execute(Initial(m, n), acts);
            |s.outputs| == n &&
            if s.pc.Broadcasting? && j >= s.pc.next
            then s.outputs[j].sent + [s.pc.ev] == Log(s)
            else s.outputs[j].sent == Log(s)
  {
    Invariants(m, n, acts);
    LockstepAt(Execute(Initial(m, n), acts), j);
  }

  /** Between broadcasts a notifier with an empty channel has the whole log. */
  lemma CaughtUp(m: nat, n: nat, acts: seq<Action>, j: nat)
    requires var s := Execute(Initial(m, n), acts);
             !s.cancelled && !s.pc.Broadcasting? && j < |s.outputs| && s.outputs[j].buf == []
    ensures var s := Execute(Initial(m, n), acts);
            s.outputs[j].received == Log(s)
  {
    var s := Execute(Initial(m, n), acts);
    Invariants(m, n, acts);
    LockstepAt(s, j);
    assert OutputOk(s, j);
  }

  /** In a run without cancellation, a notifier that has returned has received
      exactly the emitted log, in order, and the log can grow no more. */
  lemma EndOfStream(m: nat, n: nat, acts: seq<Action>, j: nat)
    requires j < n
    requires var s := Execute(Initial(m, n), acts);
             !s.cancelled && |s.outputs| == n && s.outputs[j].notifier == Returned
    ensures var s := Execute(Initial(m, n), acts);
            s.outputs[j].received == Log(s) && (s.pc.Closing? || s.pc == Done)
  {
    var s := Execute(Initial(m, n), acts);
    Invariants(m, n, acts);
    FanOutLockstep(m, n, acts, j);
    assert OutputOk(s, j);
  }

  // --- Independence ---

  /** What a notifier can do changes only by its own steps, by the coordinator's and
      by cancellation; what a detector can do only by its own steps, by the
      coordinator taking its event and by cancellation. */
  lemma Independent(s: State, a: Action, j: nat, n: NotifierAction, d: DetectorAction)
    ensures !a.CoordinatorStep? && a != Cancel && !(a.NotifierStep? && a.j == j) ==>
              (Enabled(Apply(s, a), NotifierStep(j, n)) <==> Enabled(s, NotifierStep(j, n)))
    ensures a != Cancel && !(a.DetectorStep? && a.k == j) && !(a.Take? && a.k == j) ==>
              (Enabled(Apply(s, a), DetectorStep(j, d)) <==> Enabled(s, DetectorStep(j, d)))
  {
  }

  /** A detector may start or fail to; one that fails never reads anything. */
  lemma StartMayFail(s: State, k: nat)
    requires k < |s.detectors| && s.detectors[k] == Detector(Starting, NotStarted, false, 0)
    ensures Enabled(s, DetectorStep(k, Start(true))) && Enabled(s, DetectorStep(k, Start(false)))
    ensures var t := Apply(s, DetectorStep(k, Start(false)));
            && t.detectors[k] == Detector(Finished, NotStarted, false, 0)
            && (forall d :: !Enabled(t, DetectorStep(k, d)))
            && (forall answer :: !Enabled(t, Take(k, answer)))
  {
    var t := Apply(s, DetectorStep(k, Start(false)));
    forall d ensures !Enabled(t, DetectorStep(k, d)) {
      assert t.detectors[k] == Detector(Finished, NotStarted, false, 0);
    }
  }

  // --- Shutdown ---

  /** No goroutine is ever about to send on a closed channel or to close one
      again, and errCh always has room for the value of the reader goroutine. */
  lemma ShutdownSafety(m: nat, n: nat, acts: seq<Action>)
    ensures var s := Execute(Initial(m, n), acts);
            && (forall k :: 0 <= k < |s.detectors| && s.detectors[k].reader.Sending? ==> !s.eventsClosed)
            && (forall k :: 0 <= k < |s.detectors| && (s.detectors[k].reader.Sending? || s.detectors[k].reader == Reading)
                  ==> s.detectors[k].errs < ERR_CAPACITY)
            && (s.pc.Broadcasting? ==> forall j :: 0 <= j < |s.outputs| ==> !s.outputs[j].closed)
            && (s.pc.Closing? ==> forall j :: s.pc.next <= j < |s.outputs| ==> !s.outputs[j].closed)
  {
    var s := Execute(Initial(m, n), acts);
    Invariants(m, n, acts);
    forall k | 0 <= k < |s.detectors| && (s.detectors[k].reader.Sending? || s.detectors[k].reader == Reading)
      ensures !s.eventsClosed && s.detectors[k].errs < ERR_CAPACITY
    {
      assert DetectorOk(s.detectors[k]);
    }
    forall j | 0 <= j < |s.outputs| ensures s.outputs[j].closed == ClosedByNow(s.pc, j) {
      assert OutputOk(s, j);
    }
  }

  function DetectorWeight(d: Detector): nat {
    (match d.run case Starting => 5 case Waiting => 2 case Joining => 1 case Finished => 0)
    + (match d.reader case NotStarted => 0 case Reading => 2 case Sending(_) => 1 case Exited => 0)
  }

  function DetectorsWeight(ds: seq<Detector>): nat {
    if ds == [] then 0 else DetectorsWeight(ds[..|ds| - 1]) + DetectorWeight(ds[|ds| - 1])
  }

  function OutputWeight(o: Output): nat {
    |o.buf| + (match o.notifier case Connecting => 2 case Running => 1 case Returned => 0 case Failed => 0)
  }

  function OutputsWeight(os: seq<Output>): nat {
    if os == [] then 0 else OutputsWeight(os[..|os| - 1]) + OutputWeight(os[|os| - 1])
  }

  function PcWeight(pc: Pc, n: nat): nat {
    match pc
    case Selecting => n + 2
    case Broadcasting(_, i) => n + 3 + 2 * (if i < n then n - i else 0)
    case Closing(i) => 1 + if i < n then n - i else 0
    case Done => 0
  }

  function Measure(s: State): nat {
    DetectorsWeight(s.detectors) + OutputsWeight(s.outputs) + PcWeight(s.pc, |s.outputs|)
    + (if s.eventsClosed then 0 else 1) + (if s.cancelled then 0 else 1)
  }

  lemma {:induction false} DetectorsWeightUpdate(ds: seq<Detector>, k: nat, d: Detector)
    requires k < |ds|
    ensures DetectorsWeight(ds[k := d]) == DetectorsWeight(ds) - DetectorWeight(ds[k]) + DetectorWeight(d)
  {
    var n := |ds| - 1;
    if k < n {
      DetectorsWeightUpdate(ds[..n], k, d);
      assert ds[k := d][..n] == ds[..n][k := d];
    } else {
      assert ds[k := d][..n] == ds[..n];
    }
  }

  lemma {:induction false} OutputsWeightUpdate(os: seq<Output>, j: nat, o: Output)
    requires j < |os|
    ensures OutputsWeight(os[j := o]) == OutputsWeight(os) - OutputWeight(os[j]) + OutputWeight(o)
  {
    var n := |os| - 1;
    if j < n {
      OutputsWeightUpdate(os[..n], j, o);
      assert os[j := o][..n] == os[..n][j := o];
    } else {
      assert os[j := o][..n] == os[..n];
    }
  }

  lemma CoordinatorDecreases(s: State, c: CoordinatorAction)
    requires CoordinatorEnabled(s, c)
    ensures Measure(CoordinatorApply(s, c)) < Measure(s)
  {
    if c.Send? || c.CloseOutput? {
      OutputsWeightUpdate(s.outputs, s.pc.next, CoordinatorApply(s, c).outputs[s.pc.next]);
    }
  }

  lemma DetectorDecreases(d: Detector, cancelled: bool, a: DetectorAction)
    requires DetectorOk(d) && DetectorEnabled(d, cancelled, a)
    ensures DetectorWeight(DetectorApply(d, a)) < DetectorWeight(d)
  {
  }

  lemma NotifierDecreases(o: Output, cancelled: bool, a: NotifierAction)
    requires NotifierEnabled(o, cancelled, a)
    ensures OutputWeight(NotifierApply(o, a)) < OutputWeight(o)
  {
  }

  /** Every step but taking an event brings the daemon closer to its end. */
  lemma StepDecreases(s: State, a: Action)
    requires Ok(s) && Enabled(s, a) && !a.Take?
    ensures Measure(Apply(s, a)) < Measure(s)
  {
    match a
    case DetectorStep(k, d) =>
      DetectorDecreases(s.detectors[k], s.cancelled, d);
      DetectorsWeightUpdate(s.detectors, k, DetectorApply(s.detectors[k], d));
    case NotifierStep(j, n) =>
      NotifierDecreases(s.outputs[j], s.cancelled, n);
      OutputsWeightUpdate(s.outputs, j, NotifierApply(s.outputs[j], n));
    case CoordinatorStep(c) => CoordinatorDecreases(s, c);
    case _ =>
  }

  lemma TakeIncrease(s: State, k: nat, answer: QueryResult)
    requires Ok(s) && Enabled(s, Take(k, answer))
    ensures Measure(Apply(s, Take(k, answer))) <= Measure(s) + 2 * |s.outputs| + 2
  {
    DetectorsWeightUpdate(s.detectors, k, s.detectors[k].(reader := Reading));
  }

  lemma StepBound(s: State, a: Action)
    requires Ok(s) && Enabled(s, a)
    ensures Measure(Apply(s, a)) + 1 <= Measure(s) + if a.Take? then 2 * |s.outputs| + 3 else 0
  {
    if a.Take? {
      TakeIncrease(s, a.k, a.answer);
    } else {
      StepDecreases(s, a);
    }
  }

  predicate AllEnabled(s: State, acts: seq<Action>) {
    acts == [] || (AllEnabled(s, acts[..|acts| - 1]) && Enabled(Execute(s, acts[..|acts| - 1]), acts[|acts| - 1]))
  }

  function Takes(acts: seq<Action>): nat {
    if acts == [] then 0 else Takes(acts[..|acts| - 1]) + if acts[|acts| - 1].Take? then 1 else 0
  }

  lemma {:induction false} OkRun(s: State, acts: seq<Action>)
    requires Ok(s)
    ensures Ok(Execute(s, acts)) && |Execute(s, acts).outputs| == |s.outputs|
  {
    if acts != [] {
      OkRun(s, acts[..|acts| - 1]);
      OkStep(Execute(s, acts[..|acts| - 1]), acts[|acts| - 1]);
    }
  }

  /** 2n + 3 steps for each event taken. */
  function Allowance(n: nat, acts: seq<Action>): nat {
    if acts == [] then 0 else Allowance(n, acts[..|acts| - 1]) + if acts[|acts| - 1].Take? then 2 * n + 3 else 0
  }

  lemma {:induction false} AllowanceIsProduct(n: nat, acts: seq<Action>)
    ensures Allowance(n, acts) == (2 * n + 3) * Takes(acts)
  {
    if acts != [] {
      AllowanceIsProduct(n, acts[..|acts| - 1]);
    }
  }

  lemma {:induction false} RunsWithin(s: State, acts: seq<Action>)
    requires Ok(s) && AllEnabled(s, acts)
    ensures |acts| + Measure(Execute(s, acts)) <= Measure(s) + Allowance(|s.outputs|, acts)
  {
    if acts != [] {
      var p := acts[..|acts| - 1];
      RunsWithin(s, p);
      OkRun(s, p);
      StepBound(Execute(s, p), acts[|acts| - 1]);
    }
  }

  /** From any reachable state, whatever the scheduling: a run in which the
      coordinator takes t more events has at most Measure + (2n + 3) t steps. So
      only new events can keep the daemon from stopping. */
  lemma {:induction false} RunsAreBounded(s: State, acts: seq<Action>)
    requires Ok(s) && AllEnabled(s, acts)
    ensures |acts| + Measure(Execute(s, acts)) <= Measure(s) + (2 * |s.outputs| + 3) * Takes(acts)
  {
    RunsWithin(s, acts);
    AllowanceIsProduct(|s.outputs|, acts);
  }

  lemma {:induction false} ExecuteCons(s: State, a: Action, acts: seq<Action>)
    ensures Execute(s, [a] + acts) == Execute(Apply(s, a), acts)
    ensures AllEnabled(s, [a] + acts) <==> Enabled(s, a) && AllEnabled(Apply(s, a), acts)
    ensures Takes([a] + acts) == Takes(acts) + if a.Take? then 1 else 0
  {
    var g := [a] + acts;
    if acts == [] {
      assert g == [a] && g[..0] == [];
    } else {
      var n := |acts| - 1;
      assert g[..|g| - 1] == [a] + acts[..n] && g[|g| - 1] == acts[n];
      ExecuteCons(s, a, acts[..n]);
    }
  }

  /** A step that is open to a goroutine on its way out once cancelled. */
  lemma CancelledStep(s: State) returns (a: Action)
    requires Ok(s) && s.cancelled && !AllFinished(s)
    ensures Enabled(s, a) && !a.Take?
  {
    if k :| 0 <= k < |s.detectors| && s.detectors[k].run != Finished {
      var d := s.detectors[k];
      assert DetectorOk(d);
      a := DetectorStep(k, match d.run
        case Starting => Start(true)
        case Waiting => SeeCancel
        case _ => if d.reader == Exited then Join else if d.reader == Reading then StopReading else GiveUpSend);
    } else if !s.eventsClosed {
      a := CloseEvents;
    } else if s.pc != Done {
      a := CoordinatorStep(match s.pc
        case Selecting => SeeDone
        case Broadcasting(_, i) => if i < |s.outputs| then Abandon else EndBroadcast
        case Closing(i) => if i < |s.outputs| then CloseOutput else Finish
        case Done => Finish);
    } else {
      var j :| 0 <= j < |s.outputs| && !Exits(s.outputs[j]);
      a := NotifierStep(j, if s.outputs[j].notifier == Connecting then Connect(true) else SeeCancelled);
    }
  }

  /** Cancellation stops the daemon, even with a full buffer on a dead notifier:
      from every reachable cancelled state some run of at most Measure steps, in
      which the coordinator takes no event, finishes every goroutine. */
  lemma {:induction false} ShutdownProgress(s: State) returns (acts: seq<Action>)
    requires Ok(s) && s.cancelled
    ensures AllEnabled(s, acts) && Takes(acts) == 0 && |acts| <= Measure(s)
    ensures AllFinished(Execute(s, acts))
    decreases Measure(s)
  {
    if AllFinished(s) {
      acts := [];
    } else {
      var a := CancelledStep(s);
      var t := Apply(s, a);
      OkStep(s, a);
      StepDecreases(s, a);
      var rest := ShutdownProgress(t);
      acts := [a] + rest;
      ExecuteCons(s, a, rest);
    }
  }
}
