/** When the daemon drains by itself, where it can stop without cancellation, and
    how the outputs may look after cancellation. */
module DaemonLimits {
  import opened Events
  import opened Capability
  import opened CoordinatorSpec
  import opened Daemon

  /** Nothing but cancellation can happen any more. */
  ghost predicate Stuck(s: State) {
    forall a :: Enabled(s, a) ==> a == Cancel
  }

  /** broadcastEvent waits for room in the full channel of a notifier that failed
      to connect, every detector left waits to send, and the other notifiers
      wait for events. */
  predicate Blocked(s: State) {
    && s.pc.Broadcasting? && s.pc.next < |s.outputs|
    && s.outputs[s.pc.next].notifier == Failed && s.outputs[s.pc.next].buf != []
    && (forall j :: 0 <= j < |s.outputs| ==>
          s.outputs[j].notifier == Failed || (s.outputs[j].notifier == Running && s.outputs[j].buf == []))
    && (forall k :: 0 <= k < |s.detectors| ==> s.detectors[k].run == Finished || s.detectors[k].reader.Sending?)
    && (AllDetectorsFinished(s) ==> s.eventsClosed)
  }

  lemma DetectorMoves(s: State, k: nat) returns (a: Action)
    requires Ok(s) && k < |s.detectors| && s.detectors[k].run != Finished
    requires !s.detectors[k].reader.Sending? || s.pc == Selecting
    ensures Enabled(s, a) && a != Cancel
  {
    var d := s.detectors[k];
    assert DetectorOk(d);
    if d.reader.Sending? {
      a := Take(k, QueryFailed);
    } else if d.reader == Reading {
      a := DetectorStep(k, StopReading);
    } else {
      a := DetectorStep(k, if d.run == Starting then Start(true) else if d.run == Joining then Join else SeeError);
    }
  }

  lemma NotifierMoves(s: State, j: nat) returns (a: Action)
    requires Ok(s) && !s.cancelled && j < |s.outputs| && s.outputs[j].notifier != Failed
    requires !(s.outputs[j].notifier == Running && s.outputs[j].buf == []) || s.pc == Done
    requires s.pc.Broadcasting? || !Exits(s.outputs[j])
    ensures Enabled(s, a) && a != Cancel
  {
    var o := s.outputs[j];
    assert OutputOk(s, j);
    a := NotifierStep(j, if o.notifier == Connecting then Connect(true) else if o.buf != [] then Receive else SeeEnd);
  }

  lemma SomethingMoves(s: State) returns (a: Action)
    requires Ok(s) && !s.cancelled && !AllFinished(s) && !Blocked(s)
    ensures Enabled(s, a) && a != Cancel
  {
    if k :| 0 <= k < |s.detectors| && s.detectors[k].run != Finished
            && (!s.detectors[k].reader.Sending? || s.pc == Selecting) {
      a := DetectorMoves(s, k);
    } else if AllDetectorsFinished(s) && !s.eventsClosed {
      a := CloseEvents;
    } else if s.pc == Done {
      var j :| 0 <= j < |s.outputs| && !Exits(s.outputs[j]);
      a := NotifierMoves(s, j);
    } else if s.pc == Selecting {
      a := CoordinatorStep(SeeClosed);
    } else if s.pc.Closing? {
      a := CoordinatorStep(if s.pc.next < |s.outputs| then CloseOutput else Finish);
    } else if s.pc.next >= |s.outputs| {
      a := CoordinatorStep(EndBroadcast);
    } else if s.outputs[s.pc.next].buf == [] {
      a := CoordinatorStep(Send);
    } else {
      assert OutputOk(s, s.pc.next);
      var j :| 0 <= j < |s.outputs| && s.outputs[j].notifier != Failed
               && !(s.outputs[j].notifier == Running && s.outputs[j].buf == []);
      a := NotifierMoves(s, j);
    }
  }

  lemma BlockedIsStuck(s: State, a: Action)
    requires Ok(s) && !s.cancelled && (AllFinished(s) || Blocked(s))
    ensures Enabled(s, a) ==> a == Cancel
  {
    if a.DetectorStep? && a.k < |s.detectors| {
      assert DetectorOk(s.detectors[a.k]);
    } else if a.NotifierStep? && a.j < |s.outputs| {
      assert OutputOk(s, a.j);
    }
  }

  /** Without cancellation a reachable state has no step left exactly when the
      daemon has finished or a dead notifier blocks it: draining at end of stream
      needs every notifier that gets events to be alive. */
  lemma StuckExactly(m: nat, n: nat, acts: seq<Action>)
    requires !Execute(Initial(m, n), acts).cancelled
    ensures var s := Execute(Initial(m, n), acts);
            Stuck(s) <==> AllFinished(s) || Blocked(s)
  {
    Invariants(m, n, acts);
    var s := Execute(Initial(m, n), acts);
    if AllFinished(s) || Blocked(s) {
      forall a | Enabled(s, a) ensures a == Cancel {
        BlockedIsStuck(s, a);
      }
    } else {
      var a := SomethingMoves(s);
    }
  }

  /** End-of-stream delivery under any scheduling: a run that was not cancelled, in
      which no notifier failed, and that cannot go on, has finished every
      goroutine and brought the emitted log to every notifier in order. With
      Daemon.RunsAreBounded every such run gets there. */
  lemma DrainDelivers(m: nat, n: nat, acts: seq<Action>)
    requires var s := Execute(Initial(m, n), acts);
             !s.cancelled && Stuck(s) && forall j :: 0 <= j < |s.outputs| ==> s.outputs[j].notifier != Failed
    ensures var s := Execute(Initial(m, n), acts);
            && AllFinished(s) && |s.outputs| == n
            && forall j :: 0 <= j < n ==> s.outputs[j].received == Log(s)
  {
    Invariants(m, n, acts);
    StuckExactly(m, n, acts);
    var s := Execute(Initial(m, n), acts);
    forall j | 0 <= j < n ensures s.outputs[j].received == Log(s) {
      assert Exits(s.outputs[j]);
      EndOfStream(m, n, acts, j);
    }
  }

  /** Whether an uncancelled daemon that cannot go on has drained: exactly when no
      notifier failed to connect, or the coordinator never made a second edge for
      the dead one to block. */
  lemma DrainsExactly(m: nat, n: nat, acts: seq<Action>)
    requires var s := Execute(Initial(m, n), acts); !s.cancelled && Stuck(s)
    ensures var s := Execute(Initial(m, n), acts);
            AllFinished(s) <==> (forall j :: 0 <= j < |s.outputs| ==> s.outputs[j].notifier != Failed) || |Log(s)| <= 1
  {
    Invariants(m, n, acts);
    StuckExactly(m, n, acts);
    var s := Execute(Initial(m, n), acts);
    if AllFinished(s) {
      forall j | 0 <= j < |s.outputs| && s.outputs[j].notifier == Failed ensures |Log(s)| <= 1 {
        assert OutputOk(s, j);
        LockstepAt(s, j);
      }
    } else {
      LockstepAt(s, s.pc.next);
      assert OutputOk(s, s.pc.next);
    }
  }

  lemma EdgePair(on: Input, off: Input)
    requires Accepted(on) && Accepted(off) && on.ev.kind == RECORDING_ON && off.ev.kind == RECORDING_OFF
    requires on.ev.videoDevice == off.ev.videoDevice && on.ev.detector == off.ev.detector
    ensures RunAll([on]).log == [Notice(on)]
    ensures RunAll([on, off]).log == [Notice(on), Notice(off)]
  {
    var d := on.ev.videoDevice;
    StepAllSnoc(INITIAL, [], on);
    StepAllSnoc(INITIAL, [on], off);
    assert [] + [on] == [on] && [on] + [off] == [on, off];
    H.StepDetectors(INITIAL, on, d);
    H.StepDetectors(RunAll([on]), off, d);
    H.LogStep(INITIAL, on);
    H.LogStep(RunAll([on]), off);
  }

  ghost predicate Reachable(m: nat, n: nat, s: State) {
    exists acts :: Execute(Initial(m, n), acts) == s
  }

  lemma Initially(m: nat, n: nat)
    ensures Reachable(m, n, Initial(m, n))
  {
    assert Execute(Initial(m, n), []) == Initial(m, n);
  }

  lemma Then(m: nat, n: nat, s: State, a: Action)
    requires Reachable(m, n, s)
    ensures Reachable(m, n, Apply(s, a))
  {
    var acts :| Execute(Initial(m, n), acts) == s;
    assert (acts + [a])[..|acts|] == acts;
    assert Execute(Initial(m, n), acts + [a]) == Apply(s, a);
  }

  /** A running daemon with one detector and one notifier. */
  function Small(reader: ReaderPhase, cancelled: bool, pc: Pc, h: seq<Input>, reach: seq<nat>, o: Output): State {
    State(cancelled, [Detector(Waiting, reader, false, 0)], false, pc, h, reach, [o])
  }

  lemma Starts(ok: bool)
    ensures Reachable(1, 1, Small(Reading, false, Selecting, [], [],
                                  Output([], false, if ok then Running else Failed, [], [])))
  {
    var s := Initial(1, 1);
    Initially(1, 1);
    Then(1, 1, s, NotifierStep(0, Connect(ok)));
    Then(1, 1, Apply(s, NotifierStep(0, Connect(ok))), DetectorStep(0, Start(true)));
  }

  /** The reader sends an event that makes the edge e. */
  lemma Edges(ev: CameraEvent, q: QueryResult, e: CameraEvent, cancelled: bool, h: seq<Input>, reach: seq<nat>, o: Output)
    requires Reachable(1, 1, Small(Reading, cancelled, Selecting, h, reach, o))
    requires RunAll(h + [Input(ev, q)]).log == RunAll(h).log + [e]
    ensures Reachable(1, 1, Small(Reading, cancelled, Broadcasting(e, 0), h + [Input(ev, q)], reach + [0], o))
  {
    var s := Small(Reading, cancelled, Selecting, h, reach, o);
    Then(1, 1, s, DetectorStep(0, ReadRecord(ev)));
    var t := Small(Sending(ev), cancelled, Selecting, h, reach, o);
    assert Apply(s, DetectorStep(0, ReadRecord(ev))) == t;
    Then(1, 1, t, Take(0, q));
    assert Apply(t, Take(0, q)) == Small(Reading, cancelled, Broadcasting(e, 0), h + [Input(ev, q)], reach + [0], o);
  }

  lemma Sends(e: CameraEvent, cancelled: bool, h: seq<Input>, reach: seq<nat>, o: Output)
    requires Reachable(1, 1, Small(Reading, cancelled, Broadcasting(e, 0), h, reach, o)) && o.buf == [] && reach != []
    ensures Reachable(1, 1, Small(Reading, cancelled, Selecting, h, reach[|reach| - 1 := 1],
                                  o.(buf := [e], sent := o.sent + [e])))
  {
    var s := Small(Reading, cancelled, Broadcasting(e, 0), h, reach, o);
    Then(1, 1, s, CoordinatorStep(Send));
    var t := Small(Reading, cancelled, Broadcasting(e, 1), h, reach[|reach| - 1 := 1], o.(buf := [e], sent := o.sent + [e]));
    assert o.buf + [e] == [e];
    assert Apply(s, CoordinatorStep(Send)) == t;
    Then(1, 1, t, CoordinatorStep(EndBroadcast));
    assert Apply(t, CoordinatorStep(EndBroadcast)) == t.(pc := Selecting);
  }

  lemma Abandons(e: CameraEvent, h: seq<Input>, reach: seq<nat>, o: Output)
    requires Reachable(1, 1, Small(Reading, false, Broadcasting(e, 0), h, reach, o))
    ensures Reachable(1, 1, Small(Reading, true, Selecting, h, reach, o))
  {
    var s := Small(Reading, false, Broadcasting(e, 0), h, reach, o);
    Then(1, 1, s, Cancel);
    var t := Small(Reading, true, Broadcasting(e, 0), h, reach, o);
    assert Apply(s, Cancel) == t;
    Then(1, 1, t, CoordinatorStep(Abandon));
    assert Apply(t, CoordinatorStep(Abandon)) == t.(pc := Selecting);
  }

  /** The blocked state is reachable: with a notifier that cannot connect, the
      second edge of any device blocks the coordinator for good. */
  lemma DeadNotifierBlocks(on: CameraEvent, off: CameraEvent, q: QueryResult) returns (s: State)
    requires Accepted(Input(on, q)) && on.kind == RECORDING_ON && off == on.(kind := RECORDING_OFF)
    ensures Reachable(1, 1, s) && !s.cancelled && Blocked(s) && s.pc.ev == Notice(Input(off, q))
  {
    var i, j := Input(on, q), Input(off, q);
    var o := Output([], false, Failed, [], []);
    var o' := o.(buf := [Notice(i)], sent := [Notice(i)]);
    EdgePair(i, j);
    assert [] + [i] == [i] && [i] + [j] == [i, j] && [] + [0] == [0] && [0][0 := 1] == [1];
    assert RunAll([]).log + [Notice(i)] == [Notice(i)] && [Notice(i)] + [Notice(j)] == [Notice(i), Notice(j)];
    Starts(false);
    Edges(on, q, Notice(i), false, [], [], o);
    Sends(Notice(i), false, [i], [0], o);
    assert o.sent + [Notice(i)] == o'.sent;
    Edges(off, q, Notice(j), false, [i], [1], o');
    s := Small(Reading, false, Broadcasting(Notice(j), 0), [i, j], [1] + [0], o');
    Then(1, 1, s, DetectorStep(0, ReadRecord(on)));
    s := Apply(s, DetectorStep(0, ReadRecord(on)));
    assert s.detectors[0].run != Finished;
  }

  // --- Alternation at an output ---

  /** The events of d before the k-th that did not reach output j. */
  function Missed(log: seq<CameraEvent>, reach: seq<nat>, j: nat, d: string, k: nat): nat
    requires |log| == |reach| && k <= |log|
  {
    if k == 0 then 0 else
    Missed(log, reach, j, d, k - 1) + if log[k - 1].videoDevice == d && reach[k - 1] <= j then 1 else 0
  }

  /** Each event of d that reached output j comes after an even number that did not. */
  ghost predicate MissedInPairs(log: seq<CameraEvent>, reach: seq<nat>, j: nat, d: string)
    requires |log| == |reach|
  {
    forall k :: 0 <= k < |log| && log[k].videoDevice == d && reach[k] > j ==> Missed(log, reach, j, d, k) % 2 == 0
  }

  lemma {:induction false} MissedPrefix(
      p: seq<CameraEvent>, e: CameraEvent, q: seq<nat>, r: nat, j: nat, d: string, k: nat)
    requires |p| == |q| && k <= |p|
    ensures Missed(p + [e], q + [r], j, d, k) == Missed(p, q, j, d, k)
  {
    if k > 0 {
      MissedPrefix(p, e, q, r, j, d, k - 1);
    }
  }

  lemma PairsSnoc(p: seq<CameraEvent>, e: CameraEvent, q: seq<nat>, r: nat, j: nat, d: string)
    requires |p| == |q|
    ensures MissedInPairs(p + [e], q + [r], j, d) <==>
            MissedInPairs(p, q, j, d) && (e.videoDevice == d && r > j ==> Missed(p, q, j, d, |p|) % 2 == 0)
  {
    var log, reach := p + [e], q + [r];
    forall k | 0 <= k <= |p| ensures Missed(log, reach, j, d, k) == Missed(p, q, j, d, k) {
      MissedPrefix(p, e, q, r, j, d, k);
    }
    assert forall k :: 0 <= k < |p| ==> log[k] == p[k] && reach[k] == q[k];
    assert log[|p|] == e && reach[|p|] == r;
  }

  lemma ReachedEventsSnoc(p: seq<CameraEvent>, e: CameraEvent, q: seq<nat>, r: nat, j: nat, d: string)
    requires |p| == |q|
    ensures H.EventsOf(Reached(p + [e], q + [r], j), d)
            == H.EventsOf(Reached(p, q, j), d) + if e.videoDevice == d && r > j then [e] else []
  {
    ReachedSnoc(p, e, q, r, j);
    if r > j {
      H.EventsOfSnoc(Reached(p, q, j), e, d);
    }
  }

  lemma MissedSnoc(p: seq<CameraEvent>, e: CameraEvent, q: seq<nat>, r: nat, j: nat, d: string)
    requires |p| == |q|
    ensures Missed(p + [e], q + [r], j, d, |p| + 1)
            == Missed(p, q, j, d, |p|) + if e.videoDevice == d && r <= j then 1 else 0
  {
    MissedPrefix(p, e, q, r, j, d, |p|);
  }

  lemma {:induction false} ReachedCount(log: seq<CameraEvent>, reach: seq<nat>, j: nat, d: string)
    requires |log| == |reach|
    ensures |H.EventsOf(log, d)| == |H.EventsOf(Reached(log, reach, j), d)| + Missed(log, reach, j, d, |log|)
  {
    if log != [] {
      var n := |log| - 1;
      var p, e, q, r := log[..n], log[n], reach[..n], reach[n];
      assert log == p + [e] && reach == q + [r];
      ReachedCount(p, q, j, d);
      H.EventsOfSnoc(p, e, d);
      ReachedEventsSnoc(p, e, q, r, j, d);
      MissedSnoc(p, e, q, r, j, d);
    }
  }

  /** b is the sequence a without `missed` of its events, and a goes on with e. */
  lemma AlternatesWithout(a: seq<CameraEvent>, b: seq<CameraEvent>, missed: nat, e: CameraEvent)
    requires |a| == |b| + missed && H.Alternates(a + [e])
    ensures H.Alternates(b + [e]) <==> H.Alternates(b) && missed % 2 == 0
  {
    H.AlternatesSnoc(a, e);
    H.AlternatesSnoc(b, e);
  }

  lemma AlternatesStep(p: seq<CameraEvent>, e: CameraEvent, q: seq<nat>, r: nat, j: nat, d: string)
    requires |p| == |q| && H.Alternates(H.EventsOf(p + [e], d))
    requires H.Alternates(H.EventsOf(Reached(p, q, j), d)) <==> MissedInPairs(p, q, j, d)
    ensures H.Alternates(H.EventsOf(Reached(p + [e], q + [r], j), d)) <==> MissedInPairs(p + [e], q + [r], j, d)
  {
    var b := H.EventsOf(Reached(p, q, j), d);
    PairsSnoc(p, e, q, r, j, d);
    ReachedEventsSnoc(p, e, q, r, j, d);
    if e.videoDevice == d && r > j {
      H.EventsOfSnoc(p, e, d);
      ReachedCount(p, q, j, d);
      AlternatesWithout(H.EventsOf(p, d), b, Missed(p, q, j, d, |p|), e);
    } else {
      assert b + [] == b;
    }
  }

  lemma PrefixAlternates(p: seq<CameraEvent>, e: CameraEvent, d: string)
    requires H.Alternates(H.EventsOf(p + [e], d))
    ensures H.Alternates(H.EventsOf(p, d))
  {
    H.EventsOfSnoc(p, e, d);
    H.AlternatesSnoc(H.EventsOf(p, d), e);
  }

  lemma {:induction false} ReachedAlternates(log: seq<CameraEvent>, reach: seq<nat>, j: nat, d: string)
    requires |log| == |reach| && H.Alternates(H.EventsOf(log, d))
    ensures H.Alternates(H.EventsOf(Reached(log, reach, j), d)) <==> MissedInPairs(log, reach, j, d)
  {
    if log != [] {
      var n := |log| - 1;
      assert log == log[..n] + [log[n]] && reach == reach[..n] + [reach[n]];
      PrefixAlternates(log[..n], log[n], d);
      ReachedAlternates(log[..n], reach[..n], j, d);
      AlternatesStep(log[..n], log[n], reach[..n], reach[n], j, d);
    }
  }

  /** For every run, cancelled or not: what output j was sent alternates for
      device d exactly when the broadcasts that stopped short of j took the
      events of d from it in pairs. */
  lemma AlternatesExactly(m: nat, n: nat, acts: seq<Action>, j: nat, d: string)
    requires j < n
    ensures var s := Execute(Initial(m, n), acts);
            && |s.outputs| == n && |s.reach| == |Log(s)|
            && (H.Alternates(H.EventsOf(s.outputs[j].sent, d)) <==> MissedInPairs(Log(s), s.reach, j, d))
  {
    var s := Execute(Initial(m, n), acts);
    Invariants(m, n, acts);
    H.Alternation(s.inputs, d);
    ReachedAlternates(Log(s), s.reach, j, d);
  }

  lemma {:induction false} NothingMissed(log: seq<CameraEvent>, reach: seq<nat>, j: nat, d: string, k: nat)
    requires |log| == |reach| && k <= |log| && forall i :: 0 <= i < k ==> reach[i] > j
    ensures Missed(log, reach, j, d, k) == 0
  {
    if k > 0 {
      NothingMissed(log, reach, j, d, k - 1);
    }
  }

  lemma AllReachedAlternates(log: seq<CameraEvent>, reach: seq<nat>, j: nat, d: string)
    requires |log| == |reach| && forall k :: 0 <= k < |log| - 1 ==> reach[k] > j
    ensures MissedInPairs(log, reach, j, d)
  {
    forall k | 0 <= k < |log| ensures Missed(log, reach, j, d, k) == 0 {
      NothingMissed(log, reach, j, d, k);
    }
  }

  /** Before cancellation every output alternates, for every device. */
  lemma AlternatesBeforeCancel(m: nat, n: nat, acts: seq<Action>, j: nat, d: string)
    requires j < n && !Execute(Initial(m, n), acts).cancelled
    ensures var s := Execute(Initial(m, n), acts);
            |s.outputs| == n && H.Alternates(H.EventsOf(s.outputs[j].sent, d))
  {
    var s := Execute(Initial(m, n), acts);
    Invariants(m, n, acts);
    AlternatesExactly(m, n, acts, j, d);
    AllReachedAlternates(Log(s), s.reach, j, d);
  }

  /** After cancellation an output need not alternate: here it is sent an OFF
      whose ON was abandoned. */
  lemma CancelCanOrphanOff(on: CameraEvent, off: CameraEvent, q: QueryResult) returns (s: State)
    requires Accepted(Input(on, q)) && on.kind == RECORDING_ON && off == on.(kind := RECORDING_OFF)
    ensures Reachable(1, 1, s) && |s.outputs| == 1 && s.outputs[0].sent == [Notice(Input(off, q))]
    ensures s.cancelled && s.outputs[0].notifier == Running && s.outputs[0].buf == s.outputs[0].sent
    ensures !H.Alternates(s.outputs[0].sent)
  {
    var i, j := Input(on, q), Input(off, q);
    var o := Output([], false, Running, [], []);
    EdgePair(i, j);
    assert [] + [i] == [i] && [i] + [j] == [i, j] && [] + [0] == [0];
    assert RunAll([]).log + [Notice(i)] == [Notice(i)] && [Notice(i)] + [Notice(j)] == [Notice(i), Notice(j)];
    Starts(true);
    Edges(on, q, Notice(i), false, [], [], o);
    Abandons(Notice(i), [i], [0], o);
    Edges(off, q, Notice(j), true, [i], [0], o);
    Sends(Notice(j), true, [i, j], [0] + [0], o);
    s := Small(Reading, true, Selecting, [i, j], ([0] + [0])[1 := 1], o.(buf := [Notice(j)], sent := o.sent + [Notice(j)]));
    assert s.outputs[0].sent[0].kind == RECORDING_OFF;
  }

  /** Cancellation does not stop a notifier by itself: in every reachable state one
      that runs and has an event in its channel may receive it next, or, once
      cancelled, return without it. */
  lemma NotifierMayReceive(m: nat, n: nat, acts: seq<Action>, j: nat)
    requires j < n
    requires var s := Execute(Initial(m, n), acts);
             |s.outputs| == n && s.outputs[j].notifier == Running && s.outputs[j].buf != []
    ensures var s := Execute(Initial(m, n), acts);
            var t := Apply(s, NotifierStep(j, Receive));
            && Enabled(s, NotifierStep(j, Receive)) && |t.outputs| == n
            && t.outputs[j].received == s.outputs[j].received + [s.outputs[j].buf[0]] && t.outputs[j].buf == []
            && t.outputs[j].received == t.outputs[j].sent == s.outputs[j].sent
            && (Enabled(s, NotifierStep(j, SeeCancelled)) <==> s.cancelled)
            && !Enabled(s, NotifierStep(j, SeeEnd))
  {
    Invariants(m, n, acts);
    var s := Execute(Initial(m, n), acts);
    assert OutputOk(s, j);
    assert s.outputs[j].buf == [s.outputs[j].buf[0]];
  }

  /** An event emitted after cancellation can still reach its notifier. */
  lemma CancelledNotifierReceives(on: CameraEvent, off: CameraEvent, q: QueryResult) returns (s: State)
    requires Accepted(Input(on, q)) && on.kind == RECORDING_ON && off == on.(kind := RECORDING_OFF)
    ensures Reachable(1, 1, s) && s.cancelled && |s.outputs| == 1 && s.outputs[0].received == [Notice(Input(off, q))]
  {
    var r := CancelCanOrphanOff(on, off, q);
    var acts :| Execute(Initial(1, 1), acts) == r;
    NotifierMayReceive(1, 1, acts, 0);
    Then(1, 1, r, NotifierStep(0, Receive));
    s := Apply(r, NotifierStep(0, Receive));
  }
}
