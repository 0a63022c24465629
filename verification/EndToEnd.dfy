/** What the layers promise together. */
module EndToEnd {
  import opened CoordinatorSpec
  import opened CoordinatorHistory
  import D = Daemon
  import P = Pipeline
  import L = PipelineLimits
  import A = AutolightSpec

  /** A notifier that returns without cancellation has been told the truth: for
      any scheduling, replaying what came through its channel yields exactly the
      devices for which some detector's last accepted event is an ON, and for
      each device what it received alternates from an ON. */
  lemma CleanExit(m: nat, n: nat, acts: seq<D.Action>, j: nat, d: string)
    requires j < n
    requires var s := D.Execute(D.Initial(m, n), acts);
             !s.cancelled && |s.outputs| == n && s.outputs[j].notifier == D.Returned
    ensures var s := D.Execute(D.Initial(m, n), acts);
            && (d in A.Replay(s.outputs[j].received) <==> SomeOn(s.inputs, d))
            && Alternates(EventsOf(s.outputs[j].received, d))
            && s.outputs[j].received == EdgeLog(s.inputs)
  {
    var s := D.Execute(D.Initial(m, n), acts);
    D.EndOfStream(m, n, acts, j);
    A.ReplicaIsActive(s.inputs);
    Refinement(s.inputs);
    Alternation(s.inputs, d);
  }

  /** Once the closed loop is at rest, autolight's replica of the coordinator's log
      shows a clean device exactly when it is a capture device with a recorded
      streaming PID; and for a capture device none of whose records was ever
      dropped, being clean is needed too. */
  lemma QuiescentTruth(c: P.Config, room: nat, budget: nat, acts: seq<P.Action>, d: string)
    requires P.Quiescent(P.Execute(c, P.Initial(room, budget), acts))
    ensures var s := P.Execute(c, P.Initial(room, budget), acts);
            var shown := d in A.Replay(RunAll(s.inputs).log);
            && (L.Clean(s, d) ==> (shown <==> d in s.kernel.pids && P.Capture(c, d)))
            && (P.Capture(c, d) && d !in s.dropped ==> ((shown <==> d in s.kernel.pids) <==> L.Clean(s, d)))
  {
    var s := P.Execute(c, P.Initial(room, budget), acts);
    A.ReplicaIsActive(s.inputs);
    if P.Capture(c, d) {
      L.AgreeExactly(c, room, budget, acts, d);
    } else {
      P.Invariants(c, room, budget, acts);
      P.OnlyCapture(c, s.inputs, d);
    }
  }
}
