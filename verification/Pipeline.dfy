/** The closed loop from the probes to the coordinator as one transition system.

    Each probe is two micro-steps, between which probes on other devices, closes
    of the same device by other processes, the reader and the coordinator may
    run. For each event it takes the coordinator opens and closes the device,
    which fires vb2_fop_release again under the coordinator's own PID, and only
    then decides. */
module Pipeline {
  import opened Events
  import opened Capability
  import opened CoordinatorSpec
  import opened CoordinatorHistory
  import opened TrackerSpec
  import opened Detector

  /** The coordinator's PID, and for each device the constant answer of its
      capability query. */
  datatype Config = Config(self: u32, answer: string -> QueryResult)

  predicate Capture(c: Config, d: string) {
    c.answer(d).Queried? && IsCapture(c.answer(d).capability)
  }

  /** The second half of a probe that has started on a device. */
  datatype Pending = WillRecord(pid: u32) | WillClear(pid: u32) | WillEmit(pid: u32)

  datatype State = State(
    kernel: Kernel<string>,
    probing: map<string, Pending>,
    held: Option<Record<string>>,      // read from the ring buffer, not yet sent
    querying: Option<Record<string>>,  // taken by the coordinator, not yet decided
    open: Option<string>,              // the device whose descriptor the query has open
    inputs: seq<Input>,                // history: decided by the coordinator, in order
    budget: nat,                       // probes that other processes will still fire
    // Histories. Devices whose last record, dropped or not, was an ON; whose last
    // record was dropped by a full ring buffer; one of whose records ever was;
    // whose last update found the map full; whose last record the filter took.
    tried: set<string>, lost: set<string>, dropped: set<string>,
    overflowed: set<string>, filtered: set<string>)

  datatype Action =
    | OnProbe(d: string, p: u32)
    | OffProbe(d: string, p: u32)
    | ReleaseProbe(d: string, p: u32)
    | SelfRelease(d: string)
    | FinishProbe(d: string)
    | Read
    | Discard
    | Take(fd: bool) // whether the query can open the device
    | Decide

  /** A probe fired by another process. */
  predicate External(a: Action) {
    a.OnProbe? || a.OffProbe? || a.ReleaseProbe?
  }

  function Initial(room: nat, budget: nat): State {
    State(Kernel(map[], [], room), map[], None, None, None, [], budget, {}, {}, {}, {}, {})
  }

  predicate Enabled(c: Config, s: State, a: Action) {
    match a
    case OnProbe(d, p) => s.budget > 0 && p != c.self && d !in s.probing
    case OffProbe(d, p) => s.budget > 0 && p != c.self && d !in s.probing
    case ReleaseProbe(d, p) =>
      s.budget > 0 && p != c.self && (Matches(s.kernel.pids, d, p) ==> d !in s.probing)
    case SelfRelease(d) => s.open == Some(d)
    case FinishProbe(d) => d in s.probing
    case Read => s.held.None? && s.kernel.ring != []
    case Discard => s.held.Some? && s.held.value.source == SOURCE_FOP_RELEASE
    case Take(fd) => s.held.Some? && s.querying.None? && (c.answer(s.held.value.name).Queried? ==> fd)
    case Decide => s.querying.Some? && s.open.None?
  }

  /** A record enters the ring buffer, or is dropped when it is full. */
  function Submit(s: State, r: Record<string>): State {
    var t := s.(kernel := Emit(s.kernel, r),
                tried := if r.kind == RECORDING_ON then s.tried + {r.name} else s.tried - {r.name});
    if |s.kernel.ring| < s.kernel.room
    then t.(lost := s.lost - {r.name}, filtered := s.filtered - {r.name})
    else t.(lost := s.lost + {r.name}, dropped := s.dropped + {r.name})
  }

  /** First half of a release: look up, compare and delete. */
  function BeginRelease(s: State, d: string, p: u32): State {
    if Matches(s.kernel.pids, d, p)
    then s.(kernel := s.kernel.(pids := s.kernel.pids - {d}), probing := s.probing[d := WillEmit(p)])
    else s
  }

  function Finish(s: State, d: string): State
    requires d in s.probing
  {
    var t := s.(probing := s.probing - {d});
    match s.probing[d]
    case WillRecord(p) =>
      t.(kernel := s.kernel.(pids := RecordPid(s.kernel.pids, d, p)),
         overflowed := if HasRoom(s.kernel.pids, d) then s.overflowed - {d} else s.overflowed + {d})
    case WillClear(_) =>
      t.(kernel := s.kernel.(pids := s.kernel.pids - {d}), overflowed := s.overflowed - {d})
    case WillEmit(p) =>
      Submit(t, Record(RECORDING_OFF, SOURCE_FOP_RELEASE, p, d))
  }

  function InputFor(c: Config, r: Record<string>): Input {
    Input(ToEvent(r), c.answer(r.name))
  }

  /** The step of an enabled action; a disabled one leaves the state alone. */
  function Apply(c: Config, s: State, a: Action): State {
    if !Enabled(c, s, a) then s else
    match a
    case OnProbe(d, p) =>
      Submit(s, Record(RECORDING_ON, SOURCE_IOCTL, p, d)).(
        probing := s.probing[d := WillRecord(p)], budget := s.budget - 1)
    case OffProbe(d, p) =>
      Submit(s, Record(RECORDING_OFF, SOURCE_IOCTL, p, d)).(
        probing := s.probing[d := WillClear(p)], budget := s.budget - 1)
    case ReleaseProbe(d, p) => BeginRelease(s, d, p).(budget := s.budget - 1)
    case SelfRelease(d) => BeginRelease(s, d, c.self).(open := None)
    case FinishProbe(d) => Finish(s, d)
    case Read => s.(held := Some(s.kernel.ring[0]), kernel := s.kernel.(ring := s.kernel.ring[1..]))
    case Discard =>
      var d := s.held.value.name;
      s.(held := None, filtered := if LastOf(s.kernel.ring, d).None? then s.filtered + {d} else s.filtered)
    case Take(fd) => s.(held := None, querying := s.held, open := if fd then Some(s.held.value.name) else s.open)
    case Decide => s.(querying := None, inputs := s.inputs + [InputFor(c, s.querying.value)])
  }

  function Execute(c: Config, s: State, acts: seq<Action>): State {
    if acts == [] then s else Apply(c, Execute(c, s, acts[..|acts| - 1]), acts[|acts| - 1])
  }

  /** Nothing is left to happen until another process fires a probe. */
  predicate Quiescent(s: State) {
    s.kernel.ring == [] && s.held.None? && s.querying.None? && s.open.None? && s.probing == map[]
  }

  // --- What is in flight ---

  function Opt<T>(o: Option<T>): seq<T> {
    if o.Some? then [o.value] else []
  }

  /** The undecided records: those the filter may still take away. */
  function Undecided(s: State): seq<Record<string>> {
    Opt(s.held) + s.kernel.ring
  }

  /** The kind of the last record for d. */
  function LastOf<D(==)>(q: seq<Record<D>>, d: D): Option<u32> {
    if q == [] then None
    else if q[|q| - 1].name == d then Some(q[|q| - 1].kind)
    else LastOf(q[..|q| - 1], d)
  }

  /** Whether d is on after these records, when it was on or not before them. */
  predicate After<D(==)>(q: seq<Record<D>>, on: bool, d: D) {
    if LastOf(q, d).Some? then LastOf(q, d).value == RECORDING_ON else on
  }

  /** Whether d is active once the query under way is decided, and once
      everything in flight is. */
  predicate Base(s: State, d: string) {
    After(Opt(s.querying), d in RunAll(s.inputs).active, d)
  }

  predicate WillBeOn(s: State, d: string) {
    After(Undecided(s), Base(s, d), d)
  }

  lemma LastOfSnoc<D>(q: seq<Record<D>>, r: Record<D>, d: D)
    ensures LastOf(q + [r], d) == if r.name == d then Some(r.kind) else LastOf(q, d)
  {
    assert (q + [r])[..|q|] == q;
  }

  lemma {:induction false} LastOfAppend<D>(p: seq<Record<D>>, q: seq<Record<D>>, d: D)
    ensures LastOf(p + q, d) == if LastOf(q, d).Some? then LastOf(q, d) else LastOf(p, d)
    decreases |q|
  {
    if q == [] {
      assert p + q == p;
    } else {
      var n := |q| - 1;
      assert p + q == (p + q[..n]) + [q[n]];
      LastOfAppend(p, q[..n], d);
      LastOfSnoc(p + q[..n], q[n], d);
    }
  }

  lemma AfterAppend<D>(p: seq<Record<D>>, q: seq<Record<D>>, on: bool, d: D)
    ensures After(p + q, on, d) == After(q, After(p, on, d), d)
  {
    LastOfAppend(p, q, d);
  }

  lemma AfterOne<D>(r: Record<D>, on: bool, d: D)
    ensures After([r], on, d) == if r.name == d then r.kind == RECORDING_ON else on
  {
    assert [r] == [] + [r];
    LastOfSnoc([], r, d);
  }

  predicate Proper(r: Record<string>) {
    && (r.kind == RECORDING_ON || r.kind == RECORDING_OFF)
    && (r.source == SOURCE_FOP_RELEASE ==> r.kind == RECORDING_OFF)
  }

  // --- Invariants ---

  /** The coordinator's PID is never in the map nor on its way there, and a
      release that has deleted its entry finds it still absent. */
  predicate Guarded(c: Config, s: State) {
    && (forall d :: d in s.kernel.pids ==> s.kernel.pids[d] != c.self)
    && (forall d :: d in s.probing && s.probing[d].WillRecord? ==> s.probing[d].pid != c.self)
    && (forall d :: d in s.probing && s.probing[d].WillEmit? ==> d !in s.kernel.pids)
  }

  /** An event of the eBPF reader with the device's answer. */
  predicate ReaderInput(c: Config, i: Input) {
    && i.ev.detector == DETECTOR_NAME && i.answer == c.answer(i.ev.videoDevice)
    && (i.ev.kind == RECORDING_ON || i.ev.kind == RECORDING_OFF)
  }

  predicate FromReader(c: Config, h: seq<Input>) {
    forall k :: 0 <= k < |h| ==> ReaderInput(c, h[k])
  }

  predicate Typed(c: Config, s: State) {
    && (s.querying.Some? ==> Proper(s.querying.value))
    && (s.held.Some? ==> Proper(s.held.value))
    && (forall k :: 0 <= k < |s.kernel.ring| ==> Proper(s.kernel.ring[k]))
    && FromReader(c, s.inputs)
  }

  /** The process map still shows d streaming, or is about to. */
  predicate Streaming(s: State, d: string) {
    if d in s.probing then s.probing[d].WillRecord? else d in s.kernel.pids
  }

  predicate Stopped(s: State, d: string) {
    if d in s.probing then s.probing[d].WillClear?
    else d !in s.kernel.pids && d !in s.overflowed
  }

  /** The map has d exactly when the last record tried for d was an ON whose
      update found room, but for the probe under way. */
  predicate MapTraced(s: State, d: string) {
    && (if d !in s.probing then d in s.kernel.pids <==> d in s.tried && d !in s.overflowed
        else match s.probing[d]
          case WillRecord(_) => d in s.tried
          case WillClear(_) => d !in s.tried
          case WillEmit(_) => d in s.tried && d !in s.overflowed)
    && (d in s.overflowed ==> d in s.tried || (d in s.probing && s.probing[d].WillClear?))
  }

  /** Each record of a release comes when its device is on. */
  predicate ReleasesWhenOn<D(==)>(q: seq<Record<D>>, on: bool, d: D) {
    q == [] ||
    var n := |q| - 1;
    && ReleasesWhenOn(q[..n], on, d)
    && (q[n].name == d && q[n].source == SOURCE_FOP_RELEASE ==> After(q[..n], on, d))
  }

  /** What the undecided records do to d, given how d stands before them and what
      became of its earlier records: unless its last record was dropped or
      filtered away, d will be on exactly when that was an ON; and a release
      filtered away, if no record was ever dropped, leaves d on. */
  predicate Traced<D(==)>(q: seq<Record<D>>, base: bool, d: D,
      tried: bool, lost: bool, dropped: bool, filtered: bool) {
    && (lost ==> dropped)
    && (!lost ==> if filtered then !tried else After(q, base, d) == tried)
    && (!dropped ==> ReleasesWhenOn(q, base, d) && (filtered ==> After(q, base, d)))
  }

  predicate RecordsTraced(s: State, d: string) {
    Traced(Undecided(s), Base(s, d), d, d in s.tried, d in s.lost, d in s.dropped, d in s.filtered)
  }

  lemma GuardedFinish(c: Config, s: State, d: string)
    requires Guarded(c, s) && d in s.probing
    ensures Guarded(c, Finish(s, d))
  {
  }

  lemma GuardedStep(c: Config, s: State, a: Action)
    requires Guarded(c, s)
    ensures Guarded(c, Apply(c, s, a))
  {
    if a.FinishProbe? && a.d in s.probing {
      GuardedFinish(c, s, a.d);
    }
  }

  lemma TypedSubmit(c: Config, s: State, r: Record<string>)
    requires Typed(c, s) && Proper(r)
    ensures Typed(c, Submit(s, r))
  {
  }

  lemma TypedProbe(c: Config, s: State, a: Action)
    requires Typed(c, s) && Enabled(c, s, a) && (External(a) || a.SelfRelease? || a.FinishProbe?)
    ensures Typed(c, Apply(c, s, a))
  {
    match a
    case OnProbe(d, p) => TypedSubmit(c, s, Record(RECORDING_ON, SOURCE_IOCTL, p, d));
    case OffProbe(d, p) => TypedSubmit(c, s, Record(RECORDING_OFF, SOURCE_IOCTL, p, d));
    case FinishProbe(d) =>
      if s.probing[d].WillEmit? {
        TypedSubmit(c, s, Record(RECORDING_OFF, SOURCE_FOP_RELEASE, s.probing[d].pid, d));
      }
    case _ =>
  }

  lemma TypedStep(c: Config, s: State, a: Action)
    requires Typed(c, s)
    ensures Typed(c, Apply(c, s, a))
  {
    if Enabled(c, s, a) && (External(a) || a.SelfRelease? || a.FinishProbe?) {
      TypedProbe(c, s, a);
    }
  }

  // --- Coupling of the process map with the coordinator ---

  /** Every entry of the coordinator's map is the eBPF detector's. */
  lemma SoleDetector(c: Config, h: seq<Input>, d: string, x: string)
    requires FromReader(c, h) && x in DetectorsOn(RunAll(h).active, d)
    ensures x == DETECTOR_NAME
  {
    ActiveIsLastOn(h, d, x);
  }

  /** A decided event of d settles whether d is active. */
  lemma DecideActive(c: Config, h: seq<Input>, i: Input, d: string)
    requires FromReader(c, h) && ReaderInput(c, i)
    ensures d in RunAll(h + [i]).active <==>
            if i.ev.videoDevice == d && Capture(c, d) then i.ev.kind == RECORDING_ON else d in RunAll(h).active
  {
    var s := RunAll(h);
    StepAllSnoc(INITIAL, h, i);
    NoEmptySet(h);
    NoEmptySet(h + [i]);
    StepDetectors(s, i, d);
    if i.ev.videoDevice == d && i.ev.kind == RECORDING_OFF {
      forall x | x in DetectorsOn(s.active, d) ensures x == DETECTOR_NAME {
        SoleDetector(c, h, d, x);
      }
    }
  }

  lemma MapTracedStep(c: Config, s: State, a: Action, d: string)
    requires Guarded(c, s) && MapTraced(s, d)
    ensures MapTraced(Apply(c, s, a), d)
  {
    if Enabled(c, s, a) && a.FinishProbe? {
      match s.probing[a.d]
      case WillRecord(_) =>
      case WillClear(_) =>
      case WillEmit(_) =>
    }
  }

  // What one step does to the undecided records, for Traced.

  lemma TracedSubmit<D>(q: seq<Record<D>>, r: Record<D>, base: bool, d: D,
      tried: bool, lost: bool, dropped: bool, filtered: bool)
    requires Traced(q, base, d, tried, lost, dropped, filtered)
    requires r.name == d && r.source == SOURCE_FOP_RELEASE ==> tried
    ensures if r.name == d then Traced(q + [r], base, d, r.kind == RECORDING_ON, false, dropped, false)
            else Traced(q + [r], base, d, tried, lost, dropped, filtered)
  {
    assert (q + [r])[..|q|] == q;
    LastOfSnoc(q, r, d);
  }

  lemma {:induction false} ReleasesMonotone<D>(q: seq<Record<D>>, d: D)
    requires ReleasesWhenOn(q, false, d)
    ensures ReleasesWhenOn(q, true, d)
  {
    if q != [] {
      ReleasesMonotone(q[..|q| - 1], d);
    }
  }

  lemma {:induction false} ReleasesCons<D>(r: Record<D>, q: seq<Record<D>>, base: bool, d: D)
    ensures ReleasesWhenOn([r] + q, base, d) <==>
            (r.name == d && r.source == SOURCE_FOP_RELEASE ==> base) && ReleasesWhenOn(q, After([r], base, d), d)
  {
    if q == [] {
      assert [r] + q == [r] && [r][..0] == [];
    } else {
      var n := |q| - 1;
      assert ([r] + q)[..n + 1] == [r] + q[..n] && ([r] + q)[n + 1] == q[n];
      ReleasesCons(r, q[..n], base, d);
      AfterAppend([r], q[..n], base, d);
    }
  }

  lemma TracedTake<D>(r: Record<D>, q: seq<Record<D>>, base: bool, d: D,
      tried: bool, lost: bool, dropped: bool, filtered: bool)
    requires Traced([r] + q, base, d, tried, lost, dropped, filtered)
    ensures Traced(q, After([r], base, d), d, tried, lost, dropped, filtered)
  {
    AfterAppend([r], q, base, d);
    ReleasesCons(r, q, base, d);
  }

  lemma TracedDiscard<D>(r: Record<D>, q: seq<Record<D>>, base: bool, d: D,
      tried: bool, lost: bool, dropped: bool, filtered: bool)
    requires Traced([r] + q, base, d, tried, lost, dropped, filtered)
    requires r.kind != RECORDING_ON && r.source == SOURCE_FOP_RELEASE
    ensures Traced(q, base, d, tried, lost, dropped, filtered || (r.name == d && LastOf(q, d).None?))
  {
    AfterAppend([r], q, base, d);
    AfterOne(r, base, d);
    ReleasesCons(r, q, base, d);
    if r.name == d && ReleasesWhenOn(q, false, d) {
      ReleasesMonotone(q, d);
    }
  }

  lemma SubmitTraced(s: State, r: Record<string>, d: string)
    requires RecordsTraced(s, d)
    requires r.name == d && r.source == SOURCE_FOP_RELEASE ==> d in s.tried
    ensures RecordsTraced(Submit(s, r), d)
  {
    var t := Submit(s, r);
    assert Base(t, d) == Base(s, d);
    if |s.kernel.ring| < s.kernel.room {
      assert Undecided(t) == Undecided(s) + [r];
      TracedSubmit(Undecided(s), r, Base(s, d), d, d in s.tried, d in s.lost, d in s.dropped, d in s.filtered);
    } else {
      assert Undecided(t) == Undecided(s);
    }
  }

  // What reading, taking, deciding and discarding do to the records in flight.

  lemma ReadFlight(c: Config, s: State, d: string)
    requires Enabled(c, s, Read)
    ensures var t := Apply(c, s, Read); Undecided(t) == Undecided(s) && Base(t, d) == Base(s, d)
  {
    assert s.kernel.ring == [s.kernel.ring[0]] + s.kernel.ring[1..];
  }

  lemma TakeFlight(c: Config, s: State, fd: bool, d: string)
    requires Enabled(c, s, Take(fd))
    ensures var t, r := Apply(c, s, Take(fd)), s.held.value;
            Undecided(s) == [r] + Undecided(t) && Base(t, d) == After([r], Base(s, d), d)
  {
    var t, r := Apply(c, s, Take(fd)), s.held.value;
    assert Opt(s.querying) == [] && Opt(t.querying) == [r] && Undecided(t) == s.kernel.ring;
  }

  lemma DecideFlight(c: Config, s: State, d: string)
    requires Typed(c, s) && Capture(c, d) && Enabled(c, s, Decide)
    ensures var t := Apply(c, s, Decide); Undecided(t) == Undecided(s) && Base(t, d) == Base(s, d)
  {
    var r := s.querying.value;
    AfterOne(r, d in RunAll(s.inputs).active, d);
    DecideActive(c, s.inputs, InputFor(c, r), d);
  }

  lemma DiscardFlight(c: Config, s: State, d: string)
    requires Enabled(c, s, Discard)
    ensures var t := Apply(c, s, Discard);
            Undecided(s) == [s.held.value] + Undecided(t) && Undecided(t) == s.kernel.ring && Base(t, d) == Base(s, d)
  {
  }

  lemma DiscardTraced(c: Config, s: State, d: string)
    requires Typed(c, s) && RecordsTraced(s, d) && Enabled(c, s, Discard)
    ensures RecordsTraced(Apply(c, s, Discard), d)
  {
    DiscardFlight(c, s, d);
    TracedDiscard(s.held.value, s.kernel.ring, Base(s, d), d,
                  d in s.tried, d in s.lost, d in s.dropped, d in s.filtered);
  }

  lemma MoveTraced(c: Config, s: State, a: Action, d: string)
    requires Typed(c, s) && Capture(c, d) && RecordsTraced(s, d) && Enabled(c, s, a)
    requires a.Read? || a.Take? || a.Decide?
    ensures RecordsTraced(Apply(c, s, a), d)
  {
    match a
    case Read => ReadFlight(c, s, d);
    case Decide => DecideFlight(c, s, d);
    case Take(fd) =>
      TakeFlight(c, s, fd, d);
      TracedTake(s.held.value, Undecided(Apply(c, s, a)), Base(s, d), d,
                 d in s.tried, d in s.lost, d in s.dropped, d in s.filtered);
  }

  /** The invariant of the records reads neither the map nor the probes under way. */
  lemma RecordsAlone(s: State, t: State, d: string)
    requires RecordsTraced(s, d)
    requires t.kernel.ring == s.kernel.ring && t.held == s.held && t.querying == s.querying && t.inputs == s.inputs
    requires t.tried == s.tried && t.lost == s.lost && t.dropped == s.dropped && t.filtered == s.filtered
    ensures RecordsTraced(t, d)
  {
    assert Undecided(t) == Undecided(s) && Base(t, d) == Base(s, d);
  }

  lemma SubmitsTraced(s: State, r: Record<string>, w: Pending, d: string)
    requires RecordsTraced(s, d) && r.source == SOURCE_IOCTL && s.budget > 0
    ensures RecordsTraced(Submit(s, r).(probing := s.probing[r.name := w], budget := s.budget - 1), d)
  {
    SubmitTraced(s, r, d);
    RecordsAlone(Submit(s, r), Submit(s, r).(probing := s.probing[r.name := w], budget := s.budget - 1), d);
  }

  lemma ReleasesTraced(c: Config, s: State, a: Action, d: string)
    requires RecordsTraced(s, d) && Enabled(c, s, a) && (a.ReleaseProbe? || a.SelfRelease?)
    ensures RecordsTraced(Apply(c, s, a), d)
  {
    RecordsAlone(s, Apply(c, s, a), d);
  }

  lemma ProbeTraced(c: Config, s: State, a: Action, d: string)
    requires RecordsTraced(s, d) && Enabled(c, s, a)
    requires External(a) || a.SelfRelease?
    ensures RecordsTraced(Apply(c, s, a), d)
  {
    match a
    case OnProbe(e, p) => SubmitsTraced(s, Record(RECORDING_ON, SOURCE_IOCTL, p, e), WillRecord(p), d);
    case OffProbe(e, p) => SubmitsTraced(s, Record(RECORDING_OFF, SOURCE_IOCTL, p, e), WillClear(p), d);
    case _ => ReleasesTraced(c, s, a, d);
  }

  lemma FinishTraced(s: State, e: string, d: string)
    requires MapTraced(s, d) && RecordsTraced(s, d) && e in s.probing
    ensures RecordsTraced(Finish(s, e), d)
  {
    var t := s.(probing := s.probing - {e});
    RecordsAlone(s, t, d);
    if s.probing[e].WillEmit? {
      SubmitTraced(t, Record(RECORDING_OFF, SOURCE_FOP_RELEASE, s.probing[e].pid, e), d);
    } else {
      RecordsAlone(t, Finish(s, e), d);
    }
  }

  lemma RecordsTracedStep(c: Config, s: State, a: Action, d: string)
    requires Typed(c, s) && Capture(c, d) && MapTraced(s, d) && RecordsTraced(s, d)
    ensures RecordsTraced(Apply(c, s, a), d)
  {
    if Enabled(c, s, a) {
      match a
      case FinishProbe(e) => FinishTraced(s, e, d);
      case Read => MoveTraced(c, s, a, d);
      case Take(_) => MoveTraced(c, s, a, d);
      case Decide => MoveTraced(c, s, a, d);
      case Discard => DiscardTraced(c, s, d);
      case _ => ProbeTraced(c, s, a, d);
    }
  }

  /** The invariants: of the map for every device, of the records for every
      capture device. */
  ghost predicate Sound(c: Config, s: State) {
    && Guarded(c, s) && Typed(c, s)
    && (forall d :: MapTraced(s, d))
    && (forall d :: Capture(c, d) ==> RecordsTraced(s, d))
  }

  lemma SoundStep(c: Config, s: State, a: Action)
    requires Sound(c, s)
    ensures Sound(c, Apply(c, s, a))
  {
    var t := Apply(c, s, a);
    GuardedStep(c, s, a);
    TypedStep(c, s, a);
    forall d ensures MapTraced(t, d) {
      MapTracedStep(c, s, a, d);
    }
    forall d | Capture(c, d) ensures RecordsTraced(t, d) {
      assert MapTraced(s, d) && RecordsTraced(s, d);
      RecordsTracedStep(c, s, a, d);
    }
  }

  lemma InitialSound(c: Config, room: nat, budget: nat)
    ensures Sound(c, Initial(room, budget))
  {
  }

  /** The invariants hold in every reachable state. */
  lemma {:induction false} Invariants(c: Config, room: nat, budget: nat, acts: seq<Action>)
    ensures Sound(c, Execute(c, Initial(room, budget), acts))
  {
    if acts == [] {
      InitialSound(c, room, budget);
    } else {
      Invariants(c, room, budget, acts[..|acts| - 1]);
      SoundStep(c, Execute(c, Initial(room, budget), acts[..|acts| - 1]), acts[|acts| - 1]);
    }
  }

  /** The records that the reader's filter lets through, for these answers. */
  function Survivors(q: seq<Record<string>>, live: seq<Liveness>): seq<Record<string>>
    requires |q| == |live|
  {
    if q == [] then [] else
    var n := |q| - 1;
    if Passes(q[n], live[n]) then Survivors(q[..n], live[..n]) + [q[n]] else Survivors(q[..n], live[..n])
  }

  function DecideAll(c: Config, h: seq<Input>, q: seq<Record<string>>): seq<Input> {
    if q == [] then h else DecideAll(c, h, q[..|q| - 1]) + [InputFor(c, q[|q| - 1])]
  }

  function Kept(s: State, live: seq<Liveness>): seq<Record<string>>
    requires |live| == |Undecided(s)|
  {
    Opt(s.querying) + Survivors(Undecided(s), live)
  }

  /** The coordinator's map once it has decided everything in flight, when the
      liveness checks of the undecided records answer `live`. */
  function Drained(c: Config, s: State, live: seq<Liveness>): map<string, set<string>>
    requires |live| == |Undecided(s)|
  {
    RunAll(DecideAll(c, s.inputs, Kept(s, live))).active
  }

  lemma {:induction false} DecideAllActive(c: Config, h: seq<Input>, q: seq<Record<string>>, d: string)
    requires FromReader(c, h) && forall k :: 0 <= k < |q| ==> Proper(q[k])
    ensures FromReader(c, DecideAll(c, h, q))
    ensures d in RunAll(DecideAll(c, h, q)).active <==>
            if Capture(c, d) && LastOf(q, d).Some? then LastOf(q, d).value == RECORDING_ON
            else d in RunAll(h).active
  {
    if q != [] {
      var n := |q| - 1;
      DecideAllActive(c, h, q[..n], d);
      DecideActive(c, DecideAll(c, h, q[..n]), InputFor(c, q[n]), d);
    }
  }

  /** The filter can only take OFFs away. */
  lemma {:induction false} SurvivorsLast(q: seq<Record<string>>, live: seq<Liveness>, d: string)
    requires |q| == |live| && forall k :: 0 <= k < |q| ==> Proper(q[k])
    ensures forall k :: 0 <= k < |Survivors(q, live)| ==> Proper(Survivors(q, live)[k])
    ensures LastOf(q, d) == Some(RECORDING_ON) ==> LastOf(Survivors(q, live), d) == Some(RECORDING_ON)
    ensures LastOf(q, d).None? ==> LastOf(Survivors(q, live), d).None?
    ensures (forall k :: 0 <= k < |q| ==> Passes(q[k], live[k])) ==> Survivors(q, live) == q
  {
    if q != [] {
      var n := |q| - 1;
      SurvivorsLast(q[..n], live[..n], d);
      LastOfSnoc(Survivors(q[..n], live[..n]), q[n], d);
    }
  }

  lemma {:induction false} OnlyCapture(c: Config, h: seq<Input>, d: string)
    requires FromReader(c, h) && !Capture(c, d)
    ensures d !in RunAll(h).active
  {
    if h != [] {
      var p, i := h[..|h| - 1], h[|h| - 1];
      OnlyCapture(c, p, d);
      StepDetectors(RunAll(p), i, d);
      NoEmptySet(h);
    }
  }

  lemma UndecidedProper(c: Config, s: State)
    requires Typed(c, s)
    ensures forall k :: 0 <= k < |Undecided(s)| ==> Proper(Undecided(s)[k])
  {
  }

  lemma KeptProper(c: Config, s: State, live: seq<Liveness>)
    requires Typed(c, s) && |live| == |Undecided(s)|
    ensures forall k :: 0 <= k < |Kept(s, live)| ==> Proper(Kept(s, live)[k])
  {
    UndecidedProper(c, s);
    SurvivorsLast(Undecided(s), live, "");
  }

  lemma DrainedIsWillBeOn(c: Config, s: State, live: seq<Liveness>, d: string)
    requires Typed(c, s) && Capture(c, d) && |live| == |Undecided(s)|
    ensures WillBeOn(s, d) ==> d in Drained(c, s, live)
    ensures (forall k :: 0 <= k < |live| ==> Passes(Undecided(s)[k], live[k]))
            ==> (d in Drained(c, s, live) <==> WillBeOn(s, d))
  {
    var on := d in RunAll(s.inputs).active;
    KeptProper(c, s, live);
    DecideAllActive(c, s.inputs, Kept(s, live), d);
    AfterAppend(Opt(s.querying), Survivors(Undecided(s), live), on, d);
    UndecidedProper(c, s);
    SurvivorsLast(Undecided(s), live, d);
  }

  lemma DrainedIsCapture(c: Config, s: State, live: seq<Liveness>, d: string)
    requires Typed(c, s) && !Capture(c, d) && |live| == |Undecided(s)|
    ensures d !in Drained(c, s, live)
  {
    KeptProper(c, s, live);
    DecideAllActive(c, s.inputs, Kept(s, live), d);
    OnlyCapture(c, s.inputs, d);
  }

  lemma AllPass(q: seq<Record<string>>, live: seq<Liveness>)
    requires |q| == |live|
    ensures (forall k :: 0 <= k < |live| ==> q[k].source == 2 ==> live[k] == NoSuchProcess)
            <==> forall k :: 0 <= k < |live| ==> Passes(q[k], live[k])
  {
  }

  /** Coupling, in every reachable state and for every later answer of the
      liveness checks: a capture device whose streaming PID is or is about to be
      recorded ends up active, unless its last record was dropped. If moreover
      the process of every release in flight is found gone and its last update
      found room, a device with no PID ends up inactive. No other device is ever active. */
  lemma {:induction false} Coupling(c: Config, room: nat, budget: nat, acts: seq<Action>, live: seq<Liveness>, d: string)
    requires var s := Execute(c, Initial(room, budget), acts);
             |live| == |Undecided(s)|
    ensures var s := Execute(c, Initial(room, budget), acts);
            && (Capture(c, d) && d !in s.lost && Streaming(s, d) ==> d in Drained(c, s, live))
            && (d !in s.lost && d !in s.filtered && Stopped(s, d)
                && (forall k :: 0 <= k < |live| ==> Undecided(s)[k].source == 2 ==> live[k] == NoSuchProcess)
                ==> d !in Drained(c, s, live))
            && (!Capture(c, d) ==> d !in Drained(c, s, live))
  {
    Invariants(c, room, budget, acts);
    var s := Execute(c, Initial(room, budget), acts);
    if Capture(c, d) {
      assert MapTraced(s, d) && RecordsTraced(s, d);
      AllPass(Undecided(s), live);
      DrainedIsWillBeOn(c, s, live, d);
    } else {
      DrainedIsCapture(c, s, live, d);
    }
  }

  // --- Quiescence ---

  /** Each unread record, started probe and remaining probe weighs more than all
      it can still cause. */
  function Measure(s: State): nat {
    10 * s.budget + 5 * |s.probing| + 4 * |s.kernel.ring| + 3 * |Opt(s.held)| + |Opt(s.querying)| + |Opt(s.open)|
  }

  lemma MapSizes<V>(m: map<string, V>, d: string, v: V)
    ensures |m[d := v]| == if d in m then |m| else |m| + 1
    ensures |m - {d}| == if d in m then |m| - 1 else |m|
  {
    assert m[d := v].Keys == m.Keys + {d};
    assert (m - {d}).Keys == m.Keys - {d};
    assert |m| == |m.Keys| && |m[d := v]| == |m[d := v].Keys| && |m - {d}| == |(m - {d}).Keys|;
  }

  lemma ReleaseDecreases(s: State, d: string, p: u32)
    requires Matches(s.kernel.pids, d, p) ==> d !in s.probing
    ensures Measure(BeginRelease(s, d, p)) == Measure(s) + if Matches(s.kernel.pids, d, p) then 5 else 0
  {
    MapSizes(s.probing, d, WillEmit(p));
  }

  lemma FinishDecreases(s: State, d: string)
    requires d in s.probing
    ensures Measure(Finish(s, d)) < Measure(s)
  {
    MapSizes(s.probing, d, s.probing[d]);
  }

  lemma ProbeDecreases(s: State, r: Record<string>, w: Pending)
    requires s.budget > 0 && r.name !in s.probing
    ensures Measure(Submit(s, r).(probing := s.probing[r.name := w], budget := s.budget - 1)) < Measure(s)
  {
    MapSizes(s.probing, r.name, w);
  }

  lemma MoveDecreases(c: Config, s: State, a: Action)
    requires Enabled(c, s, a) && (a.Read? || a.Discard? || a.Take? || a.Decide?)
    ensures Measure(Apply(c, s, a)) < Measure(s)
  {
  }

  lemma StepDecreases(c: Config, s: State, a: Action)
    requires Guarded(c, s) && Enabled(c, s, a)
    ensures Measure(Apply(c, s, a)) < Measure(s)
  {
    match a
    case OnProbe(d, p) => ProbeDecreases(s, Record(RECORDING_ON, SOURCE_IOCTL, p, d), WillRecord(p));
    case OffProbe(d, p) => ProbeDecreases(s, Record(RECORDING_OFF, SOURCE_IOCTL, p, d), WillClear(p));
    case ReleaseProbe(d, p) => ReleaseDecreases(s, d, p);
    case SelfRelease(d) =>
      assert !Matches(s.kernel.pids, d, c.self);
    case FinishProbe(d) => FinishDecreases(s, d);
    case _ => MoveDecreases(c, s, a);
  }

  predicate AllEnabled(c: Config, s: State, acts: seq<Action>) {
    acts == [] || (AllEnabled(c, s, acts[..|acts| - 1])
                   && Enabled(c, Execute(c, s, acts[..|acts| - 1]), acts[|acts| - 1]))
  }

  lemma {:induction false} GuardedRun(c: Config, s: State, acts: seq<Action>)
    requires Guarded(c, s)
    ensures Guarded(c, Execute(c, s, acts))
  {
    if acts != [] {
      GuardedRun(c, s, acts[..|acts| - 1]);
      GuardedStep(c, Execute(c, s, acts[..|acts| - 1]), acts[|acts| - 1]);
    }
  }

  /** From any guarded state, every step of a run uses up some of the measure. */
  lemma {:induction false} RunsDecrease(c: Config, s: State, acts: seq<Action>)
    requires Guarded(c, s) && AllEnabled(c, s, acts)
    ensures |acts| + Measure(Execute(c, s, acts)) <= Measure(s)
  {
    if acts != [] {
      var p := acts[..|acts| - 1];
      RunsDecrease(c, s, p);
      GuardedRun(c, s, p);
      StepDecreases(c, Execute(c, s, p), acts[|acts| - 1]);
    }
  }

  lemma InternalStep(c: Config, s: State) returns (a: Action)
    requires !Quiescent(s)
    ensures Enabled(c, s, a) && !External(a)
  {
    if s.probing.Keys != {} {
      var d :| d in s.probing.Keys;
      a := FinishProbe(d);
    } else if s.open.Some? {
      a := SelfRelease(s.open.value);
    } else if s.querying.Some? {
      a := Decide;
    } else if s.held.Some? {
      a := Take(true);
    } else {
      assert s.probing == map[];
      a := Read;
    }
  }

  /** The loop through the coordinator's own releases is finite: when other
      processes fire n probes, every run has at most 10 n steps, and a run that
      cannot go on without another probe has drained everything. */
  lemma Quiescence(c: Config, room: nat, budget: nat, acts: seq<Action>)
    requires AllEnabled(c, Initial(room, budget), acts)
    ensures |acts| <= 10 * budget
    ensures var s := Execute(c, Initial(room, budget), acts);
            (forall a | Enabled(c, s, a) :: External(a)) <==> Quiescent(s)
  {
    RunsDecrease(c, Initial(room, budget), acts);
    var s := Execute(c, Initial(room, budget), acts);
    if !Quiescent(s) {
      var a := InternalStep(c, s);
    }
  }

  // --- Independence ---

  predicate ByProbe(a: Action) {
    External(a) || a.FinishProbe?
  }

  predicate ByReader(a: Action) {
    a.Read? || a.Discard?
  }

  predicate ByCoordinator(a: Action) {
    a.SelfRelease? || a.Decide?
  }

  lemma ProbesLeaveReader(c: Config, s: State, a: Action)
    requires ByProbe(a)
    ensures var t := Apply(c, s, a);
            && t.held == s.held && t.querying == s.querying && t.open == s.open
            && |t.kernel.ring| >= |s.kernel.ring|
  {
  }

  lemma OthersLeaveProbes(c: Config, s: State, a: Action)
    requires Guarded(c, s) && !ByProbe(a)
    ensures var t := Apply(c, s, a);
            t.probing == s.probing && t.kernel.pids == s.kernel.pids && t.budget == s.budget
  {
  }

  /** The probes, the reader and the coordinator wait for each other only where they
      meet: no step of one takes away a step of another, the reader's and the
      coordinator's give the probes none, and the probes give the coordinator none. */
  lemma Independent(c: Config, s: State, a: Action, b: Action)
    requires Guarded(c, s)
    ensures ByProbe(a) && b == Read && Enabled(c, s, b) ==> Enabled(c, Apply(c, s, a), b)
    ensures ByProbe(a) && (ByCoordinator(b) || b.Take? || b.Discard?) ==> Enabled(c, Apply(c, s, a), b) == Enabled(c, s, b)
    ensures (ByReader(a) || ByCoordinator(a) || a.Take?) && ByProbe(b) ==> Enabled(c, Apply(c, s, a), b) == Enabled(c, s, b)
    ensures ByReader(a) && ByCoordinator(b) ==> Enabled(c, Apply(c, s, a), b) == Enabled(c, s, b)
    ensures ByCoordinator(a) && ByReader(b) ==> Enabled(c, Apply(c, s, a), b) == Enabled(c, s, b)
  {
    if ByProbe(a) {
      ProbesLeaveReader(c, s, a);
    } else if ByProbe(b) {
      OthersLeaveProbes(c, s, a);
    }
  }

  // --- The query opens and closes what it takes ---

  /** How often the coordinator has closed d. */
  function Closes(acts: seq<Action>, d: string): nat {
    if acts == [] then 0 else Closes(acts[..|acts| - 1], d) + if acts[|acts| - 1] == SelfRelease(d) then 1 else 0
  }

  /** The k-th step takes a record of d. */
  predicate TakesAt(c: Config, s: State, acts: seq<Action>, k: nat, d: string) {
    && k < |acts| && acts[k].Take?
    && Execute(c, s, acts[..k]).held.Some? && Execute(c, s, acts[..k]).held.value.name == d
  }

  /** How often a record of d was taken with its device opened for the query. */
  function Opens(c: Config, s: State, acts: seq<Action>, d: string): nat {
    if acts == [] then 0 else
    var n := |acts| - 1;
    Opens(c, s, acts[..n], d) + if TakesAt(c, s, acts, n, d) && acts[n].fd then 1 else 0
  }

  /** The query that is under way. */
  predicate Queries(s: State) {
    s.open.Some? ==> s.querying.Some? && s.querying.value.name == s.open.value
  }

  lemma QueriesStep(c: Config, s: State, a: Action)
    requires Queries(s)
    ensures Queries(Apply(c, s, a))
  {
  }

  lemma {:induction false} QueriesRun(c: Config, room: nat, budget: nat, acts: seq<Action>)
    ensures Queries(Execute(c, Initial(room, budget), acts))
  {
    if acts != [] {
      var n := |acts| - 1;
      QueriesRun(c, room, budget, acts[..n]);
      QueriesStep(c, Execute(c, Initial(room, budget), acts[..n]), acts[n]);
    }
  }

  /** What an enabled step does to the open descriptor. */
  lemma OpenStep(c: Config, s: State, a: Action)
    requires Queries(s) && Enabled(c, s, a)
    ensures match a
      case Take(fd) => s.open.None? && Apply(c, s, a).open == if fd then Some(s.held.value.name) else None
      case SelfRelease(d) => s.open == Some(d) && Apply(c, s, a).open.None?
      case _ => Apply(c, s, a).open == s.open
  {
  }

  /** In every run, for every device: the coordinator has closed it exactly as often
      as it opened it to query a record taken, but for the descriptor still open. */
  lemma {:induction false} EachQueryCloses(c: Config, room: nat, budget: nat, acts: seq<Action>, d: string)
    requires AllEnabled(c, Initial(room, budget), acts)
    ensures var s0 := Initial(room, budget);
            Closes(acts, d) + (if Execute(c, s0, acts).open == Some(d) then 1 else 0) == Opens(c, s0, acts, d)
  {
    if acts != [] {
      var s0, n := Initial(room, budget), |acts| - 1;
      EachQueryCloses(c, room, budget, acts[..n], d);
      QueriesRun(c, room, budget, acts[..n]);
      OpenStep(c, Execute(c, s0, acts[..n]), acts[n]);
    }
  }

  /** A query that succeeds has opened its device: each record taken of a device
      with an answer is an opening of it. */
  lemma AnsweredOpens(c: Config, s: State, acts: seq<Action>, k: nat, d: string)
    requires TakesAt(c, s, acts, k, d) && c.answer(d).Queried? && Enabled(c, Execute(c, s, acts[..k]), acts[k])
    ensures acts[k].fd
  {
  }

  /** No other query starts or ends between these steps. */
  predicate SameQuery(acts: seq<Action>, j: nat, k: nat)
    requires k <= |acts|
  {
    forall i :: j < i < k ==> !acts[i].Take? && !acts[i].Decide?
  }

  /** The query that step j started is under way, and d's descriptor is open or closed. */
  predicate Traces(c: Config, s0: State, acts: seq<Action>, j: nat, d: string, open: bool) {
    && TakesAt(c, s0, acts, j, d) && SameQuery(acts, j, |acts|)
    && (open <==> acts[j].fd && forall i :: j < i < |acts| ==> acts[i] != SelfRelease(d))
  }

  lemma TracesSnoc(c: Config, s0: State, acts: seq<Action>, j: nat, d: string, open: bool)
    requires acts != [] && Traces(c, s0, acts[..|acts| - 1], j, d, open)
    requires var a := acts[|acts| - 1]; !a.Take? && !a.Decide?
    ensures Traces(c, s0, acts, j, d, open && acts[|acts| - 1] != SelfRelease(d))
  {
    var n := |acts| - 1;
    assert acts[..n][..j] == acts[..j];
    assert forall i :: 0 <= i < n ==> acts[..n][i] == acts[i];
  }

  lemma QueryingStep(c: Config, s: State, a: Action)
    requires Queries(s) && Enabled(c, s, a) && Apply(c, s, a).querying.Some? && !a.Take?
    ensures s.querying == Apply(c, s, a).querying && !a.Decide?
    ensures a.SelfRelease? ==> a.d == s.querying.value.name
  {
  }

  /** Where the query under way was started, and what it has done since. */
  lemma {:induction false} QueryTrace(c: Config, room: nat, budget: nat, acts: seq<Action>) returns (j: nat)
    requires AllEnabled(c, Initial(room, budget), acts)
    requires Execute(c, Initial(room, budget), acts).querying.Some?
    ensures var s := Execute(c, Initial(room, budget), acts);
            Traces(c, Initial(room, budget), acts, j, s.querying.value.name, s.open.Some?)
  {
    var s0, n := Initial(room, budget), |acts| - 1;
    var p := Execute(c, s0, acts[..n]);
    QueriesRun(c, room, budget, acts[..n]);
    OpenStep(c, p, acts[n]);
    if acts[n].Take? {
      j := n;
    } else {
      QueryingStep(c, p, acts[n]);
      j := QueryTrace(c, room, budget, acts[..n]);
      TracesSnoc(c, s0, acts, j, p.querying.value.name, p.open.Some?);
    }
  }

  /** When the coordinator can close d next, it opened d to query a record of d that
      it has taken and not yet decided, and has not closed d since. */
  lemma ReleaseInQuery(c: Config, room: nat, budget: nat, acts: seq<Action>, d: string) returns (j: nat)
    requires AllEnabled(c, Initial(room, budget), acts)
    requires Enabled(c, Execute(c, Initial(room, budget), acts), SelfRelease(d))
    ensures TakesAt(c, Initial(room, budget), acts, j, d) && acts[j].fd && SameQuery(acts, j, |acts|)
    ensures forall i :: j < i < |acts| ==> acts[i] != SelfRelease(d)
  {
    QueriesRun(c, room, budget, acts);
    j := QueryTrace(c, room, budget, acts);
  }

  /** When it can decide next, it has closed what it opened for that query. */
  lemma DecideAfterClose(c: Config, room: nat, budget: nat, acts: seq<Action>) returns (j: nat, i: nat)
    requires AllEnabled(c, Initial(room, budget), acts)
    requires Enabled(c, Execute(c, Initial(room, budget), acts), Decide)
    ensures var d := Execute(c, Initial(room, budget), acts).querying.value.name;
            && TakesAt(c, Initial(room, budget), acts, j, d) && SameQuery(acts, j, |acts|)
            && (acts[j].fd ==> j < i < |acts| && acts[i] == SelfRelease(d))
  {
    var d := Execute(c, Initial(room, budget), acts).querying.value.name;
    j := QueryTrace(c, room, budget, acts);
    i := j;
    if acts[j].fd {
      i :| j < i < |acts| && acts[i] == SelfRelease(d);
    }
  }

  /** The close fires the release probe under the coordinator's own PID: it leaves the
      state alone, but for the descriptor, exactly when the map does not have the
      coordinator streaming. */
  lemma SelfReleaseIsRelease(c: Config, s: State, d: string)
    requires s.open == Some(d) && d !in s.probing
    ensures Apply(c, Apply(c, s, SelfRelease(d)), FinishProbe(d)).kernel == Probe(s.kernel, Release(d, c.self))
    ensures Apply(c, s, SelfRelease(d)) == s.(open := None) <==> !(d in s.kernel.pids && s.kernel.pids[d] == c.self)
  {
  }

  // --- Non-interference ---

  /** The state without the descriptor that the query has open. */
  function Opened(s: State): State {
    s.(open := None)
  }

  /** The steps that this run takes, without the coordinator's releases. */
  function WithoutSelf(c: Config, s: State, acts: seq<Action>): seq<Action> {
    if acts == [] then [] else
    var p, a := acts[..|acts| - 1], acts[|acts| - 1];
    var rest := WithoutSelf(c, s, p);
    if a.SelfRelease? || !Enabled(c, Execute(c, s, p), a) then rest else rest + [a]
  }

  /** A run in which the coordinator's queries leave nothing to close. */
  function ExecuteOpen(c: Config, s: State, acts: seq<Action>): State {
    if acts == [] then s else Opened(Apply(c, ExecuteOpen(c, s, acts[..|acts| - 1]), acts[|acts| - 1]))
  }

  lemma SelfReleaseIsSilent(c: Config, s: State, d: string)
    requires Guarded(c, s)
    ensures Opened(Apply(c, s, SelfRelease(d))) == Opened(s)
  {
  }

  lemma OpenedCommutes(c: Config, s: State, a: Action)
    requires Enabled(c, s, a) && !a.SelfRelease?
    ensures Enabled(c, Opened(s), a) && Opened(Apply(c, Opened(s), a)) == Opened(Apply(c, s, a))
  {
    match a
    case ReleaseProbe(d, p) =>
    case FinishProbe(d) =>
    case _ =>
  }

  /** Erasing every release by the coordinator from a closed-loop run, one that
      overlaps a probe on its device included, leaves the map, the records, the
      decided events and all else the same. */
  lemma {:induction false} NonInterference(c: Config, s: State, acts: seq<Action>)
    requires Guarded(c, s)
    ensures ExecuteOpen(c, Opened(s), WithoutSelf(c, s, acts)) == Opened(Execute(c, s, acts))
  {
    if acts != [] {
      var p, a := acts[..|acts| - 1], acts[|acts| - 1];
      var t, w := Execute(c, s, p), WithoutSelf(c, s, p);
      NonInterference(c, s, p);
      GuardedRun(c, s, p);
      if a.SelfRelease? {
        SelfReleaseIsSilent(c, t, a.d);
      } else if Enabled(c, t, a) {
        assert (w + [a])[..|w|] == w;
        OpenedCommutes(c, t, a);
      }
    }
  }

  // --- The micro-steps against the probes ---

  /** A probe whose two halves run back to back does exactly what
      TrackerSpec.Probe does. */
  lemma ProbeIsTwoSteps(c: Config, s: State, op: Op<string>)
    requires s.budget > 0 && op.pid != c.self && op.device !in s.probing
    ensures var a := match op
              case StreamOn(d, p) => OnProbe(d, p)
              case StreamOff(d, p) => OffProbe(d, p)
              case Release(d, p) => ReleaseProbe(d, p);
            Apply(c, Apply(c, s, a), FinishProbe(op.device)).kernel == Probe(s.kernel, op)
  {
  }

  /** The probe whose effect on the map happens in this step. */
  function Effect(c: Config, s: State, a: Action): seq<Op<string>> {
    if !Enabled(c, s, a) then [] else
    match a
    case FinishProbe(d) =>
      (match s.probing[d]
       case WillRecord(p) => [StreamOn(d, p)]
       case WillClear(p) => [StreamOff(d, p)]
       case WillEmit(_) => [])
    case ReleaseProbe(d, p) => [Release(d, p)]
    case SelfRelease(d) => [Release(d, c.self)]
    case _ => []
  }

  function Effects(c: Config, s: State, acts: seq<Action>): seq<Op<string>> {
    if acts == [] then [] else
    Effects(c, s, acts[..|acts| - 1]) + Effect(c, Execute(c, s, acts[..|acts| - 1]), acts[|acts| - 1])
  }

  function ProbePids(pids: map<string, u32>, e: seq<Op<string>>): map<string, u32> {
    if e == [] then pids else Probe(Kernel(pids, [], 0), e[0]).pids
  }

  lemma FinishOnMap(c: Config, s: State, d: string)
    requires d in s.probing
    ensures Finish(s, d).kernel.pids == ProbePids(s.kernel.pids, Effect(c, s, FinishProbe(d)))
  {
  }

  lemma ReleaseOnMap(s: State, d: string, p: u32)
    ensures BeginRelease(s, d, p).kernel.pids == ProbePids(s.kernel.pids, [Release(d, p)])
  {
  }

  lemma EffectOnMap(c: Config, s: State, a: Action)
    ensures Apply(c, s, a).kernel.pids == ProbePids(s.kernel.pids, Effect(c, s, a))
  {
    if Enabled(c, s, a) {
      match a
      case FinishProbe(d) => FinishOnMap(c, s, d);
      case ReleaseProbe(d, p) => ReleaseOnMap(s, d, p);
      case SelfRelease(d) => ReleaseOnMap(s, d, c.self);
      case _ =>
    }
  }

  lemma EffectStep(c: Config, s: State, a: Action, h: seq<Op<string>>)
    requires s.kernel.pids == PidsAfter(h)
    ensures Apply(c, s, a).kernel.pids == PidsAfter(h + Effect(c, s, a))
  {
    var e := Effect(c, s, a);
    EffectOnMap(c, s, a);
    if e == [] {
      assert h + e == h;
    } else {
      assert e == [e[0]];
      PidsSnoc(h, e[0]);
    }
  }

  /** However the halves of the probes interleave, the map is the history of the
      probes in the order in which they touch it: d maps to p exactly when p made
      the last streamon on d, it found room, and nothing has ended it since. */
  lemma {:induction false} PidsAreHistory(c: Config, room: nat, budget: nat, acts: seq<Action>)
    ensures var s, h := Execute(c, Initial(room, budget), acts), Effects(c, Initial(room, budget), acts);
            && s.kernel.pids == PidsAfter(h) && |s.kernel.pids| <= MAP_ENTRIES
            && forall d, p :: Matches(s.kernel.pids, d, p) <==> Owner(h, d, p)
  {
    if acts != [] {
      var p := acts[..|acts| - 1];
      PidsAreHistory(c, room, budget, p);
      EffectStep(c, Execute(c, Initial(room, budget), p), acts[|acts| - 1], Effects(c, Initial(room, budget), p));
    }
    MapIsHistory(Effects(c, Initial(room, budget), acts));
  }
}
