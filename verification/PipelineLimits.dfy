/** Exactly when the coordinator's map and the process map agree with the loop at
    rest, and runs that end with the two apart. */
module PipelineLimits {
  import opened Events
  import opened CoordinatorSpec
  import opened CoordinatorHistory
  import opened TrackerSpec
  import opened Pipeline

  // --- The exact condition ---

  /** The coordinator has d active exactly when the process map has it. */
  predicate Agree(s: State, d: string) {
    d in RunAll(s.inputs).active <==> d in s.kernel.pids
  }

  /** The last record of d was delivered and not filtered away, and its last
      update of the map found room. */
  predicate Clean(s: State, d: string) {
    d !in s.lost && d !in s.filtered && d !in s.overflowed
  }

  /** The kind of the last event for d that the coordinator decided. */
  function LastDecided(h: seq<Input>, d: string): Option<u32> {
    if h == [] then None
    else if h[|h| - 1].ev.videoDevice == d then Some(h[|h| - 1].ev.kind)
    else LastDecided(h[..|h| - 1], d)
  }

  lemma {:induction false} ActiveIsLastDecided(c: Config, h: seq<Input>, d: string)
    requires FromReader(c, h) && Capture(c, d)
    ensures d in RunAll(h).active <==> LastDecided(h, d) == Some(RECORDING_ON)
  {
    if h != [] {
      var p, i := h[..|h| - 1], h[|h| - 1];
      assert h == p + [i];
      ActiveIsLastDecided(c, p, d);
      DecideActive(c, p, i, d);
    }
  }

  lemma RestTraced(s: State, d: string)
    requires Quiescent(s) && RecordsTraced(s, d)
    ensures Traced([], d in RunAll(s.inputs).active, d, d in s.tried, d in s.lost, d in s.dropped, d in s.filtered)
  {
    assert Undecided(s) == [] && Opt(s.querying) == [];
  }

  /** At rest, for every capture device. The maps agree exactly when the last
      record of the device that the coordinator got and the last that a probe
      tried to submit say the same, the latter recorded if it was an ON. So with
      its last record neither dropped nor filtered away, they agree exactly when
      its last update found room; and when no record of the device was ever
      dropped, exactly when it is clean. */
  lemma AgreeExactly(c: Config, room: nat, budget: nat, acts: seq<Action>, d: string)
    requires Capture(c, d) && Quiescent(Execute(c, Initial(room, budget), acts))
    ensures var s := Execute(c, Initial(room, budget), acts);
            && (Agree(s, d) <==>
                  (LastDecided(s.inputs, d) == Some(RECORDING_ON) <==> d in s.tried && d !in s.overflowed))
            && (d !in s.lost && d !in s.filtered ==> (Agree(s, d) <==> d !in s.overflowed))
            && (d !in s.dropped ==> (Agree(s, d) <==> Clean(s, d)))
  {
    Invariants(c, room, budget, acts);
    var s := Execute(c, Initial(room, budget), acts);
    assert MapTraced(s, d) && RecordsTraced(s, d);
    RestTraced(s, d);
    ActiveIsLastDecided(c, s.inputs, d);
  }

  // --- What the histories say of a run ---

  /** The step submits a record of d, dropped or not. */
  predicate Tries(c: Config, s: State, a: Action, d: string) {
    && Enabled(c, s, a)
    && match a
       case OnProbe(e, _) => e == d
       case OffProbe(e, _) => e == d
       case FinishProbe(e) => e == d && s.probing[d].WillEmit?
       case _ => false
  }

  /** The step records or clears the PID of d. */
  predicate Updates(s: State, a: Action, d: string) {
    a == FinishProbe(d) && d in s.probing && !s.probing[d].WillEmit?
  }

  /** The filter takes a record of d with no later one in the ring buffer. */
  predicate Filters(c: Config, s: State, a: Action, d: string) {
    && a == Discard && Enabled(c, s, a) && s.held.value.name == d
    && forall k :: 0 <= k < |s.kernel.ring| ==> s.kernel.ring[k].name != d
  }

  /** How one step changes the histories of d, on the state before it. */
  lemma HistoryStep(c: Config, s: State, a: Action, d: string)
    ensures var t, full := Apply(c, s, a), |s.kernel.ring| >= s.kernel.room;
            && (d in t.tried <==> if Tries(c, s, a, d) then a.OnProbe? else d in s.tried)
            && (d in t.lost <==> if Tries(c, s, a, d) then full else d in s.lost)
            && (d in t.dropped <==> (Tries(c, s, a, d) && full) || d in s.dropped)
            && (d in t.overflowed <==>
                  if Updates(s, a, d) then s.probing[d].WillRecord? && d !in s.kernel.pids && |s.kernel.pids| >= 64
                  else d in s.overflowed)
            && (d in t.filtered <==> if Tries(c, s, a, d) && !full then false
                                     else Filters(c, s, a, d) || d in s.filtered)
  {
    if a == Discard && Enabled(c, s, a) {
      NoLast(s.kernel.ring, d);
    }
  }

  lemma {:induction false} NoLast<D>(q: seq<Record<D>>, d: D)
    ensures LastOf(q, d).None? <==> forall k :: 0 <= k < |q| ==> q[k].name != d
  {
    if q != [] {
      NoLast(q[..|q| - 1], d);
    }
  }

  /** Some step before the n-th hits, and none since undoes it. */
  ghost predicate Since(n: nat, hits: nat -> bool, undoes: nat -> bool) {
    exists k: nat :: k < n && hits(k) && forall j: nat :: k < j < n ==> !undoes(j)
  }

  lemma SinceSnoc(n: nat, hits: nat -> bool, undoes: nat -> bool)
    ensures Since(n + 1, hits, undoes) <==> hits(n) || (Since(n, hits, undoes) && !undoes(n))
  {
    if Since(n, hits, undoes) && !undoes(n) {
      var k: nat :| k < n && hits(k) && forall j: nat :: k < j < n ==> !undoes(j);
      assert forall j: nat :: k < j < n + 1 ==> !undoes(j);
    }
    if Since(n + 1, hits, undoes) && !hits(n) {
      var k: nat :| k < n + 1 && hits(k) && forall j: nat :: k < j < n + 1 ==> !undoes(j);
      assert k < n && !undoes(n);
    }
  }

  lemma {:induction false} SinceIs(n: nat, b: nat -> bool, hits: nat -> bool, undoes: nat -> bool)
    requires !b(0) && forall i: nat :: i < n ==> (b(i + 1) <==> hits(i) || (b(i) && !undoes(i)))
    ensures b(n) <==> Since(n, hits, undoes)
  {
    if n > 0 {
      SinceIs(n - 1, b, hits, undoes);
      SinceSnoc(n - 1, hits, undoes);
    }
  }

  /** A run, and the state before its k-th step. */
  datatype Run = Run(c: Config, room: nat, budget: nat, acts: seq<Action>) {
    function At(k: nat): State {
      Execute(c, Initial(room, budget), if k <= |acts| then acts[..k] else acts)
    }

    function End(): State {
      Execute(c, Initial(room, budget), acts)
    }

    predicate TriesAt(d: string, k: nat) {
      k < |acts| && Tries(c, At(k), acts[k], d)
    }

    predicate FullAt(k: nat) {
      |At(k).kernel.ring| >= At(k).kernel.room
    }

    predicate UpdatesAt(d: string, k: nat) {
      k < |acts| && Updates(At(k), acts[k], d)
    }

    predicate MapFullAt(d: string, k: nat) {
      d !in At(k).kernel.pids && |At(k).kernel.pids| >= 64
    }

    predicate FiltersAt(d: string, k: nat) {
      k < |acts| && Filters(c, At(k), acts[k], d)
    }

    /** How step k changes the histories of d. */
    lemma Next(d: string, k: nat)
      requires k < |acts|
      ensures d in At(k + 1).tried <==> (TriesAt(d, k) && acts[k].OnProbe?) || (d in At(k).tried && !TriesAt(d, k))
      ensures d in At(k + 1).lost <==> (TriesAt(d, k) && FullAt(k)) || (d in At(k).lost && !TriesAt(d, k))
      ensures d in At(k + 1).dropped <==> (TriesAt(d, k) && FullAt(k)) || d in At(k).dropped
      ensures d in At(k + 1).overflowed <==>
              (UpdatesAt(d, k) && At(k).probing[d].WillRecord? && MapFullAt(d, k))
              || (d in At(k).overflowed && !UpdatesAt(d, k))
      ensures d in At(k + 1).filtered <==>
              FiltersAt(d, k) || (d in At(k).filtered && !(TriesAt(d, k) && !FullAt(k)))
    {
      assert acts[..k + 1][..k] == acts[..k];
      HistoryStep(c, At(k), acts[k], d);
    }

    lemma Whole()
      ensures At(|acts|) == End()
    {
      assert acts[..|acts|] == acts;
    }

    // The steps that submit a record of d; of those an ON, dropped, or delivered.
    function Tryings(d: string): nat -> bool {
      (k: nat) => TriesAt(d, k)
    }

    function Ons(d: string): nat -> bool {
      (k: nat) => TriesAt(d, k) && acts[k].OnProbe?
    }

    function Drops(d: string): nat -> bool {
      (k: nat) => TriesAt(d, k) && FullAt(k)
    }

    function Deliveries(d: string): nat -> bool {
      (k: nat) => TriesAt(d, k) && !FullAt(k)
    }

    // Those that filter the last record of d away, update its entry, or fail to.
    function Filterings(d: string): nat -> bool {
      (k: nat) => FiltersAt(d, k)
    }

    function Updatings(d: string): nat -> bool {
      (k: nat) => UpdatesAt(d, k)
    }

    function Overflows(d: string): nat -> bool {
      (k: nat) => UpdatesAt(d, k) && At(k).probing[d].WillRecord? && MapFullAt(d, k)
    }

    function Never(d: string): nat -> bool {
      (k: nat) => false
    }

    lemma TriedExactly(d: string)
      ensures d in End().tried <==> Since(|acts|, Ons(d), Tryings(d))
    {
      var b := (k: nat) => d in At(k).tried;
      forall k: nat | k < |acts| ensures b(k + 1) <==> Ons(d)(k) || (b(k) && !Tryings(d)(k)) {
        Next(d, k);
      }
      SinceIs(|acts|, b, Ons(d), Tryings(d));
      Whole();
    }

    lemma LostExactly(d: string)
      ensures d in End().lost <==> Since(|acts|, Drops(d), Tryings(d))
    {
      var b := (k: nat) => d in At(k).lost;
      forall k: nat | k < |acts| ensures b(k + 1) <==> Drops(d)(k) || (b(k) && !Tryings(d)(k)) {
        Next(d, k);
      }
      SinceIs(|acts|, b, Drops(d), Tryings(d));
      Whole();
    }

    lemma DroppedExactly(d: string)
      ensures d in End().dropped <==> Since(|acts|, Drops(d), Never(d))
    {
      var b := (k: nat) => d in At(k).dropped;
      forall k: nat | k < |acts| ensures b(k + 1) <==> Drops(d)(k) || (b(k) && !Never(d)(k)) {
        Next(d, k);
      }
      SinceIs(|acts|, b, Drops(d), Never(d));
      Whole();
    }

    lemma OverflowedExactly(d: string)
      ensures d in End().overflowed <==> Since(|acts|, Overflows(d), Updatings(d))
    {
      var b := (k: nat) => d in At(k).overflowed;
      forall k: nat | k < |acts| ensures b(k + 1) <==> Overflows(d)(k) || (b(k) && !Updatings(d)(k)) {
        Next(d, k);
      }
      SinceIs(|acts|, b, Overflows(d), Updatings(d));
      Whole();
    }

    lemma FilteredExactly(d: string)
      ensures d in End().filtered <==> Since(|acts|, Filterings(d), Deliveries(d))
    {
      var b := (k: nat) => d in At(k).filtered;
      forall k: nat | k < |acts| ensures b(k + 1) <==> Filterings(d)(k) || (b(k) && !Deliveries(d)(k)) {
        Next(d, k);
      }
      SinceIs(|acts|, b, Filterings(d), Deliveries(d));
      Whole();
    }

    /** The histories say of every run: an ON was the last record tried; the last
        record tried was dropped; some record was; the last update found the map
        full; the filter took the last record since one was last delivered. */
    lemma HistoriesExactly(d: string)
      ensures d in End().tried <==> Since(|acts|, Ons(d), Tryings(d))
      ensures d in End().lost <==> Since(|acts|, Drops(d), Tryings(d))
      ensures d in End().dropped <==> exists k: nat :: k < |acts| && Drops(d)(k)
      ensures d in End().overflowed <==> Since(|acts|, Overflows(d), Updatings(d))
      ensures d in End().filtered <==> Since(|acts|, Filterings(d), Deliveries(d))
    {
      TriedExactly(d);
      LostExactly(d);
      DroppedExactly(d);
      OverflowedExactly(d);
      FilteredExactly(d);
    }

    /** So a device is clean exactly when no drop was the last try, no failed update
        the last one, and no record was delivered after the last one filtered. */
    lemma CleanExactly(d: string)
      ensures Clean(End(), d) <==>
              && !Since(|acts|, Drops(d), Tryings(d)) && !Since(|acts|, Overflows(d), Updatings(d))
              && !Since(|acts|, Filterings(d), Deliveries(d))
    {
      HistoriesExactly(d);
    }
  }

  // --- Runs ---

  ghost predicate Reachable(c: Config, room: nat, budget: nat, s: State) {
    exists acts :: Execute(c, Initial(room, budget), acts) == s
  }

  lemma Initially(c: Config, room: nat, budget: nat)
    ensures Reachable(c, room, budget, Initial(room, budget))
  {
    assert Execute(c, Initial(room, budget), []) == Initial(room, budget);
  }

  lemma Then(c: Config, room: nat, budget: nat, s: State, a: Action)
    requires Reachable(c, room, budget, s)
    ensures Reachable(c, room, budget, Apply(c, s, a))
  {
    var acts :| Execute(c, Initial(room, budget), acts) == s;
    assert (acts + [a])[..|acts|] == acts;
    assert Execute(c, Initial(room, budget), acts + [a]) == Apply(c, s, a);
  }

  lemma ReachableSound(c: Config, room: nat, budget: nat, s: State)
    requires Reachable(c, room, budget, s)
    ensures Sound(c, s)
  {
    var acts :| Execute(c, Initial(room, budget), acts) == s;
    Invariants(c, room, budget, acts);
  }

  /** s with nothing in flight, and h decided. */
  function AtRest(s: State, h: seq<Input>): State {
    s.(kernel := s.kernel.(ring := []), held := None, querying := None, open := None, inputs := h)
  }

  lemma StepKeepsWillBeOn(c: Config, s: State, a: Action, d: string)
    requires Typed(c, s) && Capture(c, d) && Enabled(c, s, a)
    requires a.SelfRelease? || a.Read? || a.Take? || a.Decide?
    ensures WillBeOn(Apply(c, s, a), d) == WillBeOn(s, d)
  {
    match a
    case Read => ReadFlight(c, s, d);
    case Decide => DecideFlight(c, s, d);
    case Take(fd) =>
      TakeFlight(c, s, fd, d);
      AfterAppend([s.held.value], Undecided(Apply(c, s, a)), Base(s, d), d);
    case SelfRelease(_) =>
  }

  lemma StepToRest(c: Config, s: State) returns (a: Action)
    requires Sound(c, s) && s.probing == map[] && !Quiescent(s)
    ensures var t := Apply(c, s, a);
            && Enabled(c, s, a) && t.probing == map[]
            && AtRest(t, []) == AtRest(s, [])
            && forall d :: Capture(c, d) ==> WillBeOn(t, d) == WillBeOn(s, d)
  {
    a := if s.open.Some? then SelfRelease(s.open.value) else if s.querying.Some? then Decide
         else if s.held.Some? then Take(true) else Read;
    var t := Apply(c, s, a);
    forall d | Capture(c, d) ensures WillBeOn(t, d) == WillBeOn(s, d) {
      StepKeepsWillBeOn(c, s, a, d);
    }
  }

  /** Without a new probe the loop comes to rest: the map and the histories stay,
      and each capture device is active exactly when it was going to be. */
  lemma {:induction false} ComesToRest(c: Config, room: nat, budget: nat, s: State) returns (t: State)
    requires Reachable(c, room, budget, s) && s.probing == map[]
    ensures Reachable(c, room, budget, t) && Quiescent(t) && t == AtRest(s, t.inputs)
    ensures forall d :: Capture(c, d) ==> (d in RunAll(t.inputs).active <==> WillBeOn(s, d))
    decreases Measure(s)
  {
    ReachableSound(c, room, budget, s);
    if Quiescent(s) {
      t := s;
      assert Undecided(s) == [] && Opt(s.querying) == [];
    } else {
      var a := StepToRest(c, s);
      Then(c, room, budget, s, a);
      StepDecreases(c, s, a);
      t := ComesToRest(c, room, budget, Apply(c, s, a));
      assert AtRest(Apply(c, s, a), []).(inputs := t.inputs) == AtRest(s, []).(inputs := t.inputs);
    }
  }

  // --- Runs that end with the maps apart ---

  lemma RemovesOnly<K, V>(m: map<K, V>, k: K)
    requires m.Keys == {k}
    ensures m - {k} == map[]
  {
    assert (m - {k}).Keys == {};
  }

  lemma BothHalves(c: Config, s: State, a: Action)
    requires s.probing == map[] && (a.OnProbe? || a.OffProbe?) && Enabled(c, s, a)
    ensures var m := Apply(c, s, a);
            a.d in m.probing && Apply(c, m, FinishProbe(a.d)) == Finish(m, a.d) && Finish(m, a.d).probing == map[]
  {
    var m := Apply(c, s, a);
    assert m.probing.Keys == {a.d};
    RemovesOnly(m.probing, a.d);
  }

  /** A streamon or streamoff on its own, both halves. */
  lemma Fires(c: Config, room: nat, budget: nat, s: State, a: Action) returns (t: State)
    requires Reachable(c, room, budget, s) && s.probing == map[]
    requires (a.OnProbe? || a.OffProbe?) && Enabled(c, s, a)
    ensures Reachable(c, room, budget, t) && Sound(c, t) && t.probing == map[]
    ensures a.d in Apply(c, s, a).probing && t == Finish(Apply(c, s, a), a.d)
  {
    var m := Apply(c, s, a);
    Then(c, room, budget, s, a);
    Then(c, room, budget, m, FinishProbe(a.d));
    t := Apply(c, m, FinishProbe(a.d));
    ReachableSound(c, room, budget, t);
    BothHalves(c, s, a);
  }

  /** A streamon on a loop at rest whose ring buffer holds a record or more. */
  lemma Streams(c: Config, room: nat, budget: nat, s: State, d: string, p: u32) returns (t: State)
    requires Reachable(c, room, budget, s) && Quiescent(s) && s.budget > 0 && s.kernel.room > 0 && p != c.self
    ensures Reachable(c, room, budget, t) && t.probing == map[]
    ensures t.kernel.pids == RecordPid(s.kernel.pids, d, p) && t.kernel.room == s.kernel.room
    ensures t.budget == s.budget - 1 && t.dropped == s.dropped && t.filtered == s.filtered - {d}
    ensures d in t.overflowed <==> !HasRoom(s.kernel.pids, d)
    ensures Capture(c, d) ==> WillBeOn(t, d)
  {
    t := Fires(c, room, budget, s, OnProbe(d, p));
    if Capture(c, d) {
      assert RecordsTraced(t, d);
    }
  }

  lemma {:induction false} Fills(c: Config, d: string, p: u32, room: nat, k: nat) returns (s: State)
    requires k <= room && p != c.self
    ensures Reachable(c, room, room + 1, s) && Sound(c, s) && s.probing == map[]
    ensures s.kernel.pids == map[] && |s.kernel.ring| == k && s.kernel.room == room && s.budget == room + 1 - k
    ensures d !in s.tried && d !in s.lost && d !in s.filtered
  {
    if k == 0 {
      s := Initial(room, room + 1);
      Initially(c, room, room + 1);
      ReachableSound(c, room, room + 1, s);
    } else {
      s := Fills(c, d, p, room, k - 1);
      s := Fires(c, room, room + 1, s, OffProbe(d, p));
    }
  }

  /** A dropped streamon: for every size of the ring buffer, when that many
      streamoffs go unread and a streamon follows, the loop comes to rest with the
      device recorded and inactive. */
  lemma DropBreaksCoupling(c: Config, d: string, p: u32, room: nat) returns (s: State)
    requires room > 0 && Capture(c, d) && p != c.self
    ensures Reachable(c, room, room + 1, s) && Quiescent(s)
    ensures d in s.lost && Matches(s.kernel.pids, d, p) && d !in RunAll(s.inputs).active
  {
    var full := Fills(c, d, p, room, room);
    assert RecordsTraced(full, d);
    var t := Fires(c, room, room + 1, full, OnProbe(d, p));
    assert Undecided(t) == Undecided(full);
    s := ComesToRest(c, room, room + 1, t);
  }

  /** A release of the recorded process on a loop at rest, both halves. */
  lemma Releases(c: Config, room: nat, budget: nat, s: State, d: string, p: u32) returns (t: State)
    requires Reachable(c, room, budget, s) && Quiescent(s) && s.budget > 0 && s.kernel.room > 0
    requires Matches(s.kernel.pids, d, p) && p != c.self
    ensures Reachable(c, room, budget, t)
    ensures var r := Record(RECORDING_OFF, SOURCE_FOP_RELEASE, p, d);
            t == s.(kernel := Kernel(s.kernel.pids - {d}, [r], s.kernel.room),
                    budget := s.budget - 1, tried := s.tried - {d}, lost := s.lost - {d}, filtered := s.filtered - {d})
  {
    var m := Apply(c, s, ReleaseProbe(d, p));
    Then(c, room, budget, s, ReleaseProbe(d, p));
    Then(c, room, budget, m, FinishProbe(d));
    t := Apply(c, m, FinishProbe(d));
    assert m.probing - {d} == map[];
  }

  /** The filter takes the only record in flight. */
  lemma Discards(c: Config, room: nat, budget: nat, s: State, r: Record<string>) returns (t: State)
    requires Reachable(c, room, budget, s) && s.kernel.ring == [r] && r.source == SOURCE_FOP_RELEASE
    requires s.held.None? && s.querying.None?
    ensures Reachable(c, room, budget, t)
    ensures t == s.(kernel := s.kernel.(ring := []), filtered := s.filtered + {r.name})
  {
    var m := Apply(c, s, Read);
    Then(c, room, budget, s, Read);
    Then(c, room, budget, m, Discard);
    t := Apply(c, m, Discard);
  }

  /** A release filtered away: with any ring buffer, when a process streams, closes
      its device without a streamoff and is found alive, the loop comes to rest
      with the device active and no PID. */
  lemma FilterBreaksEquality(c: Config, d: string, p: u32, room: nat) returns (s: State)
    requires room > 0 && Capture(c, d) && p != c.self
    ensures Reachable(c, room, 2, s) && Quiescent(s)
    ensures d !in s.dropped && d in s.filtered && d !in s.kernel.pids && d in RunAll(s.inputs).active
  {
    Initially(c, room, 2);
    var on := Streams(c, room, 2, Initial(room, 2), d, p);
    var r := ComesToRest(c, room, 2, on);
    var off := Releases(c, room, 2, r, d, p);
    s := Discards(c, room, 2, off, off.kernel.ring[0]);
  }

  predicate Distinct<T(==)>(a: seq<T>) {
    forall i, j :: 0 <= i < j < |a| ==> a[i] != a[j]
  }

  /** These names, and nothing else, may be in the map of a loop at rest that never
      dropped or filtered a record. */
  ghost predicate Occupied(s: State, names: seq<string>, room: nat) {
    && Quiescent(s) && s.kernel.room == room && s.dropped == s.filtered == {}
    && |s.kernel.pids| == |names| && forall d :: d in s.kernel.pids ==> d in names
  }

  lemma OccupiesNext(c: Config, r: State, names: seq<string>, d: string, p: u32, room: nat, budget: nat) returns (s: State)
    requires Reachable(c, room, budget, r) && Occupied(r, names, room) && room > 0
    requires d !in names && |names| < MAP_ENTRIES && r.budget > 0 && p != c.self
    ensures Reachable(c, room, budget, s) && Occupied(s, names + [d], room) && s.budget == r.budget - 1
  {
    var t := Streams(c, room, budget, r, d, p);
    s := ComesToRest(c, room, budget, t);
    assert s.kernel.pids == r.kernel.pids[d := p];
    MapSizes(r.kernel.pids, d, p);
  }

  lemma {:induction false} Occupies(c: Config, names: seq<string>, p: u32, room: nat) returns (s: State)
    requires Distinct(names) && |names| <= MAP_ENTRIES && p != c.self && room > 0
    ensures Reachable(c, room, MAP_ENTRIES + 1, s) && Occupied(s, names, room)
    ensures s.budget == MAP_ENTRIES + 1 - |names|
  {
    if names == [] {
      s := Initial(room, MAP_ENTRIES + 1);
      Initially(c, room, MAP_ENTRIES + 1);
    } else {
      var n := |names| - 1;
      var p', d := names[..n], names[n];
      assert names == p' + [d] && Distinct(p') && d !in p';
      var r := Occupies(c, p', p, room);
      s := OccupiesNext(c, r, p', d, p, room, MAP_ENTRIES + 1);
    }
  }

  /** A full map: when 65 devices stream, each record read before the next, the
      loop comes to rest with the last one active and no PID. */
  lemma OverflowBreaksEquality(c: Config, names: seq<string>, p: u32, room: nat) returns (s: State)
    requires |names| == 65 && Distinct(names) && Capture(c, names[MAP_ENTRIES])
    requires room > 0 && p != c.self
    ensures var d := names[MAP_ENTRIES];
            && Reachable(c, room, MAP_ENTRIES + 1, s) && Quiescent(s) && s.dropped == s.filtered == {}
            && d in s.overflowed && d !in s.kernel.pids && d in RunAll(s.inputs).active
  {
    var d := names[MAP_ENTRIES];
    var r := Occupies(c, names[..MAP_ENTRIES], p, room);
    assert d !in r.kernel.pids;
    var t := Streams(c, room, MAP_ENTRIES + 1, r, d, p);
    s := ComesToRest(c, room, MAP_ENTRIES + 1, t);
  }
}
