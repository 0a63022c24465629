/** Autolight's replica of the coordinator's state and what it shows
    (autolight/main.go), on values. */
module AutolightSpec {
  import opened Events
  import opened CoordinatorSpec
  import opened CoordinatorHistory

  datatype Status = Unknown | CameraOn | CameraOff
  datatype ToggleLabel = TurnLightOn | TurnLightOff
  datatype EnableLabel = DisableControl | EnableControl

  /** activeCameras and the fields and labels guarded by the mutex. */
  datatype App = App(
    active: set<string>, disabled: bool, lightOn: bool,
    status: Status, toggle: ToggleLabel, enable: EnableLabel)

  const FRESH := App({}, false, false, Unknown, TurnLightOn, DisableControl)

  /** The mutex section a signal still has to run: handleSignal changes
      activeCameras before it takes the mutex. */
  datatype Section = Nothing | OnSection | OffSection

  predicate Known(e: CameraEvent) {
    e.kind == RECORDING_ON || e.kind == RECORDING_OFF
  }

  function Replay1(active: set<string>, e: CameraEvent): set<string> {
    if e.kind == RECORDING_ON then active + {e.videoDevice}
    else if e.kind == RECORDING_OFF then active - {e.videoDevice}
    else active
  }

  function ReplayFrom(active: set<string>, log: seq<CameraEvent>): set<string> {
    if log == [] then active else Replay1(ReplayFrom(active, log[..|log| - 1]), log[|log| - 1])
  }

  function Replay(log: seq<CameraEvent>): set<string> {
    ReplayFrom({}, log)
  }

  /** The section that follows a signal with this body, None when malformed. */
  function SectionOf(active: set<string>, body: Option<CameraEvent>): Section {
    if body.None? || !Known(body.value) then Nothing
    else if body.value.kind == RECORDING_ON then OnSection
    else if active - {body.value.videoDevice} == {} then OffSection
    else Nothing
  }

  function Receive(a: App, body: Option<CameraEvent>): App {
    if body.None? then a else a.(active := Replay1(a.active, body.value))
  }

  function SetLights(a: App, on: bool): App {
    a.(lightOn := on, toggle := if on then TurnLightOff else TurnLightOn)
  }

  function RunSection(a: App, s: Section): App {
    match s
    case Nothing => a
    case OnSection => if a.disabled then a.(status := CameraOn) else SetLights(a.(status := CameraOn), true)
    case OffSection => if a.disabled then a.(status := CameraOff) else SetLights(a.(status := CameraOff), false)
  }

  function ClickToggle(a: App): App {
    SetLights(a, !a.lightOn)
  }

  function ClickEnable(a: App): App {
    a.(disabled := !a.disabled, enable := if a.disabled then DisableControl else EnableControl)
  }

  // --- The replica ---

  lemma ReplaySnoc(active: set<string>, log: seq<CameraEvent>, e: CameraEvent)
    ensures ReplayFrom(active, log + [e]) == Replay1(ReplayFrom(active, log), e)
  {
    assert (log + [e])[..|log|] == log;
  }

  /** Replaying the whole emitted log yields the coordinator's active devices. */
  lemma {:induction false} ReplicaIsActive(h: seq<Input>)
    ensures Replay(RunAll(h).log) == RunAll(h).active.Keys
  {
    if h != [] {
      var s, i := RunAll(h[..|h| - 1]), h[|h| - 1];
      ReplicaIsActive(h[..|h| - 1]);
      NoEmptySet(h[..|h| - 1]);
      StepKeys(s, i);
      LogStep(s, i);
      if Edge(s, i) {
        ReplaySnoc({}, s.log, Notice(i));
      }
    }
  }

  predicate Mentioned(log: seq<CameraEvent>, d: string) {
    exists k :: 0 <= k < |log| && Known(log[k]) && log[k].videoDevice == d
  }

  lemma {:induction false} ReplayAppend(a: set<string>, p: seq<CameraEvent>, q: seq<CameraEvent>)
    ensures ReplayFrom(a, p + q) == ReplayFrom(ReplayFrom(a, p), q)
    decreases |q|
  {
    if q == [] {
      assert p + q == p;
    } else {
      var n := |q| - 1;
      ReplayAppend(a, p, q[..n]);
      assert p + q == (p + q[..n]) + [q[n]];
      ReplaySnoc(a, p + q[..n], q[n]);
    }
  }

  lemma MentionedSnoc(q: seq<CameraEvent>, e: CameraEvent, d: string)
    ensures Mentioned(q + [e], d) <==> Mentioned(q, d) || (Known(e) && e.videoDevice == d)
  {
    var g := q + [e];
    assert g[|q|] == e && forall k :: 0 <= k < |q| ==> g[k] == q[k];
  }

  /** Where d ends up depends on where it starts only when q does not mention it. */
  lemma {:induction false} ReplayMentioned(a: set<string>, q: seq<CameraEvent>, d: string)
    ensures d in ReplayFrom(a, q) <==> d in Replay(q) || (!Mentioned(q, d) && d in a)
    ensures d in Replay(q) ==> Mentioned(q, d)
  {
    if q != [] {
      var p, e := q[..|q| - 1], q[|q| - 1];
      assert q == p + [e];
      ReplayMentioned(a, p, d);
      MentionedSnoc(p, e, d);
    }
  }

  /** A replica that joins late, after k events, knows exactly the active devices
      that have been mentioned since; it never shows an inactive one. */
  lemma LateJoin(h: seq<Input>, k: nat, d: string)
    requires k <= |RunAll(h).log|
    ensures d in Replay(RunAll(h).log[k..]) <==> d in RunAll(h).active && Mentioned(RunAll(h).log[k..], d)
  {
    var log := RunAll(h).log;
    assert log == log[..k] + log[k..];
    ReplicaIsActive(h);
    ReplayAppend({}, log[..k], log[k..]);
    ReplayMentioned(Replay(log[..k]), log[k..], d);
  }

  // --- Signals and clicks in any interleaving ---

  /** Arrive and Section are the two halves of handleSignal. */
  datatype Step = Arrive(body: Option<CameraEvent>) | Section | Toggle | Enable

  datatype World = World(
    app: App, pending: Section,
    seen: seq<CameraEvent>) // history: the bodies of well-formed signals

  const START := World(FRESH, Nothing, [])

  /** Signals are handled one after the other; clicks come at any time. */
  function Next(w: World, s: Step): World {
    match s
    case Arrive(body) =>
      if w.pending != Nothing then w else
      World(Receive(w.app, body), SectionOf(w.app.active, body),
            if body.Some? then w.seen + [body.value] else w.seen)
    case Section => w.(app := RunSection(w.app, w.pending), pending := Nothing)
    case Toggle => w.(app := ClickToggle(w.app))
    case Enable => w.(app := ClickEnable(w.app))
  }

  function Play(steps: seq<Step>): World {
    if steps == [] then START else Next(Play(steps[..|steps| - 1]), steps[|steps| - 1])
  }

  lemma PlaySnoc(steps: seq<Step>, s: Step)
    ensures Play(steps + [s]) == Next(Play(steps), s)
  {
    assert (steps + [s])[..|steps|] == steps;
  }

  function Count(steps: seq<Step>, s: Step): nat {
    if steps == [] then 0 else Count(steps[..|steps| - 1], s) + if steps[|steps| - 1] == s then 1 else 0
  }

  /** There were no clicks. */
  predicate Quiet(steps: seq<Step>) {
    forall k :: 0 <= k < |steps| ==> steps[k] != Toggle && steps[k] != Enable
  }

  /** Some ON or OFF has been seen. */
  predicate Heard(seen: seq<CameraEvent>) {
    exists k :: 0 <= k < |seen| && Known(seen[k])
  }

  /** The status item, given what is pending and whether any ON or OFF was seen. */
  predicate Shown(a: App, pending: Section, heard: bool) {
    && (a.active != {} ==> heard)
    && (pending == Nothing ==> (a.status == Unknown <==> !heard))
    && (pending == Nothing && a.status != Unknown ==> (a.status == CameraOn <==> a.active != {}))
    && (pending == OnSection ==> a.active != {} && heard)
    && (pending == OffSection ==> a.active == {} && heard)
  }

  predicate Labelled(a: App) {
    (a.toggle == TurnLightOff <==> a.lightOn) && (a.enable == EnableControl <==> a.disabled)
  }

  /** The world after some steps, with so many clicks on enable and perhaps none. */
  ghost predicate Consistent(w: World, enables: nat, quiet: bool) {
    && w.app.active == Replay(w.seen)
    && Labelled(w.app)
    && (w.app.disabled <==> enables % 2 == 1)
    && (quiet ==> enables == 0)
    && Shown(w.app, w.pending, Heard(w.seen))
    && (w.pending == Nothing && quiet ==> (w.app.lightOn <==> w.app.active != {}))
  }

  lemma CountSnoc(steps: seq<Step>, s: Step, x: Step)
    ensures Count(steps + [s], x) == Count(steps, x) + if s == x then 1 else 0
  {
    assert (steps + [s])[..|steps|] == steps;
  }

  lemma HeardSnoc(seen: seq<CameraEvent>, e: CameraEvent)
    ensures Heard(seen + [e]) <==> Heard(seen) || Known(e)
  {
    assert (seen + [e])[|seen|] == e && forall k :: 0 <= k < |seen| ==> (seen + [e])[k] == seen[k];
  }

  lemma QuietSnoc(steps: seq<Step>, s: Step)
    ensures Quiet(steps + [s]) <==> Quiet(steps) && s != Toggle && s != Enable
  {
    assert (steps + [s])[|steps|] == s && forall k :: 0 <= k < |steps| ==> (steps + [s])[k] == steps[k];
  }

  lemma ConsistentArrive(w: World, body: Option<CameraEvent>, enables: nat, quiet: bool)
    requires Consistent(w, enables, quiet)
    ensures Consistent(Next(w, Arrive(body)), enables, quiet)
  {
    if body.Some? && w.pending == Nothing {
      HeardSnoc(w.seen, body.value);
      ReplaySnoc({}, w.seen, body.value);
    }
  }

  lemma ConsistentOther(w: World, s: Step, enables: nat, quiet: bool)
    requires Consistent(w, enables, quiet) && !s.Arrive?
    ensures Consistent(Next(w, s), enables + if s == Enable then 1 else 0, quiet && s == Section)
  {
  }

  /** After any interleaving of signals and clicks: activeCameras replays the
      signals seen, the labels agree with the fields, and between signals the
      status is Unknown until an ON or OFF is seen and then shows whether some
      camera is active; without clicks so does the light. */
  lemma {:induction false} AlwaysConsistent(steps: seq<Step>)
    ensures Consistent(Play(steps), Count(steps, Enable), Quiet(steps))
  {
    if steps != [] {
      var p, s := steps[..|steps| - 1], steps[|steps| - 1];
      assert steps == p + [s];
      AlwaysConsistent(p);
      CountSnoc(p, s, Enable);
      QuietSnoc(p, s);
      if s.Arrive? {
        ConsistentArrive(Play(p), s.body, Count(p, Enable), Quiet(p));
      } else {
        ConsistentOther(Play(p), s, Count(p, Enable), Quiet(p));
      }
    }
  }

  // --- What each signal does, and the light after any steps ---

  /** A signal that arrives when no other is being handled, with its section: an ON
      always shows On and, while control is enabled, puts the light on, whatever
      cameras were active; an OFF that leaves none shows Off and puts it out; an
      OFF that leaves one, and any other body, changes neither. */
  lemma SignalTakesEffect(steps: seq<Step>, e: CameraEvent)
    requires Play(steps).pending == Nothing
    ensures var a, b := Play(steps).app, Play(steps + [Arrive(Some(e))] + [Section]).app;
            var enabled, last := Count(steps, Enable) % 2 == 0, Replay(Play(steps).seen + [e]) == {};
            && b.active == (if e.kind == 1 then a.active + {e.videoDevice}
                            else if e.kind == 2 then a.active - {e.videoDevice} else a.active)
            && b.status == (if e.kind == 1 then CameraOn else if e.kind == 2 && last then CameraOff else a.status)
            && b.lightOn == (if enabled && e.kind == 1 then true
                             else if enabled && e.kind == 2 && last then false else a.lightOn)
            && b.disabled == a.disabled
  {
    var w := Play(steps);
    AlwaysConsistent(steps);
    PlaySnoc(steps, Arrive(Some(e)));
    PlaySnoc(steps + [Arrive(Some(e))], Section);
    ReplaySnoc({}, w.seen, e);
  }

  /** The signal is to put the light on or off: an ON, or an OFF after which the
      signals seen leave no camera on. */
  predicate Wants(seen: seq<CameraEvent>, e: CameraEvent, on: bool) {
    if on then e.kind == 1 else e.kind == 2 && Replay(seen + [e]) == {}
  }

  /** Step j is such a signal, and comes when no other is being handled. */
  predicate Commands(steps: seq<Step>, j: nat, on: bool) {
    && j < |steps| && steps[j].Arrive? && steps[j].body.Some? && Play(steps[..j]).pending == Nothing
    && Wants(Play(steps[..j]).seen, steps[j].body.value, on)
  }

  /** The mutex section of that signal has not run yet. */
  ghost predicate AwaitsFrom(steps: seq<Step>, j: nat, on: bool) {
    Commands(steps, j, on) && forall i :: j < i < |steps| ==> steps[i] != Section
  }

  /** The section of some such signal has not. */
  ghost predicate Awaits(steps: seq<Step>, on: bool) {
    exists j: nat :: AwaitsFrom(steps, j, on)
  }

  /** Step k is the section of such a signal, with control enabled: enable was
      clicked an even number of times before. */
  ghost predicate Sets(steps: seq<Step>, k: nat, on: bool) {
    k < |steps| && steps[k] == Section && Count(steps[..k], Enable) % 2 == 0 && Awaits(steps[..k], on)
  }

  ghost predicate LastSets(steps: seq<Step>, k: nat, on: bool) {
    Sets(steps, k, on) && forall i: nat, b :: k < i ==> !Sets(steps, i, b)
  }

  /** The light is what the last such section made it, flipped once for every toggle
      click since; before any it starts off. */
  ghost predicate LightIs(steps: seq<Step>, light: bool) {
    && (forall k: nat, on :: LastSets(steps, k, on) ==> light == (on != (Count(steps[k..], Toggle) % 2 == 1)))
    && ((forall k: nat, on :: !LastSets(steps, k, on)) ==> light == (Count(steps, Toggle) % 2 == 1))
  }

  lemma CommandsSnoc(p: seq<Step>, s: Step, j: nat, on: bool)
    requires j < |p|
    ensures Commands(p + [s], j, on) <==> Commands(p, j, on)
  {
    assert (p + [s])[..j] == p[..j];
  }

  lemma AwaitsFromSnoc(p: seq<Step>, s: Step, j: nat, on: bool)
    requires j < |p|
    ensures AwaitsFrom(p + [s], j, on) <==> AwaitsFrom(p, j, on) && s != Section
  {
    var h, n := p + [s], |p|;
    CommandsSnoc(p, s, j, on);
    assert h[n] == s && forall i :: 0 <= i < n ==> h[i] == p[i];
  }

  lemma AwaitsSnoc(p: seq<Step>, s: Step, on: bool)
    ensures Awaits(p + [s], on) <==> (Awaits(p, on) && s != Section) || Commands(p + [s], |p|, on)
  {
    if Awaits(p + [s], on) {
      var j: nat :| AwaitsFrom(p + [s], j, on);
      if j < |p| {
        AwaitsFromSnoc(p, s, j, on);
      }
    }
    if Awaits(p, on) {
      var j: nat :| AwaitsFrom(p, j, on);
      AwaitsFromSnoc(p, s, j, on);
    }
    if Commands(p + [s], |p|, on) {
      assert AwaitsFrom(p + [s], |p|, on);
    }
  }

  lemma CommandsLast(p: seq<Step>, s: Step, on: bool)
    ensures Commands(p + [s], |p|, on) <==>
            s.Arrive? && s.body.Some? && Play(p).pending == Nothing && Wants(Play(p).seen, s.body.value, on)
  {
    assert (p + [s])[..|p|] == p && (p + [s])[|p|] == s;
  }

  lemma SectionIs(active: set<string>, e: CameraEvent, after: set<string>)
    requires after == Replay1(active, e)
    ensures SectionOf(active, Some(e)) ==
            if e.kind == 1 then OnSection else if e.kind == 2 && after == {} then OffSection else Nothing
  {
  }

  lemma SectionWants(active: set<string>, seen: seq<CameraEvent>, e: CameraEvent)
    requires active == Replay(seen)
    ensures SectionOf(active, Some(e)) == OnSection <==> Wants(seen, e, true)
    ensures SectionOf(active, Some(e)) == OffSection <==> Wants(seen, e, false)
  {
    ReplaySnoc({}, seen, e);
    SectionIs(active, e, Replay(seen + [e]));
  }

  lemma NextPending(w: World, s: Step)
    requires w.app.active == Replay(w.seen)
    ensures var v := Next(w, s).pending;
            if s.Arrive? && w.pending == Nothing then
              && (v == OnSection <==> s.body.Some? && Wants(w.seen, s.body.value, true))
              && (v == OffSection <==> s.body.Some? && Wants(w.seen, s.body.value, false))
            else v == if s == Section then Nothing else w.pending
  {
    if s.Arrive? && s.body.Some? {
      SectionWants(w.app.active, w.seen, s.body.value);
    }
  }

  /** A section is pending exactly after a signal that is to put the light on or off. */
  lemma {:induction false} PendingExactly(steps: seq<Step>)
    ensures Play(steps).pending == OnSection <==> Awaits(steps, true)
    ensures Play(steps).pending == OffSection <==> Awaits(steps, false)
  {
    if steps != [] {
      var n := |steps| - 1;
      var p, s := steps[..n], steps[n];
      assert steps == p + [s];
      PendingExactly(p);
      AlwaysConsistent(p);
      NextPending(Play(p), s);
      AwaitsSnoc(p, s, true);
      AwaitsSnoc(p, s, false);
      CommandsLast(p, s, true);
      CommandsLast(p, s, false);
      assert Play(steps).pending == Next(Play(p), s).pending;
    }
  }

  lemma SetsSnoc(p: seq<Step>, s: Step, k: nat, on: bool)
    ensures k < |p| ==> (Sets(p + [s], k, on) <==> Sets(p, k, on))
    ensures Sets(p + [s], |p|, on) <==> s == Section && Count(p, Enable) % 2 == 0 && Awaits(p, on)
  {
    assert (p + [s])[..|p|] == p;
    if k < |p| {
      assert (p + [s])[..k] == p[..k];
    }
  }

  lemma LastSetsSnoc(p: seq<Step>, s: Step, k: nat, on: bool)
    ensures LastSets(p + [s], k, on) <==>
            if Sets(p + [s], |p|, true) || Sets(p + [s], |p|, false) then k == |p| && Sets(p + [s], |p|, on)
            else LastSets(p, k, on)
  {
    forall i: nat, b | i < |p| ensures Sets(p + [s], i, b) <==> Sets(p, i, b) {
      SetsSnoc(p, s, i, b);
    }
  }

  lemma SinceSnoc(p: seq<Step>, s: Step, k: nat)
    requires k <= |p|
    ensures Count((p + [s])[k..], Toggle) == Count(p[k..], Toggle) + if s == Toggle then 1 else 0
  {
    assert (p + [s])[k..] == p[k..] + [s];
    CountSnoc(p[k..], s, Toggle);
  }

  lemma Parity(n: nat, m: nat, flip: bool)
    requires m == n + if flip then 1 else 0
    ensures (m % 2 == 1) == ((n % 2 == 1) != flip)
  {
  }

  lemma SinceBefore(p: seq<Step>, s: Step, light: bool, k: nat, on: bool)
    requires LightIs(p, light) && !Sets(p + [s], |p|, true) && !Sets(p + [s], |p|, false)
    requires LastSets(p + [s], k, on)
    ensures k < |p| && light == (on != (Count(p[k..], Toggle) % 2 == 1))
  {
    LastSetsSnoc(p, s, k, on);
  }

  lemma SinceKeeps(p: seq<Step>, s: Step, light: bool, k: nat, on: bool)
    requires k < |p| && light == (on != (Count(p[k..], Toggle) % 2 == 1))
    ensures (if s == Toggle then !light else light) == (on != (Count((p + [s])[k..], Toggle) % 2 == 1))
  {
    SinceSnoc(p, s, k);
    Parity(Count(p[k..], Toggle), Count((p + [s])[k..], Toggle), s == Toggle);
  }

  lemma NeverBefore(p: seq<Step>, s: Step, light: bool)
    requires LightIs(p, light) && !Sets(p + [s], |p|, true) && !Sets(p + [s], |p|, false)
    requires forall k: nat, on :: !LastSets(p + [s], k, on)
    ensures light == (Count(p, Toggle) % 2 == 1)
  {
    forall k: nat, on ensures !LastSets(p, k, on) {
      LastSetsSnoc(p, s, k, on);
    }
  }

  lemma NeverKeeps(p: seq<Step>, s: Step, light: bool)
    requires light == (Count(p, Toggle) % 2 == 1)
    ensures (if s == Toggle then !light else light) == (Count(p + [s], Toggle) % 2 == 1)
  {
    CountSnoc(p, s, Toggle);
    Parity(Count(p, Toggle), Count(p + [s], Toggle), s == Toggle);
  }

  /** A step that is no section that sets the light. */
  lemma LightKeeps(p: seq<Step>, s: Step, light: bool)
    requires LightIs(p, light) && !Sets(p + [s], |p|, true) && !Sets(p + [s], |p|, false)
    ensures LightIs(p + [s], if s == Toggle then !light else light)
  {
    forall k: nat, on | LastSets(p + [s], k, on)
      ensures (if s == Toggle then !light else light) == (on != (Count((p + [s])[k..], Toggle) % 2 == 1))
    {
      SinceBefore(p, s, light, k, on);
      SinceKeeps(p, s, light, k, on);
    }
    if forall k: nat, on :: !LastSets(p + [s], k, on) {
      NeverBefore(p, s, light);
      NeverKeeps(p, s, light);
    }
  }

  /** A section that sets the light. */
  lemma LightSet(p: seq<Step>, s: Step, on: bool)
    requires Sets(p + [s], |p|, on) && !Sets(p + [s], |p|, !on)
    ensures LightIs(p + [s], on)
  {
    LastSetsSnoc(p, s, |p|, on);
    forall k: nat, b | LastSets(p + [s], k, b) ensures k == |p| && b == on {
      LastSetsSnoc(p, s, k, b);
    }
    assert p[|p|..] == [];
    SinceSnoc(p, s, |p|);
  }

  /** Whether the step sets the light, and what it leaves. */
  lemma LightAfterStep(p: seq<Step>, s: Step)
    ensures var light, light' := Play(p).app.lightOn, Next(Play(p), s).app.lightOn;
            && !(Sets(p + [s], |p|, true) && Sets(p + [s], |p|, false))
            && (forall on :: Sets(p + [s], |p|, on) ==> light' == on)
            && (!Sets(p + [s], |p|, true) && !Sets(p + [s], |p|, false) ==>
                  light' == if s == Toggle then !light else light)
  {
    AlwaysConsistent(p);
    PendingExactly(p);
    SetsSnoc(p, s, |p|, true);
    SetsSnoc(p, s, |p|, false);
  }

  /** The light after any interleaving of signals and clicks, on the steps alone. */
  lemma {:induction false} LightHistory(steps: seq<Step>)
    ensures LightIs(steps, Play(steps).app.lightOn)
  {
    if steps != [] {
      var n := |steps| - 1;
      var p, s := steps[..n], steps[n];
      assert steps == p + [s];
      LightHistory(p);
      LightAfterStep(p, s);
      if Sets(p + [s], n, true) {
        LightSet(p, s, true);
      } else if Sets(p + [s], n, false) {
        LightSet(p, s, false);
      } else {
        LightKeeps(p, s, Play(p).app.lightOn);
      }
    }
  }

  /** A click commutes with the half of handleSignal that runs outside the mutex,
      so handleSignal is atomic towards the clicks. */
  lemma ClicksCommute(w: World, body: Option<CameraEvent>, click: Step)
    requires click == Toggle || click == Enable
    ensures Next(Next(w, Arrive(body)), click) == Next(Next(w, click), Arrive(body))
  {
  }
}

/** The App object. */
module Autolight {
  import opened Events
  import opened AutolightSpec

  class AutolightApp {
    var activeCameras: set<string>
    var disabled: bool
    var lightOn: bool
    var cameraStatusItem: Status
    var toggleLightItem: ToggleLabel
    var enableItem: EnableLabel

    ghost function State(): App
      reads this
    {
      App(activeCameras, disabled, lightOn, cameraStatusItem, toggleLightItem, enableItem)
    }

    constructor ()
      ensures State() == FRESH
    {
      activeCameras := {};
      disabled := false;
      lightOn := false;
      cameraStatusItem := Unknown;
      toggleLightItem := TurnLightOn;
      enableItem := DisableControl;
    }

    /** Without a click in between, a signal runs both halves. */
    method HandleSignal(body: Option<CameraEvent>)
      modifies this
      ensures body.Some? && body.value.kind == 1 ==>
                && activeCameras == old(activeCameras) + {body.value.videoDevice} && cameraStatusItem == CameraOn
                && lightOn == (old(lightOn) || !disabled)
      ensures body.Some? && body.value.kind == 2 ==>
                && activeCameras == old(activeCameras) - {body.value.videoDevice}
                && cameraStatusItem == (if activeCameras == {} then CameraOff else old(cameraStatusItem))
                && lightOn == (old(lightOn) && (activeCameras != {} || disabled))
      ensures body.None? || (body.value.kind != 1 && body.value.kind != 2) ==> State() == old(State())
      ensures disabled == old(disabled)
      ensures State() == RunSection(Receive(old(State()), body), SectionOf(old(activeCameras), body))
    {
      if body.None? {
        return;
      }
      var e := body.value;
      if e.kind == RECORDING_ON {
        activeCameras := activeCameras + {e.videoDevice};
        HandleCameraOn();
      } else if e.kind == RECORDING_OFF {
        activeCameras := activeCameras - {e.videoDevice};
        if |activeCameras| == 0 {
          HandleCameraOff();
        }
      }
    }

    method HandleCameraOn()
      modifies this
      ensures State() == RunSection(old(State()), OnSection)
    {
      cameraStatusItem := CameraOn;
      if !disabled {
        SetLights(true);
      }
    }

    method HandleCameraOff()
      modifies this
      ensures State() == RunSection(old(State()), OffSection)
    {
      cameraStatusItem := CameraOff;
      if !disabled {
        SetLights(false);
      }
    }

    method SetLights(on: bool)
      modifies this`lightOn, this`toggleLightItem
      ensures State() == AutolightSpec.SetLights(old(State()), on)
    {
      lightOn := on;
      if on {
        toggleLightItem := TurnLightOff;
      } else {
        toggleLightItem := TurnLightOn;
      }
    }

    method OnToggleLightClicked()
      modifies this
      ensures State() == ClickToggle(old(State()))
    {
      SetLights(!lightOn);
    }

    method OnEnableClicked()
      modifies this
      ensures State() == ClickEnable(old(State()))
    {
      disabled := !disabled;
      if disabled {
        enableItem := EnableControl;
      } else {
        enableItem := DisableControl;
      }
    }
  }
}
