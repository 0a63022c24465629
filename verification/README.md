# CameraCoordinator, modelled and proved in Dafny

CameraCoordinator detects when a webcam starts and stops streaming. Three kernel
probes write records into a ring buffer and keep a map from device name to
streaming PID; a detector goroutine reads and filters the records; the
coordinator merges the detectors' events into one view of each device and fans
the changes out to its notifiers; autolight replays what it is told and drives a
light. This project models that chain and proves what its stages promise, alone
and together.

| file | what it models |
|---|---|
| `Events.dfy`, `Capability.dfy` | events, C strings, V4L2 capability words |
| `Coordinator.dfy` | `CameraCoordinator.Run` and `broadcastEvent` on a heap of nested maps and output arrays, and the functions they refine |
| `CoordinatorHistory.dfy` | what the coordinator promises about a history of events, and why it holds |
| `Interleaving.dfy` | what depends on how the detectors' events interleave |
| `Tracker.dfy` | the BPF map, ring buffer, helpers and probes |
| `Detector.dfy` | 32-byte names, 44-byte records, the reader loop |
| `Pipeline.dfy` | the closed loop of probes, reader, query and coordinator, each probe in two micro-steps |
| `PipelineLimits.dfy` | exactly when the coordinator and the process map agree at rest, and runs that leave them apart |
| `Daemon.dfy`, `DaemonLimits.dfy` | goroutines, channels, fan-out, cancellation, shutdown, and where they stop |
| `Autolight.dfy` | autolight's replica, light and labels under any interleaving of signals and clicks |
| `Discovery.dfy` | `V4L2DiscoverDevices` |
| `EndToEnd.dfy`, `WholeSystem.dfy` | the layers joined |

The main results, hardest first:

* `WholeSystem.NotifiersKnow`, `WholeSystem.LightTellsTheTruth`,
  `WholeSystem.RunsAreBounded`, `WholeSystem.WaitingIsSettled`: for every
  interleaving of probes, reader, coordinator, channels and notifiers before
  cancellation, whenever nothing is in flight a notifier's replica shows exactly
  the capture devices with a recorded streaming PID, device by clean device; and
  while the reader runs and the notifiers are connected every run gets there.
* `Pipeline.Coupling`, `PipelineLimits.AgreeExactly`,
  `PipelineLimits.Run.HistoriesExactly`, `Pipeline.Quiescence`,
  `Pipeline.NonInterference`, `Pipeline.EachQueryCloses`,
  `Pipeline.PidsAreHistory`.
* `Daemon.FanOutChain`, `Daemon.FanOutLockstep`, `Daemon.ShutdownSafety`,
  `Daemon.RunsAreBounded`, `Daemon.ShutdownProgress`,
  `DaemonLimits.AlternatesExactly`, `DaemonLimits.StuckExactly`,
  `DaemonLimits.DrainsExactly`.
* `CoordinatorHistory.Refinement` with projection, confluence, alternation,
  conservation and stuttering; `Interleaving.OrderMatters`.
* `TrackerSpec.MapIsHistory`, `TrackerSpec.ReleaseAccounting`,
  `Detector.NameAgreement`, `Detector.RecordsDelivered`.
* `AutolightSpec.AlwaysConsistent`, `AutolightSpec.LightHistory`,
  `AutolightSpec.LateJoin`.

Runs are sequences of actions; `Execute` performs them and a disabled action
leaves the state alone, so a lemma about `Execute(Initial(...), acts)` for every
`acts` speaks of every reachable state. Fields marked as history are only
written, never read by a step.

A device is called clean when its last record was neither dropped by a full ring
buffer nor filtered away and its last update of the process map found room;
`PipelineLimits.Run.CleanExactly` puts that on the steps of a run.

Properties that fail, with an input that shows it and the exact condition under
which they hold:

* An output need not alternate ON and OFF after cancellation
  (`DaemonLimits.CancelCanOrphanOff`). For every run, output and device it does
  exactly when each event of the device that reached the output comes after an
  even number of events of the device that did not
  (`DaemonLimits.AlternatesExactly`); so before cancellation it always does
  (`DaemonLimits.AlternatesBeforeCancel`).
* Without cancellation the daemon need not drain when a notifier cannot connect
  (`DaemonLimits.DeadNotifierBlocks`). A run that cannot go on has drained exactly
  when no notifier failed or the coordinator made at most one edge
  (`DaemonLimits.DrainsExactly`); `DaemonLimits.StuckExactly` says in which states
  it hangs.
* At rest the coordinator and the process map can disagree about a device: when
  its record was dropped by a full ring buffer
  (`PipelineLimits.DropBreaksCoupling`), when its process closed it and was found
  alive (`PipelineLimits.FilterBreaksEquality`), and when 64 other devices filled
  the map (`PipelineLimits.OverflowBreaksEquality`), each for every size of the
  ring buffer. By `PipelineLimits.AgreeExactly` they agree exactly when the last
  record of the device that was decided and the last that was tried, recorded if
  an ON, say the same; so after a drop, exactly when the dropped kind does not
  differ from the last one decided; and, if no record of the device was ever
  dropped, exactly when its last record was not filtered away and its last update
  found room.
* Equal order per device and detector fixes the final state
  (`CoordinatorHistory.Confluence`) but not the events of a device
  (`Interleaving.LogsMayDiffer`). Its ONs and OFFs depend on the interleaving
  exactly when one detector switches it off and another switches it on
  (`Interleaving.OrderMatters`); its events are fixed by the order of its own
  accepted events (`Interleaving.SameOrderSameEvents`), hence with the one
  detector that `main` starts (`Interleaving.OneDetectorSameEvents`).

Where the repository disagrees with itself the model follows the code:
event types are 1 and 2 (`camera_event.go:7-8`), not 0 and 1 (line 54 of the repository's own `README.md`); a
release is matched by PID (`bpf/camera_detector_vb2_ioctl.bpf.c:151-167`), not by
the queue's streaming flag (`camera_detector_vb2_ioctl.go:61-64`); `main` closes
the notifier channels (`cmd/camera-coordinator/main.go:105-107`), not the
coordinator (`docs/development/architecture.md:9`).

## Model

| member | source | states |
|---|---|---|
| `Capability.HasCapabilities` | v4l2_camera_discoverer.go:170-186 | true exactly when at least one mask is asked for and each mask, asked for alone, is had, which `Capability.HasAllOnFields` puts on the fields |
| `Capability.HasAllOnFields` | v4l2_camera_discoverer.go:175-184 | with bit 31 of the per-driver word set a mask is had exactly when the per-device word meets it, whatever the rest of the per-driver word; with it clear exactly when the per-driver word does |
| `CoordinatorHistory.AcceptedOnFields` | camera_coordinator.go:91-156 | an event counts exactly when its query succeeded, the effective word has bit 0 and its type is 1 or 2 |
| `CoordinatorHistory.ActiveWasCapture` | camera_coordinator.go:91-100 | a device is active only because of an ON for it whose query succeeded and showed a capture device |
| `CoordinatorHistory.MetadataNodeIsIgnored` | camera_coordinator.go:91-100 | a node whose per-device word lacks video capture is never active and never in the log, after any history |
| `Coordinator.ActiveMap.SwitchOn` | camera_coordinator.go:103-118 | the nested map afterwards is the old one with the detector added to its device's set; reports a rising edge exactly when that set was empty; no two devices ever share an inner map and none is left empty |
| `Coordinator.ActiveMap.SwitchOff` | camera_coordinator.go:131-144 | deleting through the alias takes the detector from its device's set, drops an emptied device, ignores a stray, and reports exactly the falling edges |
| `Coordinator.CameraCoordinator.BroadcastEvent` | camera_coordinator.go:163-171 | exactly the outputs before the point of cancellation get the event, the others are untouched, and every output holds the events of the log that reached it |
| `Coordinator.CameraCoordinator.Handle` | camera_coordinator.go:76-157 | one loop iteration takes the heap state to the reference step, for every event and every answer of the capability query |
| `Coordinator.CameraCoordinator.Run` | camera_coordinator.go:49-160 | the whole loop refines the reference run; a second call is refused and changes nothing; each emitted event reached exactly as many outputs as its stopping point let it, and without cancellation all of them |
| `CoordinatorHistory.Refinement` | camera_coordinator.go:37-153 | after any history a detector is in the map exactly when its last accepted event is ON, a device is a key exactly when some detector is, and the log is exactly the edges of "some detector is on", named from the capability read at each edge |
| `CoordinatorHistory.NoEmptySet` | camera_coordinator.go:141-144 | no device ever keeps an empty set of detectors |
| `CoordinatorHistory.Alternation` | camera_coordinator.go:103-153 | each device's events alternate ON, OFF from an ON, and the device is active exactly when the last is an ON |
| `CoordinatorHistory.Conservation` | camera_coordinator.go:103-153 | ONs emitted less OFFs emitted is the number of active devices |
| `CoordinatorHistory.Projection` | camera_coordinator.go:70-153 | running one device's accepted inputs alone yields exactly its share of the full run: detectors, key and events |
| `CoordinatorHistory.Confluence` | camera_coordinator.go:70-153 | interleavings with the same order per device and detector end in the same map |
| `CoordinatorHistory.StutterExactly` | camera_coordinator.go:91-156 | an input leaves state and log unchanged exactly when it is skipped by capability, of unknown type, a duplicate ON or a stray OFF |
| `CoordinatorHistory.Stuttering` | camera_coordinator.go:91-156 | deleting all stuttering inputs changes neither final state nor log, and nothing more can be deleted |
| `Interleaving.OrderMatters` | camera_coordinator.go:103-153 | for every history and device, some interleaving with the same order per device and detector emits other ONs and OFFs for the device exactly when one detector switches it off and another switches it on |
| `Interleaving.SameOrderSameEvents` | camera_coordinator.go:91-153 | the order of a device's own accepted events fixes its events and its detectors, whatever comes in between |
| `Interleaving.OneDetectorSameEvents` | cmd/camera-coordinator/main.go:41-43 | with one detector on a device no interleaving changes the device's events |
| `Interleaving.LogsMayDiffer` | camera_coordinator.go:117-144 | confluent interleavings of two detectors emit four events or two |
| `Tracker.KernelTracker.EmitEvent` | bpf/camera_detector_vb2_ioctl.bpf.c:106-131 | appends the record, or silently drops it when the buffer is full |
| `Tracker.KernelTracker.RecordStreamingPid` | bpf/camera_detector_vb2_ioctl.bpf.c:134-139 | sets the PID unless the key is new and 64 entries are taken |
| `Tracker.KernelTracker.ClearStreamingPid` | bpf/camera_detector_vb2_ioctl.bpf.c:142-147 | removes the device's entry |
| `Tracker.KernelTracker.CheckStreamingPidAndClear` | bpf/camera_detector_vb2_ioctl.bpf.c:151-167 | succeeds exactly when the device maps to this PID, and then removes the entry |
| `Tracker.KernelTracker.KprobeVb2IoctlStreamon` | bpf/camera_detector_vb2_ioctl.bpf.c:170-188 | map and buffer afterwards are those of the reference probe; nothing happens without a name |
| `Tracker.KernelTracker.KprobeVb2IoctlStreamoff` | bpf/camera_detector_vb2_ioctl.bpf.c:191-209 | likewise for a streamoff |
| `Tracker.KernelTracker.KprobeVb2FopRelease` | bpf/camera_detector_vb2_ioctl.bpf.c:218-241 | likewise for a release, which emits only on a PID match |
| `TrackerSpec.MapIsHistory` | bpf/camera_detector_vb2_ioctl.bpf.c:97-102 | for every probe sequence the map has at most 64 entries, and maps d to p exactly when p made the last streamon on d, its update found room, and no streamoff on d or release of d by p followed |
| `TrackerSpec.MapIsLastStreamOn` | bpf/camera_detector_vb2_ioctl.bpf.c:134-167 | when no update failed for lack of room the condition on room can be dropped |
| `TrackerSpec.MapIgnoresRing` | bpf/camera_detector_vb2_ioctl.bpf.c:184-206 | dropped records never change the map |
| `TrackerSpec.ProbeSubmits` | bpf/camera_detector_vb2_ioctl.bpf.c:106-239 | the record each probe submits, with type, source and PID spelled out, when the buffer has room and a release matches, and nothing otherwise |
| `TrackerSpec.ReleaseAccounting` | bpf/camera_detector_vb2_ioctl.bpf.c:17-39 | between two releases that report an OFF for a device, and between a streamoff and such a release, there is a streamon on the device |
| `Detector.NameAgreement` | bpf/camera_detector_vb2_ioctl.bpf.c:87-147 | two names give the same map key exactly when their records decode to the same string, whatever garbage the buffers held, and exactly when their first 31 bytes agree |
| `Detector.DecodeEncode` | camera_detector_vb2_ioctl.go:94-101 | decoding a submitted record returns its type, source, PID and cut name for every 32-bit value |
| `Detector.EncodedLayout` | bpf/camera_detector_vb2_ioctl.bpf.c:74-79 | the bytes of a submitted record: type at 0, source at 4, PID at 8, each little-endian, and the first 31 bytes of the name from 12, ended by a NUL |
| `Detector.DecodedChars` | camera_detector_vb2_ioctl.go:100-101 | the decoded name has one char for each of the first 31 bytes of the device name, in order, whatever the buffer held |
| `Events.StringChars` | camera_detector_vb2_ioctl.go:100-101 | a decoded string has one char for each byte before the first NUL, in order |
| `Detector.ReadLoop` | camera_detector_vb2_ioctl.go:82-138 | for any samples, liveness answers and point of cancellation: of the samples before the first short one it sends, in order, each whose source is not 2, and each of source 2 exactly when its process is gone; a short one ends it with an error, a cancelled send without |
| `Detector.SentExactly` | camera_detector_vb2_ioctl.go:94-136 | the places of the samples sent, the type and name of each event sent, and when the loop fails, with every liveness answer spelled out |
| `Detector.RecordsDelivered` | camera_detector_vb2_ioctl.go:94-136 | on samples the kernel submitted the loop never fails and sends the events of the records that pass the filter |
| `Detector.DeliveredExactly` | camera_detector_vb2_ioctl.go:94-136 | on samples the kernel submitted, whatever garbage they held, each record that is not of a release is sent, and one of a release exactly when its process is gone |
| `Pipeline.ProbeIsTwoSteps` | bpf/camera_detector_vb2_ioctl.bpf.c:170-241 | the two micro-steps of a probe run back to back are the atomic probe |
| `Pipeline.PidsAreHistory` | bpf/camera_detector_vb2_ioctl.bpf.c:134-239 | however the micro-steps interleave, the map is the history of the probes in the order they touch it, within 64 entries |
| `Pipeline.Invariants` | bpf/camera_detector_vb2_ioctl.bpf.c:184-239 | in every reachable state the coordinator's PID is not in the map, records in flight are well formed, the map follows the records tried, and unless its last record was dropped or filtered away a capture device will be active exactly when that record is an ON |
| `Pipeline.Coupling` | camera_detector_vb2_ioctl.go:84-136 | in every reachable state and for every later liveness answer, draining what is in flight leaves active every capture device with a recorded PID unless its last record was dropped; and inactive every device without one, if the processes of the releases in flight are gone and its last update found room |
| `Pipeline.Quiescence` | bpf/camera_detector_vb2_ioctl.bpf.c:28-39 | n probes by other processes cause at most 10 n steps in all, the coordinator's own releases included, and a run can go on without a new probe exactly while something is in flight |
| `Pipeline.RunsDecrease` | v4l2_camera_discoverer.go:134-149 | every enabled step, the open and close of the coordinator's query included, uses up the measure |
| `Pipeline.NonInterference` | bpf/camera_detector_vb2_ioctl.bpf.c:151-167 | erasing every release by the coordinator from a closed-loop run, those that overlap a probe on their device included, leaves map, records, decided events and all else the same |
| `Pipeline.EachQueryCloses` | v4l2_camera_discoverer.go:134-149 | in every run the coordinator has closed each device exactly as often as it opened it for a record taken, but for the descriptor still open |
| `Pipeline.AnsweredOpens` | v4l2_camera_discoverer.go:137-141 | taking a record of a device whose query succeeds opens the device |
| `Pipeline.ReleaseInQuery` | camera_coordinator.go:91 | the coordinator closes a device only after taking a record of it, once, and before it decides |
| `Pipeline.DecideAfterClose` | v4l2_camera_discoverer.go:141 | the coordinator decides only after closing what the query opened |
| `Pipeline.SelfReleaseIsRelease` | bpf/camera_detector_vb2_ioctl.bpf.c:218-241 | the close fires the reference release probe under the coordinator's own PID, and is silent exactly when the map does not hold that PID for the device |
| `Pipeline.Independent` | bpf/camera_detector_vb2_ioctl.bpf.c:170-241 | probes, reader and coordinator wait for each other only where they meet |
| `PipelineLimits.AgreeExactly` | bpf/camera_detector_vb2_ioctl.bpf.c:106-139 | at rest coordinator and map agree on a capture device exactly when the last record decided and the last record tried, recorded if an ON, say the same; if none was ever dropped, exactly when the last was not filtered away and the last update found room |
| `PipelineLimits.Run.HistoriesExactly` | bpf/camera_detector_vb2_ioctl.bpf.c:106-139 | what each history says of a run: the last record tried was an ON, or was dropped; some record was dropped; the last update found the map full; the last record was filtered away |
| `PipelineLimits.Run.CleanExactly` | camera_detector_vb2_ioctl.go:106-122 | when a device is clean, on the steps of the run |
| `PipelineLimits.ComesToRest` | bpf/camera_detector_vb2_ioctl.bpf.c:28-39 | from every reachable state with no probe under way the loop can come to rest without a new probe and with the map unchanged, each capture device active exactly when the records in flight said so |
| `PipelineLimits.DropBreaksCoupling` | bpf/camera_detector_vb2_ioctl.bpf.c:113-119 | for every buffer size, a streamon that finds the buffer full of unread streamoffs leaves its device recorded and inactive at rest |
| `PipelineLimits.FilterBreaksEquality` | camera_detector_vb2_ioctl.go:106-116 | for every buffer size, a process that streams, closes without a streamoff and is found alive leaves its device active with no PID at rest |
| `PipelineLimits.OverflowBreaksEquality` | bpf/camera_detector_vb2_ioctl.bpf.c:97-102 | for every buffer size, the 65th streaming device is active with no PID at rest |
| `Daemon.Invariants` | cmd/camera-coordinator/main.go:69-117 | the detector, channel and fan-out invariants hold in every state of every run |
| `Daemon.FanOutChain` | camera_coordinator.go:163-171 | at all times what output j was sent is a subsequence of any earlier output's and of the log, is the log exactly when every broadcast got past j, and its notifier has a prefix of it at most one event behind |
| `Daemon.FanOutLockstep` | camera_coordinator.go:72-81 | before cancellation every output has the log, but for the event in flight, which exactly the outputs already served have |
| `Daemon.CaughtUp` | camera_coordinator.go:163-171 | before cancellation and between broadcasts, a notifier with an empty channel has received the whole log |
| `Daemon.Independent` | cmd/camera-coordinator/main.go:80-115 | what a notifier or a detector can do changes only by its own steps, by the coordinator's where they meet, and by cancellation |
| `Daemon.StartMayFail` | camera_detector_vb2_ioctl.go:36-75 | a detector may fail to start, and one that fails never reads or sends |
| `Daemon.EndOfStream` | notifier.go:25-43 | without cancellation a notifier that has returned has received exactly the log, which can no longer grow |
| `Daemon.ShutdownSafety` | cmd/camera-coordinator/main.go:94-108 | no goroutine is ever about to send on or close a closed channel, and the reader's report never blocks |
| `Daemon.StepDecreases` | cmd/camera-coordinator/main.go:69-117 | every step except taking a new event decreases the measure |
| `Daemon.RunsAreBounded` | cmd/camera-coordinator/main.go:69-117 | from any reachable state a run with t more events taken has at most measure plus (2n + 3) t steps, under any scheduling |
| `Daemon.ShutdownProgress` | camera_detector_vb2_ioctl.go:140-149 | from every reachable cancelled state a run of at most measure steps, taking no event, finishes every goroutine, dead notifiers with full buffers included |
| `DaemonLimits.StuckExactly` | cmd/camera-coordinator/main.go:94-117 | without cancellation a reachable state has no step left exactly when all goroutines finished or broadcastEvent waits on the full channel of a notifier that failed to connect |
| `DaemonLimits.DrainDelivers` | cmd/camera-coordinator/main.go:69-115 | an uncancelled run without failed notifiers that cannot go on has finished everything and delivered the log to every notifier |
| `DaemonLimits.DrainsExactly` | cmd/camera-coordinator/main.go:94-117 | an uncancelled run that cannot go on has finished everything exactly when no notifier failed or at most one edge was made |
| `DaemonLimits.DeadNotifierBlocks` | notifier_dbus.go:47-52 | the blocked state is reachable: a notifier that cannot connect stalls the coordinator at the second edge |
| `DaemonLimits.AlternatesExactly` | camera_coordinator.go:163-171 | in every run, cancelled or not, an output alternates for a device exactly when each of the device's events that reached it comes after an even number that did not |
| `DaemonLimits.AlternatesBeforeCancel` | camera_coordinator.go:163-171 | before cancellation every output alternates for every device |
| `DaemonLimits.CancelCanOrphanOff` | camera_coordinator.go:163-171 | after cancellation an output can be sent an OFF without its ON |
| `DaemonLimits.NotifierMayReceive` | notifier.go:25-43 | in every reachable state, cancelled or not, a running notifier with an event in its channel may receive it, and may return without it exactly when cancelled |
| `DaemonLimits.CancelledNotifierReceives` | notifier.go:25-43 | an event emitted after cancellation can still reach its notifier |
| `AutolightSpec.ReplicaIsActive` | autolight/main.go:262-288 | replaying the whole log gives the coordinator's active devices |
| `AutolightSpec.LateJoin` | autolight/main.go:262-288 | replaying a suffix gives exactly the active devices mentioned in it |
| `AutolightSpec.AlwaysConsistent` | autolight/main.go:167-332 | after any interleaving of signals and clicks the replica replays the signals, labels agree with fields, the status is Unknown until an ON or OFF is seen and then shows whether a camera is active, and without clicks so does the light |
| `AutolightSpec.LightHistory` | autolight/main.go:167-332 | on the steps alone: the light is what the last ON, or OFF that left no camera, made it when its section ran with control enabled, flipped once per toggle click since |
| `AutolightSpec.SignalTakesEffect` | autolight/main.go:262-321 | after any steps, an ON shows On and lights the light while control is enabled, whatever cameras were active; an OFF that leaves none shows Off and puts it out; any other signal changes neither |
| `AutolightSpec.PendingExactly` | autolight/main.go:262-288 | the mutex section runs after exactly the ONs and the OFFs that leave no camera on |
| `AutolightSpec.ClicksCommute` | autolight/main.go:262-308 | clicks commute with the part of handleSignal outside the mutex |
| `Autolight.AutolightApp.HandleSignal` | autolight/main.go:233-289 | takes the object to the reference state for any body, and, field by field: every ON adds its device, shows On and lights unless disabled; an OFF removes its device, and when none is left shows Off and puts the light out unless disabled; any other body changes nothing |
| `Autolight.AutolightApp.HandleCameraOn` | autolight/main.go:291-305 | shows On, and turns the light on unless disabled |
| `Autolight.AutolightApp.HandleCameraOff` | autolight/main.go:307-321 | shows Off, and turns the light off unless disabled |
| `Autolight.AutolightApp.SetLights` | autolight/main.go:323-332 | sets the light and the opposite toggle label |
| `Autolight.AutolightApp.OnToggleLightClicked` | autolight/main.go:167-173 | flips the light, disabled or not |
| `Autolight.AutolightApp.OnEnableClicked` | autolight/main.go:175-191 | flips control and its label, leaving the light alone |
| `Discovery.Collect` | v4l2_camera_discoverer.go:86-101 | collects exactly the joined paths of the entries with the prefix |
| `Discovery.Scan` | v4l2_camera_discoverer.go:106-127 | the deduplicating loop returns the plain comprehension over the set of candidates, so order and repetitions do not show |
| `Discovery.V4L2DiscoverDevices` | v4l2_camera_discoverer.go:69-131 | fails exactly when /dev cannot be listed or by-id exists and cannot; otherwise returns a node exactly when an entry of by-id, or one of /dev named video..., is or points to it and its query shows a capture device, with that query's answer |
| `Discovery.FoundExactly` | v4l2_camera_discoverer.go:112-126 | a device is returned exactly when a path leads to its base name and its query succeeds and shows a capture device, with its own capability record |
| `Discovery.PlainNodeIsFound` | v4l2_camera_discoverer.go:95-126 | an entry of /dev named video... that is no link is found under its own name exactly when it is a capture device |
| `Discovery.BaseTrims` | v4l2_camera_discoverer.go:116-125 | the base of a path ignores slashes at its end |
| `Discovery.BaseOfJoin` | v4l2_camera_discoverer.go:116-125 | the base of a joined path is the entry's name |
| `EndToEnd.CleanExit` | cmd/camera-coordinator/main.go:69-117 | a notifier that returned without cancellation has received exactly the edges, and its replay is the devices some detector last reported ON |
| `EndToEnd.QuiescentTruth` | camera_detector_vb2_ioctl.go:84-136 | at rest the replayed log shows a clean device exactly when it is a capture device with a recorded PID; for a capture device with no record ever dropped, being clean is also needed |
| `WholeSystem.Projections` | cmd/camera-coordinator/main.go:69-117 | each run of the joined system is a run of the pipeline and a run of the daemon |
| `WholeSystem.NotifiersKnow` | cmd/camera-coordinator/main.go:69-117 | before cancellation, whenever nothing is in flight to a notifier, its replica shows a clean device exactly when it is a capture device with a recorded PID; for a capture device with no record ever dropped, being clean is also needed |
| `WholeSystem.RunsAreBounded` | cmd/camera-coordinator/main.go:69-117 | with b probes by other processes and n notifiers every run of the whole, cancelled or not, has at most 10 (2n + 3) b + 3n + 9 steps |
| `WholeSystem.WaitingIsSettled` | cmd/camera-coordinator/main.go:69-117 | an uncancelled system whose reader runs and whose notifiers could connect has no step of its own left exactly when it is idle, with nothing in flight to any notifier |
| `WholeSystem.StreamonArrives` | cmd/camera-coordinator/main.go:69-117 | for any buffer and any number of notifiers some run takes a streamon on a capture device to the replica of every notifier |
| `WholeSystem.LightTellsTheTruth` | autolight/main.go:233-349 | with its signals handled and no click, the light is on exactly when some capture device has a recorded PID |

## Left out

- eBPF loading, kprobe attachment, CO-RE reads and the ioctl itself: foreign calls; capability, liveness, symlinks, directories and the sort are oracles.
- The size of the ring buffer in records: a parameter, since it depends on kernel headers; all results hold for every size.
- Pipeline.Coupling: the capability answer is constant per device, because a device that changes its answer between ON and OFF leaves the coordinator and the map apart by design.
- Probes of one device that overlap and both touch the map: `Pipeline` assumes that a streamon, a streamoff or the close by the recorded process ends before the next of them on that device starts; every other close may come at any point, and within a probe the record and the map update are separate steps, between which anything else may happen.
- Pipeline.Quiescence: the coordinator's PID fires no streamon or streamoff of its own, as it only queries capabilities.
- The capability query as a step of `Daemon`: there, receiving an event, querying and deciding are one step, since no channel is touched in between; in `Pipeline` they are separate, and in `WholeSystem` the coordinator goes on only after the query.
- Coordinator.CameraCoordinator.BroadcastEvent: runs to its end in one call; blocking and interleaving are in `Daemon`.
- Daemon.ShutdownProgress: gives a terminating schedule, and Daemon.RunsAreBounded a bound per event taken; that Go's select eventually prefers cancellation is a matter of its fairness, since the code lets Run keep taking events after it.
- Records dropped by the filter as steps of `Daemon`; they are steps of `Pipeline` and `WholeSystem`.
- WholeSystem.LightTellsTheTruth: D-Bus between notifier and autolight is taken to deliver every signal in order.
- Tray icons, tooltips, brightness and colour menus, the quit item, the USB light calls: I/O. Labels are enumerations instead of their texts.
- `ScriptNotifier`: starts one process per event with no ordering promise.
- Logging, flags, version strings, packaging.
