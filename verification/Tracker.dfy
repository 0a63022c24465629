/** The kernel side (bpf/camera_detector_vb2_ioctl.bpf.c) on values: the
    streaming_pid map, the ring buffer, the helpers and what the three probes do
    to them. Device names are a parameter; module Detector says when two 32-byte
    names are the same key. */
module TrackerSpec {
  import opened Events

  const SOURCE_IOCTL: u32 := 1
  const SOURCE_FOP_RELEASE: u32 := 2
  const MAP_ENTRIES := 64

  datatype Record<D> = Record(kind: u32, source: u32, pid: u32, name: D)

  /** The map, the unread records and how many records the buffer can hold. */
  datatype Kernel<D> = Kernel(pids: map<D, u32>, ring: seq<Record<D>>, room: nat)

  /** A probe firing with a readable device name. */
  datatype Op<D> =
    | StreamOn(device: D, pid: u32)
    | StreamOff(device: D, pid: u32)
    | Release(device: D, pid: u32)

  function Emit<D>(k: Kernel<D>, r: Record<D>): Kernel<D> {
    if |k.ring| < k.room then k.(ring := k.ring + [r]) else k
  }

  /** An update with BPF_ANY succeeds on a key that is present or while the map
      has a free entry. */
  predicate HasRoom<D>(pids: map<D, u32>, d: D) {
    d in pids || |pids| < MAP_ENTRIES
  }

  function RecordPid<D>(pids: map<D, u32>, d: D, p: u32): map<D, u32> {
    if HasRoom(pids, d) then pids[d := p] else pids
  }

  predicate Matches<D>(pids: map<D, u32>, d: D, p: u32) {
    d in pids && pids[d] == p
  }

  function Probe<D>(k: Kernel<D>, op: Op<D>): Kernel<D> {
    match op
    case StreamOn(d, p) =>
      var k' := Emit(k, Record(RECORDING_ON, SOURCE_IOCTL, p, d));
      k'.(pids := RecordPid(k.pids, d, p))
    case StreamOff(d, p) =>
      var k' := Emit(k, Record(RECORDING_OFF, SOURCE_IOCTL, p, d));
      k'.(pids := k.pids - {d})
    case Release(d, p) =>
      if Matches(k.pids, d, p)
      then Emit(k.(pids := k.pids - {d}), Record(RECORDING_OFF, SOURCE_FOP_RELEASE, p, d))
      else k
  }

  function ProbeAll<D>(k: Kernel<D>, h: seq<Op<D>>): Kernel<D> {
    if h == [] then k else Probe(ProbeAll(k, h[..|h| - 1]), h[|h| - 1])
  }

  /** The map after the probes of h, from an empty one. */
  function PidsAfter<D>(h: seq<Op<D>>): map<D, u32> {
    ProbeAll(Kernel(map[], [], 0), h).pids
  }

  /** What a probe submits, on the fields: type 1 or 2, source 1 or 2, the process
      and the device; and nothing when the buffer is full or, for a release, when
      the map has another process or none. */
  lemma ProbeSubmits<D>(k: Kernel<D>, op: Op<D>)
    ensures Probe(k, op).room == k.room
    ensures Probe(k, op).ring == k.ring +
            if |k.ring| >= k.room then []
            else match op
              case StreamOn(d, p) => [Record(1, 1, p, d)]
              case StreamOff(d, p) => [Record(2, 1, p, d)]
              case Release(d, p) => if d in k.pids && k.pids[d] == p then [Record(2, 2, p, d)] else []
  {
  }

  // --- The map as a function of the probe history ---

  /** A probe after which d no longer maps to p because of an earlier streamon. */
  predicate Ends<D(==)>(op: Op<D>, d: D, p: u32) {
    op.device == d && (op.Release? ==> op.pid == p)
  }

  /** The last streamon on d is probe k, by p, with neither a later streamoff on
      d nor a later release of d by p. */
  ghost predicate OpenedAt<D>(h: seq<Op<D>>, d: D, p: u32, k: nat) {
    && k < |h| && h[k] == StreamOn(d, p)
    && forall j :: k < j < |h| ==> !Ends(h[j], d, p)
  }

  ghost predicate Owner<D>(h: seq<Op<D>>, d: D, p: u32) {
    exists k: nat :: OpenedAt(h, d, p, k) && HasRoom(PidsAfter(h[..k]), d)
  }

  lemma PidsSnoc<D>(h: seq<Op<D>>, op: Op<D>)
    ensures PidsAfter(h + [op]) == Probe(Kernel(PidsAfter(h), [], 0), op).pids
  {
    assert (h + [op])[..|h|] == h;
  }

  lemma ProbeIgnoresRing<D>(k: Kernel<D>, l: Kernel<D>, op: Op<D>)
    requires k.pids == l.pids
    ensures Probe(k, op).pids == Probe(l, op).pids
  {
  }

  /** The map does not depend on the ring buffer, dropped records included. */
  lemma {:induction false} MapIgnoresRing<D>(k: Kernel<D>, h: seq<Op<D>>)
    requires k.pids == map[]
    ensures ProbeAll(k, h).pids == PidsAfter(h)
  {
    if h != [] {
      var p := h[..|h| - 1];
      MapIgnoresRing(k, p);
      ProbeIgnoresRing(ProbeAll(k, p), ProbeAll(Kernel(map[], [], 0), p), h[|h| - 1]);
    }
  }

  lemma OwnerSnoc<D>(h: seq<Op<D>>, op: Op<D>, d: D, p: u32)
    ensures Owner(h + [op], d, p) <==>
            if op == StreamOn(d, p) then HasRoom(PidsAfter(h), d)
            else !Ends(op, d, p) && Owner(h, d, p)
  {
    var g := h + [op];
    assert g[..|h|] == h && g[|h|] == op;
    if op == StreamOn(d, p) {
      assert OpenedAt(g, d, p, |h|);
      assert Ends(op, d, p);
    } else {
      if Owner(g, d, p) {
        var k: nat :| OpenedAt(g, d, p, k) && HasRoom(PidsAfter(g[..k]), d);
        assert g[..k] == h[..k];
        assert OpenedAt(h, d, p, k);
      }
      if !Ends(op, d, p) && Owner(h, d, p) {
        var k: nat :| OpenedAt(h, d, p, k) && HasRoom(PidsAfter(h[..k]), d);
        assert g[..k] == h[..k];
        assert OpenedAt(g, d, p, k);
      }
    }
  }

  /** For every probe sequence the map holds at most 64 entries, and it maps d to
      p exactly when p made the last streamon on d, its update found room, and
      nothing has ended it since. */
  lemma {:induction false} MapIsHistory<D(!new)>(h: seq<Op<D>>)
    ensures |PidsAfter(h)| <= 64
    ensures forall d, p :: Matches(PidsAfter(h), d, p) <==> Owner(h, d, p)
  {
    if h != [] {
      var g, op := h[..|h| - 1], h[|h| - 1];
      assert h == g + [op];
      MapIsHistory(g);
      PidsSnoc(g, op);
      var a, b := PidsAfter(g), PidsAfter(h);
      assert |b| <= MAP_ENTRIES by {
        assert op.StreamOn? && op.device in a ==> b.Keys == a.Keys;
        assert op.StreamOn? || b.Keys == a.Keys || b.Keys == a.Keys - {op.device};
        assert |a.Keys| == |a| && |b.Keys| == |b|;
      }
      forall d, p ensures Matches(b, d, p) <==> Owner(h, d, p) {
        OwnerSnoc(g, op, d, p);
        assert Matches(a, d, p) <==> Owner(g, d, p);
      }
    }
  }

  /** While no update has failed for lack of room, the map is the plain history
      of last streamons. */
  lemma MapIsLastStreamOn<D(!new)>(h: seq<Op<D>>)
    requires forall k :: 0 <= k < |h| && h[k].StreamOn? ==> HasRoom(PidsAfter(h[..k]), h[k].device)
    ensures forall d, p :: Matches(PidsAfter(h), d, p) <==> exists k: nat :: OpenedAt(h, d, p, k)
  {
    MapIsHistory(h);
    forall d, p ensures Matches(PidsAfter(h), d, p) <==> exists k: nat :: OpenedAt(h, d, p, k) {
      assert Matches(PidsAfter(h), d, p) <==> Owner(h, d, p);
      if k: nat :| OpenedAt(h, d, p, k) {
        assert HasRoom(PidsAfter(h[..k]), d);
      }
    }
  }

  // --- Release accounting ---

  /** Probe k is a release of d that decides to report an OFF. */
  predicate Reports<D(==)>(h: seq<Op<D>>, k: nat, d: D) {
    k < |h| && h[k].Release? && h[k].device == d && Matches(PidsAfter(h[..k]), d, h[k].pid)
  }

  lemma {:induction false} AbsentUntilStreamOn<D>(h: seq<Op<D>>, i: nat, j: nat, d: D)
    requires i <= j <= |h| && d !in PidsAfter(h[..i])
    requires forall m :: i <= m < j ==> !(h[m].StreamOn? && h[m].device == d)
    ensures d !in PidsAfter(h[..j])
    decreases j
  {
    if i < j {
      AbsentUntilStreamOn(h, i, j - 1, d);
      assert h[..j] == h[..j - 1] + [h[j - 1]];
      PidsSnoc(h[..j - 1], h[j - 1]);
    }
  }

  /** Once a release has reported an OFF for d, or d was streamed off, no later
      release reports one before the next streamon on d. */
  lemma ReleaseAccounting<D>(h: seq<Op<D>>, i: nat, j: nat, d: D)
    requires i < j && Reports(h, j, d)
    requires Reports(h, i, d) || (h[i].StreamOff? && h[i].device == d)
    ensures exists m :: i < m < j && h[m].StreamOn? && h[m].device == d
  {
    if forall m :: i < m < j ==> !(h[m].StreamOn? && h[m].device == d) {
      assert h[..i + 1] == h[..i] + [h[i]];
      PidsSnoc(h[..i], h[i]);
      AbsentUntilStreamOn(h, i + 1, j, d);
      assert false;
    }
  }
}

/** The probes as they update the shared map and ring buffer in place. */
module Tracker {
  import opened Events
  import opened TrackerSpec

  class KernelTracker {
    var streamingPid: map<string, u32>
    var ringbuf: seq<Record<string>>
    const room: nat

    ghost function State(): Kernel<string>
      reads this
    {
      Kernel(streamingPid, ringbuf, room)
    }

    constructor (room: nat)
      ensures State() == Kernel(map[], [], room)
    {
      streamingPid := map[];
      ringbuf := [];
      this.room := room;
    }

    /** A record that finds the buffer full is dropped without a trace. */
    method EmitEvent(name: string, kind: u32, source: u32, pid: u32)
      modifies this`ringbuf
      ensures State() == Emit(old(State()), Record(kind, source, pid, name))
    {
      if |ringbuf| >= room {
        return;
      }
      ringbuf := ringbuf + [Record(kind, source, pid, name)];
    }

    /** The result of the update is ignored. */
    method RecordStreamingPid(name: string, pid: u32)
      modifies this`streamingPid
      ensures streamingPid == RecordPid(old(streamingPid), name, pid)
    {
      if name in streamingPid || |streamingPid| < MAP_ENTRIES {
        streamingPid := streamingPid[name := pid];
      }
    }

    method ClearStreamingPid(name: string)
      modifies this`streamingPid
      ensures streamingPid == old(streamingPid) - {name}
    {
      streamingPid := streamingPid - {name};
    }

    method CheckStreamingPidAndClear(name: string, pid: u32) returns (found: bool)
      modifies this`streamingPid
      ensures found == Matches(old(streamingPid), name, pid)
      ensures streamingPid == if found then old(streamingPid) - {name} else old(streamingPid)
    {
      if name !in streamingPid {
        return false;
      }
      if streamingPid[name] != pid {
        return false;
      }
      streamingPid := streamingPid - {name};
      return true;
    }

    /** The name is None when the file or its name pointer is NULL. */
    method KprobeVb2IoctlStreamon(name: Option<string>, pid: u32)
      modifies this
      ensures State() == if name.None? then old(State()) else Probe(old(State()), StreamOn(name.value, pid))
    {
      if name.None? {
        return;
      }
      EmitEvent(name.value, RECORDING_ON, SOURCE_IOCTL, pid);
      RecordStreamingPid(name.value, pid);
    }

    method KprobeVb2IoctlStreamoff(name: Option<string>, pid: u32)
      modifies this
      ensures State() == if name.None? then old(State()) else Probe(old(State()), StreamOff(name.value, pid))
    {
      if name.None? {
        return;
      }
      EmitEvent(name.value, RECORDING_OFF, SOURCE_IOCTL, pid);
      ClearStreamingPid(name.value);
    }

    method KprobeVb2FopRelease(name: Option<string>, pid: u32)
      modifies this
      ensures State() == if name.None? then old(State()) else Probe(old(State()), Release(name.value, pid))
    {
      if name.None? {
        return;
      }
      var found := CheckStreamingPidAndClear(name.value, pid);
      if !found {
        return;
      }
      EmitEvent(name.value, RECORDING_OFF, SOURCE_FOP_RELEASE, pid);
    }
  }
}
