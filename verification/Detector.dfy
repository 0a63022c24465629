/** The bytes between the kernel and the reader: 32-byte device names, 44-byte
    ring-buffer records, and the loop that turns records into camera events
    (bpf/camera_detector_vb2_ioctl.bpf.c and camera_detector_vb2_ioctl.go). */
module Detector {
  import opened Events
  import opened TrackerSpec

  const DETECTOR_NAME := "EBPFVb2IoctlStreamDetector"
  const NAME_SIZE := 32
  const RECORD_SIZE := 44

  // --- Device names ---

  /** bpf_probe_read_kernel_str into dst: at most |dst| - 1 bytes of the name,
      then a NUL; the rest of dst keeps what it held. */
  function ReadKernelStr(dst: seq<u8>, name: seq<u8>): (r: seq<u8>)
    requires dst != []
    ensures |r| == |dst|
  {
    var n := if |name| < |dst| then |name| else |dst| - 1;
    name[..n] + [0] + dst[n + 1..]
  }

  /** The key of a device in streaming_pid: the name over a zeroed buffer. */
  function Key(name: seq<u8>): (r: seq<u8>)
    ensures |r| == NAME_SIZE
  {
    ReadKernelStr(seq(NAME_SIZE, _ => 0), name)
  }

  function Truncated(name: seq<u8>): seq<u8> {
    if |name| < NAME_SIZE then name else name[..NAME_SIZE - 1]
  }

  lemma {:induction false} CStringStops(a: seq<u8>, rest: seq<u8>)
    requires 0 !in a
    ensures CString(a + [0] + rest) == a
  {
    var s := a + [0] + rest;
    if a != [] {
      assert s[1..] == a[1..] + [0] + rest;
      CStringStops(a[1..], rest);
    }
  }

  lemma DecodedName(name: seq<u8>, garbage: seq<u8>)
    requires 0 !in name && |garbage| == NAME_SIZE
    ensures CString(ReadKernelStr(garbage, name)) == Truncated(name)
  {
    var t := Truncated(name);
    assert name[..|t|] == t;
    assert 0 !in t;
    CStringStops(t, garbage[|t| + 1..]);
  }

  /** The string decoded from a submitted name, char by char: its first 31 bytes. */
  lemma DecodedChars(name: seq<u8>, garbage: seq<u8>)
    requires 0 !in name && |garbage| == 32
    ensures var s := ByteSliceToString(ReadKernelStr(garbage, name));
            && |s| == (if |name| <= 31 then |name| else 31)
            && forall i :: 0 <= i < |s| ==> s[i] == name[i] as char
  {
    DecodedName(name, garbage);
  }

  /** Two devices share a streaming_pid key exactly when the reader decodes the
      same string from their records, whatever the record buffers held before,
      and exactly when their first 31 bytes agree. */
  lemma NameAgreement(a: seq<u8>, b: seq<u8>, g: seq<u8>, h: seq<u8>)
    requires 0 !in a && 0 !in b && |g| == |h| == NAME_SIZE
    ensures Key(a) == Key(b) <==> Truncated(a) == Truncated(b)
    ensures ByteSliceToString(ReadKernelStr(g, a)) == ByteSliceToString(ReadKernelStr(h, b))
            <==> Truncated(a) == Truncated(b)
  {
    var zeros := seq(NAME_SIZE, _ => 0 as u8);
    DecodedName(a, zeros);
    DecodedName(b, zeros);
    DecodedName(a, g);
    DecodedName(b, h);
    if ByteSliceToString(ReadKernelStr(g, a)) == ByteSliceToString(ReadKernelStr(h, b)) {
      GoStringInjective(Truncated(a), Truncated(b));
    }
  }

  // --- Records ---

  /** Native byte order on amd64: least significant byte first. */
  function U32Bytes(n: u32): (r: seq<u8>)
    ensures |r| == 4
  {
    var v := n as int;
    [(v % 0x100) as u8, (v / 0x100 % 0x100) as u8, (v / 0x1_0000 % 0x100) as u8, (v / 0x100_0000) as u8]
  }

  function U32At(b: seq<u8>, at: nat): u32
    requires at + 4 <= |b|
  {
    (b[at] as int + 0x100 * b[at + 1] as int + 0x1_0000 * b[at + 2] as int + 0x100_0000 * b[at + 3] as int) as u32
  }

  lemma U32RoundTrip(n: u32, before: seq<u8>, after: seq<u8>)
    ensures U32At(before + U32Bytes(n) + after, |before|) == n
  {
    var s, v := before + U32Bytes(n) + after, n as int;
    forall k | 0 <= k < 4 ensures s[|before| + k] == U32Bytes(n)[k] {
    }
    assert v / 0x1_0000 == v / 0x100 / 0x100 && v / 0x100_0000 == v / 0x1_0000 / 0x100;
  }

  /** struct camera_event as the kernel submits it, over an uncleared buffer. */
  function Encode(r: Record<seq<u8>>, garbage: seq<u8>): (b: seq<u8>)
    requires |garbage| == NAME_SIZE
    ensures |b| == RECORD_SIZE
  {
    U32Bytes(r.kind) + U32Bytes(r.source) + U32Bytes(r.pid) + ReadKernelStr(garbage, r.name)
  }

  /** binary.Read of the struct: an error when the sample is short. */
  function Decode(raw: seq<u8>): Option<Record<seq<u8>>> {
    if |raw| < RECORD_SIZE then None
    else Some(Record(U32At(raw, 0), U32At(raw, 4), U32At(raw, 8), raw[12..RECORD_SIZE]))
  }

  lemma DecodeEncode(r: Record<seq<u8>>, garbage: seq<u8>)
    requires |garbage| == NAME_SIZE
    ensures Decode(Encode(r, garbage)) == Some(r.(name := ReadKernelStr(garbage, r.name)))
  {
    var k, s, p, n := U32Bytes(r.kind), U32Bytes(r.source), U32Bytes(r.pid), ReadKernelStr(garbage, r.name);
    var b := Encode(r, garbage);
    assert b == [] + k + (s + p + n) && b == k + s + (p + n) && b == (k + s) + p + n;
    U32RoundTrip(r.kind, [], s + p + n);
    U32RoundTrip(r.source, k, p + n);
    U32RoundTrip(r.pid, k + s, n);
    assert b[12..RECORD_SIZE] == n;
  }

  /** The four bytes at this offset, least significant first, make up the value. */
  predicate LittleEndian(b: seq<u8>, at: nat, value: u32)
    requires at + 4 <= |b|
  {
    value as int == b[at] as int + 0x100 * b[at + 1] as int + 0x1_0000 * b[at + 2] as int + 0x100_0000 * b[at + 3] as int
  }

  /** struct camera_event on the bytes: the type at 0, the source at 4, the PID at 8
      and the name from 12, ended by a NUL. */
  lemma EncodedLayout(r: Record<seq<u8>>, garbage: seq<u8>)
    requires |garbage| == 32
    ensures var b, n := Encode(r, garbage), if |r.name| <= 31 then |r.name| else 31;
            && |b| == 44
            && LittleEndian(b, 0, r.kind) && LittleEndian(b, 4, r.source) && LittleEndian(b, 8, r.pid)
            && b[12..12 + n] == r.name[..n] && b[12 + n] == 0
  {
    var b := Encode(r, garbage);
    DecodeEncode(r, garbage);
    assert b[12..44] == ReadKernelStr(garbage, r.name);
    var n := if |r.name| <= 31 then |r.name| else 31;
    assert b[12..44][..n] == b[12..12 + n] && b[12..44][n] == b[12 + n];
  }

  // --- The reader loop ---

  /** What kill(pid, 0) answers. */
  datatype Liveness = Alive | NoSuchProcess | CheckFailed

  /** An OFF reported by a release counts only when its process is gone. */
  predicate Passes<D>(r: Record<D>, l: Liveness) {
    r.source == SOURCE_FOP_RELEASE ==> l == NoSuchProcess
  }

  function ToEvent(r: Record<string>): CameraEvent {
    CameraEvent(DETECTOR_NAME, r.kind, r.name, "", "")
  }

  /** The events sent for these samples, and whether a short one stopped the loop. */
  function ReadAll(raw: seq<seq<u8>>, live: seq<Liveness>): (seq<CameraEvent>, bool)
    requires |raw| == |live|
  {
    if raw == [] then ([], false) else
    var n := |raw| - 1;
    var (sent, failed) := ReadAll(raw[..n], live[..n]);
    var rec := Decode(raw[n]);
    if failed || rec.None? then (sent, true)
    else if Passes(rec.value, live[n])
    then (sent + [CameraEvent(DETECTOR_NAME, rec.value.kind, ByteSliceToString(rec.value.name), "", "")], false)
    else (sent, false)
  }

  lemma {:induction false} FailureIsFinal(raw: seq<seq<u8>>, live: seq<Liveness>, k: nat)
    requires |raw| == |live| && k <= |raw| && ReadAll(raw[..k], live[..k]).1
    ensures ReadAll(raw, live) == ReadAll(raw[..k], live[..k])
  {
    if k == |raw| {
      assert raw[..k] == raw && live[..k] == live;
    } else {
      var n := |raw| - 1;
      assert raw[..n][..k] == raw[..k] && live[..n][..k] == live[..k];
      FailureIsFinal(raw[..n], live[..n], k);
    }
  }

  lemma {:induction false} SentGrows(raw: seq<seq<u8>>, live: seq<Liveness>, k: nat)
    requires |raw| == |live| && k <= |raw|
    ensures ReadAll(raw[..k], live[..k]).0 <= ReadAll(raw, live).0
  {
    if k == |raw| {
      assert raw[..k] == raw && live[..k] == live;
    } else {
      var n := |raw| - 1;
      assert raw[..n][..k] == raw[..k] && live[..n][..k] == live[..k];
      SentGrows(raw[..n], live[..n], k);
    }
  }

  /** The same, cancelled at the first send after `stop` of them, which is no error. */
  function CutShort(r: (seq<CameraEvent>, bool), stop: nat): (seq<CameraEvent>, bool) {
    if |r.0| <= stop then r else (r.0[..stop], false)
  }

  predicate Increasing(idx: seq<nat>, end: nat) {
    && (forall i :: 0 <= i < |idx| ==> idx[i] < end)
    && forall i, j :: 0 <= i < j < |idx| ==> idx[i] < idx[j]
  }

  /** Of the samples before `end`, idx are each whose source is not 2, and each of
      source 2 whose process is gone. */
  ghost predicate Chosen(raw: seq<seq<u8>>, live: seq<Liveness>, idx: seq<nat>, end: nat)
    requires |raw| == |live| && end <= |raw| && forall k :: 0 <= k < end ==> |raw[k]| >= 44
  {
    forall k: nat :: k < end ==> (k in idx <==> U32At(raw[k], 4) != 2 || live[k] == NoSuchProcess)
  }

  /** idx are the places of the samples sent, in order, when `end` is that of the
      first short one. */
  ghost predicate Sends(raw: seq<seq<u8>>, live: seq<Liveness>, idx: seq<nat>, end: nat)
    requires |raw| == |live|
  {
    && end <= |raw| && (forall k :: 0 <= k < end ==> |raw[k]| >= 44) && (end < |raw| ==> |raw[end]| < 44)
    && Increasing(idx, end) && Chosen(raw, live, idx, end)
  }

  /** These are the events of the samples at these places: the type at 0 and the
      name from 12. */
  ghost predicate EventsAt(raw: seq<seq<u8>>, idx: seq<nat>, sent: seq<CameraEvent>) {
    && |sent| == |idx|
    && forall i :: 0 <= i < |idx| ==>
         idx[i] < |raw| && |raw[idx[i]]| >= 44 && sent[i] == EventOf(raw[idx[i]])
  }

  function EventOf(sample: seq<u8>): CameraEvent
    requires |sample| >= 44
  {
    CameraEvent("EBPFVb2IoctlStreamDetector", U32At(sample, 0), ByteSliceToString(sample[12..44]), "", "")
  }

  lemma SendsSnoc(raw: seq<seq<u8>>, live: seq<Liveness>, idx: seq<nat>, idx': seq<nat>)
    requires |raw| == |live| > 0
    requires var n := |raw| - 1;
             && |raw[n]| >= 44 && Sends(raw[..n], live[..n], idx, n)
             && idx' == if U32At(raw[n], 4) != 2 || live[n] == NoSuchProcess then idx + [n] else idx
    ensures Sends(raw, live, idx', |raw|)
  {
    var n := |raw| - 1;
    assert forall k :: 0 <= k < n ==> raw[..n][k] == raw[k] && live[..n][k] == live[k];
    assert n !in idx;
    forall k: nat | k < |raw| ensures k in idx' <==> U32At(raw[k], 4) != 2 || live[k] == NoSuchProcess {
      if k < n {
        assert k in idx' <==> k in idx;
      }
    }
  }

  lemma EventsAtSnoc(raw: seq<seq<u8>>, idx: seq<nat>, sent: seq<CameraEvent>, n: nat)
    requires n < |raw| && |raw[n]| >= 44 && EventsAt(raw[..n], idx, sent)
    ensures EventsAt(raw, idx, sent) && EventsAt(raw, idx + [n], sent + [EventOf(raw[n])])
  {
    forall i | 0 <= i < |idx| ensures raw[..n][idx[i]] == raw[idx[i]] {
    }
  }

  /** What one more sample adds, with the answers spelled out. */
  ghost predicate Follows(sample: seq<u8>, l: Liveness, before: (seq<CameraEvent>, bool), after: (seq<CameraEvent>, bool)) {
    if before.1 || |sample| < 44 then after == (before.0, true)
    else if U32At(sample, 4) != 2 || l == NoSuchProcess then after == (before.0 + [EventOf(sample)], false)
    else after == before
  }

  lemma ReadAllSnoc(raw: seq<seq<u8>>, live: seq<Liveness>)
    requires |raw| == |live| > 0
    ensures var n := |raw| - 1;
            Follows(raw[n], live[n], ReadAll(raw[..n], live[..n]), ReadAll(raw, live))
  {
  }

  lemma SentSnoc(raw: seq<seq<u8>>, live: seq<Liveness>, p: seq<nat>, e: nat,
                 before: (seq<CameraEvent>, bool), after: (seq<CameraEvent>, bool))
    returns (idx: seq<nat>, end: nat)
    requires |raw| == |live| > 0 && Follows(raw[|raw| - 1], live[|raw| - 1], before, after)
    requires var n := |raw| - 1;
             Sends(raw[..n], live[..n], p, e) && EventsAt(raw[..n], p, before.0) && (before.1 <==> e < n)
    ensures Sends(raw, live, idx, end) && EventsAt(raw, idx, after.0) && (after.1 <==> end < |raw|)
  {
    var n := |raw| - 1;
    if before.1 || |raw[n]| < 44 {
      idx, end := p, e;
      SendsShort(raw, live, p, e);
      EventsAtPrefix(raw, p, before.0, n);
    } else {
      idx, end := if U32At(raw[n], 4) != 2 || live[n] == NoSuchProcess then p + [n] else p, n + 1;
      SendsSnoc(raw, live, p, idx);
      EventsAtSnoc(raw, p, before.0, n);
    }
  }

  /** The samples whose events the loop sends, with the answers spelled out. */
  lemma {:induction false} SentExactly(raw: seq<seq<u8>>, live: seq<Liveness>) returns (idx: seq<nat>, end: nat)
    requires |raw| == |live|
    ensures Sends(raw, live, idx, end) && EventsAt(raw, idx, ReadAll(raw, live).0)
    ensures ReadAll(raw, live).1 <==> end < |raw|
  {
    if raw == [] {
      idx, end := [], 0;
    } else {
      var n := |raw| - 1;
      var p, e := SentExactly(raw[..n], live[..n]);
      ReadAllSnoc(raw, live);
      idx, end := SentSnoc(raw, live, p, e, ReadAll(raw[..n], live[..n]), ReadAll(raw, live));
    }
  }

  /** After a short sample nothing more is read. */
  lemma SendsShort(raw: seq<seq<u8>>, live: seq<Liveness>, idx: seq<nat>, end: nat)
    requires |raw| == |live| > 0 && Sends(raw[..|raw| - 1], live[..|raw| - 1], idx, end)
    requires end < |raw| - 1 || |raw[|raw| - 1]| < 44
    ensures Sends(raw, live, idx, end)
  {
    var n := |raw| - 1;
    assert forall k :: 0 <= k < n ==> raw[..n][k] == raw[k] && live[..n][k] == live[k];
  }

  lemma EventsAtPrefix(raw: seq<seq<u8>>, idx: seq<nat>, sent: seq<CameraEvent>, n: nat)
    requires n <= |raw| && EventsAt(raw[..n], idx, sent)
    ensures EventsAt(raw, idx, sent)
  {
    forall i | 0 <= i < |idx| ensures raw[..n][idx[i]] == raw[idx[i]] {
    }
  }

  lemma EventsAtCut(raw: seq<seq<u8>>, idx: seq<nat>, sent: seq<CameraEvent>, stop: nat)
    requires EventsAt(raw, idx, sent) && stop <= |idx|
    ensures EventsAt(raw, idx[..stop], sent[..stop])
  {
  }

  /** What a loop did that sent this and failed or not: all of the samples it has to
      send, or the first `stop` of them. */
  ghost predicate Sent(raw: seq<seq<u8>>, live: seq<Liveness>, stop: nat, sent: seq<CameraEvent>, failed: bool)
    requires |raw| == |live|
  {
    exists idx: seq<nat>, end: nat :: Sends(raw, live, idx, end) &&
      if |idx| <= stop then EventsAt(raw, idx, sent) && (failed <==> end < |raw|)
      else EventsAt(raw, idx[..stop], sent) && !failed
  }

  lemma CutExactly(raw: seq<seq<u8>>, live: seq<Liveness>, stop: nat, sent: seq<CameraEvent>, failed: bool)
    requires |raw| == |live| && (sent, failed) == CutShort(ReadAll(raw, live), stop)
    ensures Sent(raw, live, stop, sent, failed)
  {
    var idx, end := SentExactly(raw, live);
    if |idx| > stop {
      EventsAtCut(raw, idx, ReadAll(raw, live).0, stop);
    }
  }

  /** The read loop until the ring buffer is closed, or until the select around a
      send takes ctx.Done, which `stop` sends precede (at least as many as there
      are events when it never does). */
  method ReadLoop(raw: seq<seq<u8>>, live: seq<Liveness>, stop: nat) returns (sent: seq<CameraEvent>, failed: bool)
    requires |raw| == |live|
    ensures (sent, failed) == CutShort(ReadAll(raw, live), stop)
    ensures Sent(raw, live, stop, sent, failed)
  {
    sent := [];
    for k := 0 to |raw|
      invariant (sent, false) == ReadAll(raw[..k], live[..k]) && |sent| <= stop
    {
      assert raw[..k + 1][..k] == raw[..k] && live[..k + 1][..k] == live[..k];
      var rec := Decode(raw[k]);
      if rec.None? {
        FailureIsFinal(raw, live, k + 1);
        CutExactly(raw, live, stop, sent, true);
        return sent, true;
      }
      var devName := ByteSliceToString(rec.value.name);
      if rec.value.source == SOURCE_FOP_RELEASE {
        if live[k] == Alive {
          continue;
        } else if live[k] == NoSuchProcess {
        } else {
          continue;
        }
      }
      if |sent| == stop {
        SentGrows(raw, live, k + 1);
        assert sent <= ReadAll(raw[..k + 1], live[..k + 1]).0;
        assert sent == ReadAll(raw, live).0[..stop];
        CutExactly(raw, live, stop, sent, false);
        return sent, false;
      }
      sent := sent + [CameraEvent(DETECTOR_NAME, rec.value.kind, devName, "", "")];
    }
    failed := false;
    assert raw[..|raw|] == raw && live[..|live|] == live;
    CutExactly(raw, live, stop, sent, failed);
  }

  /** The events the records stand for, with names as the kernel cuts them. */
  function Delivered(records: seq<Record<seq<u8>>>, live: seq<Liveness>): seq<CameraEvent>
    requires |records| == |live|
  {
    if records == [] then [] else
    var n := |records| - 1;
    var r := records[n];
    var rest := Delivered(records[..n], live[..n]);
    if Passes(r, live[n])
    then rest + [ToEvent(Record(r.kind, r.source, r.pid, GoString(Truncated(r.name))))] else rest
  }

  ghost predicate Submitted(raw: seq<u8>, r: Record<seq<u8>>) {
    0 !in r.name && exists g: seq<u8> :: |g| == NAME_SIZE && raw == Encode(r, g)
  }

  /** On samples the kernel submitted, whatever garbage their buffers held, the
      loop never fails and sends exactly the events of the records that pass. */
  lemma {:induction false} RecordsDelivered(raw: seq<seq<u8>>, records: seq<Record<seq<u8>>>, live: seq<Liveness>)
    requires |raw| == |records| == |live|
    requires forall k :: 0 <= k < |raw| ==> Submitted(raw[k], records[k])
    ensures ReadAll(raw, live) == (Delivered(records, live), false)
  {
    if raw != [] {
      var n := |raw| - 1;
      RecordsDelivered(raw[..n], records[..n], live[..n]);
      var g: seq<u8> :| |g| == NAME_SIZE && raw[n] == Encode(records[n], g);
      DecodeEncode(records[n], g);
      DecodedName(records[n].name, g);
    }
  }

  /** What the reader sees of a submitted record. */
  lemma SubmittedFields(raw: seq<u8>, r: Record<seq<u8>>)
    requires Submitted(raw, r)
    ensures |raw| == 44 && U32At(raw, 0) == r.kind && U32At(raw, 4) == r.source
    ensures ByteSliceToString(raw[12..44]) == GoString(Truncated(r.name))
  {
    var g: seq<u8> :| |g| == NAME_SIZE && raw == Encode(r, g);
    DecodeEncode(r, g);
    DecodedName(r.name, g);
  }

  /** On samples the kernel submitted, record by record: the loop sends, in order,
      the event of each record that is not of a release, and of each release whose
      process is gone, and no other. */
  lemma DeliveredExactly(raw: seq<seq<u8>>, records: seq<Record<seq<u8>>>, live: seq<Liveness>)
    returns (idx: seq<nat>)
    requires |raw| == |records| == |live|
    requires forall k :: 0 <= k < |raw| ==> Submitted(raw[k], records[k])
    ensures var (sent, failed) := ReadAll(raw, live);
            && !failed && |sent| == |idx| && Increasing(idx, |raw|)
            && (forall k: nat :: k < |raw| ==> (k in idx <==> records[k].source != 2 || live[k] == NoSuchProcess))
            && forall i :: 0 <= i < |idx| ==>
                 sent[i] == CameraEvent("EBPFVb2IoctlStreamDetector", records[idx[i]].kind,
                                        GoString(Truncated(records[idx[i]].name)), "", "")
  {
    var end;
    idx, end := SentExactly(raw, live);
    forall k | 0 <= k < |raw|
      ensures |raw[k]| == 44 && U32At(raw[k], 0) == records[k].kind && U32At(raw[k], 4) == records[k].source
      ensures ByteSliceToString(raw[k][12..44]) == GoString(Truncated(records[k].name))
    {
      SubmittedFields(raw[k], records[k]);
    }
  }
}
