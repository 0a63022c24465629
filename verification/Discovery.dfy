/** V4L2DiscoverDevices (v4l2_camera_discoverer.go): collects candidate paths,
    resolves symlinks and does not query again a canonical path already found. */
module Discovery {
  import opened Events
  import opened Capability

  datatype Directory = Entries(names: seq<string>) | NotExist | ReadError

  /** What the file system, the drivers and the sort routine answer. */
  datatype Host = Host(
    byId: Directory, dev: Directory,
    resolve: string -> Option<string>,
    query: string -> QueryResult,
    sort: seq<string> -> seq<string>)

  datatype Discovered = Devices(found: map<string, V4L2Capability>) | Failed

  const BY_ID := "/dev/v4l/by-id"
  const DEV := "/dev"
  const VIDEO := "video"

  // --- Paths ---

  function TrimSlashes(p: string): string {
    if p != [] && p[|p| - 1] == '/' then TrimSlashes(p[..|p| - 1]) else p
  }

  function AfterLastSlash(p: string): string {
    if p == [] || p[|p| - 1] == '/' then [] else AfterLastSlash(p[..|p| - 1]) + [p[|p| - 1]]
  }

  /** filepath.Base. */
  function Base(p: string): string {
    if p == [] then "." else
    var b := AfterLastSlash(TrimSlashes(p));
    if b == [] then "/" else b
  }

  /** filepath.Join for a directory entry, whose name has no separator. */
  function Join(dir: string, name: string): string {
    dir + "/" + name
  }

  function Canonical(h: Host, candidate: string): string {
    if h.resolve(candidate).Some? then h.resolve(candidate).value else candidate
  }

  // --- The plain comprehension ---

  function ByIdPaths(h: Host): set<string> {
    if h.byId.Entries? then set n | n in h.byId.names :: Join(BY_ID, n) else {}
  }

  function DevPaths(h: Host): set<string> {
    if h.dev.Entries? then set n | n in h.dev.names && VIDEO <= n :: Join(DEV, n) else {}
  }

  predicate IsCaptureName(h: Host, name: string) {
    h.query(name).Queried? && IsCapture(h.query(name).capability)
  }

  /** The capture devices that these paths lead to, under their base names. */
  function CaptureDevices(h: Host, paths: set<string>): map<string, V4L2Capability> {
    var names := set p | p in paths && IsCaptureName(h, Base(Canonical(h, p))) :: Base(Canonical(h, p));
    map n | n in names && IsCaptureName(h, n) :: h.query(n).capability
  }

  function Elements(s: seq<string>): set<string> {
    set p | p in s
  }

  lemma CaptureDevicesSnoc(h: Host, paths: seq<string>, p: string)
    ensures CaptureDevices(h, Elements(paths + [p])) ==
            var n := Base(Canonical(h, p));
            if IsCaptureName(h, n) then CaptureDevices(h, Elements(paths))[n := h.query(n).capability]
            else CaptureDevices(h, Elements(paths))
  {
    assert Elements(paths + [p]) == Elements(paths) + {p};
  }

  /** The device of this canonical path is among the results already. */
  predicate Found(h: Host, results: map<string, V4L2Capability>, canonical: string) {
    var name := Base(canonical);
    IsCaptureName(h, name) && name in results && results[name] == h.query(name).capability
  }

  lemma FoundStays(h: Host, results: map<string, V4L2Capability>, seen: set<string>, canonical: string)
    requires IsCaptureName(h, Base(canonical)) && forall c :: c in seen ==> Found(h, results, c)
    ensures forall c :: c in seen + {canonical} ==>
              Found(h, results[Base(canonical) := h.query(Base(canonical)).capability], c)
  {
  }

  /** The loop over the candidates: its map is the comprehension over the set of
      them, so neither their order nor repetitions show. */
  method Scan(h: Host, candidates: seq<string>) returns (results: map<string, V4L2Capability>)
    ensures results == CaptureDevices(h, Elements(candidates))
  {
    results := map[];
    var seenCanonical: set<string> := {};
    for k := 0 to |candidates|
      invariant results == CaptureDevices(h, Elements(candidates[..k]))
      invariant forall c :: c in seenCanonical ==> Found(h, results, c)
    {
      assert candidates[..k + 1] == candidates[..k] + [candidates[k]];
      CaptureDevicesSnoc(h, candidates[..k], candidates[k]);
      var canonical := candidates[k];
      var resolved := h.resolve(candidates[k]);
      if resolved.Some? {
        canonical := resolved.value;
      }
      if canonical in seenCanonical {
        assert Found(h, results, canonical);
        assert results[Base(canonical) := h.query(Base(canonical)).capability] == results;
        continue;
      }
      var capability := h.query(Base(canonical));
      if capability.QueryFailed? {
        continue;
      }
      var capture := HasCapabilities(capability.capability, [V4L2_CAP_VIDEO_CAPTURE]);
      if !capture {
        continue;
      }
      FoundStays(h, results, seenCanonical, canonical);
      results := results[Base(canonical) := capability.capability];
      seenCanonical := seenCanonical + {canonical};
    }
    assert candidates[..|candidates|] == candidates;
  }

  method Collect(dir: string, names: seq<string>, prefix: string) returns (paths: seq<string>)
    ensures Elements(paths) == set n | n in names && prefix <= n :: Join(dir, n)
  {
    paths := [];
    for k := 0 to |names|
      invariant Elements(paths) == set n | n in names[..k] && prefix <= n :: Join(dir, n)
    {
      assert names[..k + 1] == names[..k] + [names[k]];
      if prefix <= names[k] {
        assert Elements(paths + [Join(dir, names[k])]) == Elements(paths) + {Join(dir, names[k])};
        paths := paths + [Join(dir, names[k])];
      }
    }
    assert names[..|names|] == names;
  }

  /** Entry `name` of the directory is or points to a node of this base name. */
  predicate LeadsTo(h: Host, dir: string, name: string, node: string) {
    var path := dir + "/" + name;
    Base(if h.resolve(path).Some? then h.resolve(path).value else path) == node
  }

  /** On the answers of the host: a node is returned exactly when some entry of
      by-id, or one of /dev named video..., is or points to it, its query succeeds
      and it captures video; and with what that query returned. */
  ghost predicate ReturnsNode(h: Host, found: map<string, V4L2Capability>, node: string) {
    && (node in found <==>
          && h.query(node).Queried? && IsCapture(h.query(node).capability)
          && ((h.byId.Entries? && exists e :: e in h.byId.names && LeadsTo(h, "/dev/v4l/by-id", e, node))
              || (h.dev.Entries? && exists e :: e in h.dev.names && "video" <= e && LeadsTo(h, "/dev", e, node))))
    && (node in found ==> h.query(node) == Queried(found[node]))
  }

  lemma ReturnsExactly(h: Host, node: string)
    ensures ReturnsNode(h, CaptureDevices(h, ByIdPaths(h) + DevPaths(h)), node)
  {
    var found := CaptureDevices(h, ByIdPaths(h) + DevPaths(h));
    if h.byId.Entries? {
      forall e | e in h.byId.names && LeadsTo(h, "/dev/v4l/by-id", e, node)
        ensures Join(BY_ID, e) in ByIdPaths(h) && Base(Canonical(h, Join(BY_ID, e))) == node
      {
      }
    }
    if h.dev.Entries? {
      forall e | e in h.dev.names && "video" <= e && LeadsTo(h, "/dev", e, node)
        ensures Join(DEV, e) in DevPaths(h) && Base(Canonical(h, Join(DEV, e))) == node
      {
      }
    }
    FoundExactly(h, ByIdPaths(h) + DevPaths(h), node);
  }

  /** An entry of /dev that is no link and captures video is found under its name. */
  lemma PlainNodeIsFound(h: Host, found: map<string, V4L2Capability>, name: string)
    requires ReturnsNode(h, found, name)
    requires h.dev.Entries? && name in h.dev.names && "video" <= name && '/' !in name
    requires h.resolve("/dev/" + name).None? || h.resolve("/dev/" + name) == Some("/dev/" + name)
    ensures name in found <==> h.query(name).Queried? && IsCapture(h.query(name).capability)
  {
    BaseOfJoin("/dev", name);
    assert "/dev" + "/" + name == "/dev/" + name;
    assert LeadsTo(h, "/dev", name, name);
  }

  /** Discovery fails exactly when /dev cannot be listed, or by-id exists and
      cannot; otherwise it returns the plain comprehension over both. */
  method V4L2DiscoverDevices(h: Host) returns (r: Discovered)
    requires forall s :: multiset(h.sort(s)) == multiset(s)
    ensures r == if h.byId.ReadError? || !h.dev.Entries? then Failed
                 else Devices(CaptureDevices(h, ByIdPaths(h) + DevPaths(h)))
    ensures r.Devices? ==> forall node :: ReturnsNode(h, r.found, node)
  {
    var candidates: seq<string> := [];
    if h.byId.ReadError? {
      return Failed;
    }
    if h.byId.Entries? {
      candidates := Collect(BY_ID, h.byId.names, "");
    }
    assert Elements(candidates) == ByIdPaths(h);
    if !h.dev.Entries? {
      return Failed;
    }
    var devPaths := Collect(DEV, h.dev.names, VIDEO);
    var all := candidates + devPaths;
    assert Elements(all) == Elements(candidates) + Elements(devPaths);
    var sorted := h.sort(all);
    assert forall p :: p in sorted <==> p in multiset(sorted);
    assert forall p :: p in all <==> p in multiset(all);
    assert Elements(sorted) == Elements(all);
    var results := Scan(h, sorted);
    forall node ensures ReturnsNode(h, results, node) {
      ReturnsExactly(h, node);
    }
    return Devices(results);
  }

  /** Reading the comprehension: a device is found exactly when some path leads
      to a canonical path with its base name and it is a capture device. */
  lemma FoundExactly(h: Host, paths: set<string>, name: string)
    ensures name in CaptureDevices(h, paths) <==>
            h.query(name).Queried? && IsCapture(h.query(name).capability)
            && exists p :: p in paths && Base(Canonical(h, p)) == name
    ensures name in CaptureDevices(h, paths) ==> CaptureDevices(h, paths)[name] == h.query(name).capability
  {
  }

  lemma {:induction false} AfterLastSlashJoin(dir: string, name: string)
    requires '/' !in name
    ensures AfterLastSlash(dir + "/" + name) == name
  {
    var p := dir + "/";
    if name == [] {
      assert p + name == p && p[|p| - 1] == '/';
    } else {
      var n := |name| - 1;
      assert (p + name)[..|p + name| - 1] == p + name[..n] && (p + name)[|p + name| - 1] == name[n];
      assert name[n] in name && name == name[..n] + [name[n]];
      AfterLastSlashJoin(dir, name[..n]);
    }
  }

  lemma BaseOfJoin(dir: string, name: string)
    requires name != [] && '/' !in name
    ensures Base(Join(dir, name)) == name
  {
    var p := Join(dir, name);
    AfterLastSlashJoin(dir, name);
    assert p[|p| - 1] == name[|name| - 1] && name[|name| - 1] in name;
    assert TrimSlashes(p) == p;
  }

  /** And of the same path with slashes after it. */
  lemma {:induction false} BaseTrims(dir: string, name: string, slashes: string)
    requires name != [] && '/' !in name && forall k :: 0 <= k < |slashes| ==> slashes[k] == '/'
    ensures Base(Join(dir, name) + slashes) == name
  {
    if slashes == [] {
      assert Join(dir, name) + slashes == Join(dir, name);
      BaseOfJoin(dir, name);
    } else {
      var n := |slashes| - 1;
      var p := Join(dir, name) + slashes;
      assert p[..|p| - 1] == Join(dir, name) + slashes[..n] && p[|p| - 1] == slashes[n];
      BaseTrims(dir, name, slashes[..n]);
    }
  }
}
