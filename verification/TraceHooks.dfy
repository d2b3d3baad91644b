/** The rescan loop that hooks every trace source once (scratch/ntn-iab-quic-dash.cc, 350-396;
    scratch/ntn-iab-tcp-dash.cc, 298-333). */
module TraceHooks {
  import opened Wrappers
  import TracePaths

  const MAX_RETRIES: nat := 60
  const MAX_SOCKETS_PER_NODE: nat := 64

  /** The paths hooked so far, and the calls that connected a source. */
  datatype Hooks = Hooks(hooked: set<string>, connects: seq<string>)

  /** What a rescan works on: the paths it goes through, and the paths that lead to a source at that time. */
  datatype Scene = Scene(paths: seq<string>, sources: set<string>)

  function MetricCount(p: TracePaths.Protocol): nat {
    match p
    case Quic => 3
    case Tcp => 2
  }

  function MetricName(i: nat): string {
    if i == 0 then "CongestionWindow" else if i == 1 then "RTT" else "Rx"
  }

  /** How a program writes the path of (node, socket, metric). */
  type Naming = (nat, nat, nat) -> string

  function PathsOf(p: TracePaths.Protocol): Naming {
    (node: nat, socket: nat, i: nat) => TracePaths.Path(p, node, socket, MetricName(i))
  }

  /** The lists of a loop's first k rounds, one after the other. */
  function Rounds(k: nat, list: nat -> seq<string>): seq<string> {
    if k == 0 then [] else Rounds(k - 1, list) + list(k - 1)
  }

  function OfMetric(path: Naming, node: nat, socket: nat): nat -> seq<string> {
    (i: nat) => [path(node, socket, i)]
  }

  function OfSocket(path: Naming, metrics: nat, node: nat): nat -> seq<string> {
    (socket: nat) => Rounds(metrics, OfMetric(path, node, socket))
  }

  function OfNode(path: Naming, metrics: nat): nat -> seq<string> {
    (node: nat) => Rounds(MAX_SOCKETS_PER_NODE, OfSocket(path, metrics, node))
  }

  /** All that one rescan goes through, in its order. */
  function ScanList(p: TracePaths.Protocol, nodes: nat): seq<string> {
    Rounds(nodes, OfNode(PathsOf(p), MetricCount(p)))
  }

  function Hook(h: Hooks, sources: set<string>, path: string): Hooks {
    if path !in h.hooked && path in sources then Hooks(h.hooked + {path}, h.connects + [path]) else h
  }

  function HookAll(h: Hooks, sources: set<string>, paths: seq<string>): Hooks {
    if |paths| == 0 then h
    else Hook(HookAll(h, sources, paths[..|paths| - 1]), sources, paths[|paths| - 1])
  }

  function NextRetry(retryCount: nat): Option<nat> {
    if retryCount < MAX_RETRIES then Some(retryCount + 1) else None
  }

  class HookTable {
    const path: Naming
    const metrics: nat
    var hooked: set<string>
    var connects: seq<string>

    function State(): Hooks
      reads this
    {
      Hooks(hooked, connects)
    }

    constructor (protocol: TracePaths.Protocol)
      ensures path == PathsOf(protocol) && metrics == MetricCount(protocol) && State() == Hooks({}, [])
    {
      path, metrics := PathsOf(protocol), MetricCount(protocol);
      hooked, connects := {}, [];
    }

    /** Connecting fails, without harm, where the path leads to no source. */
    method ConnectFailSafe(path: string, sources: set<string>) returns (ok: bool)
      modifies this`connects
      ensures ok == (path in sources)
      ensures connects == if ok then old(connects) + [path] else old(connects)
    {
      ok := path in sources;
      if ok {
        connects := connects + [path];
      }
    }

    method HookSocket(node: nat, socket: nat, sources: set<string>)
      modifies this
      ensures State() == HookAll(old(State()), sources, Rounds(metrics, OfMetric(path, node, socket)))
    {
      var list := OfMetric(path, node, socket);
      for i := 0 to metrics
        invariant State() == HookAll(old(State()), sources, Rounds(i, list))
      {
        var candidate := path(node, socket, i);
        HookOneMore(old(State()), sources, Rounds(i, list), candidate);
        if candidate !in hooked {
          var ok := ConnectFailSafe(candidate, sources);
          if ok {
            hooked := hooked + {candidate};
          }
        }
      }
    }

    method HookNode(node: nat, sources: set<string>)
      modifies this
      ensures State() == HookAll(old(State()), sources, Rounds(MAX_SOCKETS_PER_NODE, OfSocket(path, metrics, node)))
    {
      var list := OfSocket(path, metrics, node);
      for s := 0 to MAX_SOCKETS_PER_NODE
        invariant State() == HookAll(old(State()), sources, Rounds(s, list))
      {
        HookAllAppend(old(State()), sources, Rounds(s, list), list(s));
        HookSocket(node, s, sources);
      }
    }

    /** One rescan: what it hooks, and the rescan it schedules. */
    method ConnectLayerTracesWithRetry(retryCount: nat, nodes: nat, sources: set<string>) returns (next: Option<nat>)
      modifies this
      ensures State() == HookAll(old(State()), sources, Rounds(nodes, OfNode(path, metrics)))
      ensures next == NextRetry(retryCount)
    {
      var list := OfNode(path, metrics);
      for n := 0 to nodes
        invariant State() == HookAll(old(State()), sources, Rounds(n, list))
      {
        HookAllAppend(old(State()), sources, Rounds(n, list), list(n));
        HookNode(n, sources);
      }
      return NextRetry(retryCount);
    }
  }

  lemma HookOneMore(h: Hooks, sources: set<string>, paths: seq<string>, path: string)
    ensures HookAll(h, sources, paths + [path]) == Hook(HookAll(h, sources, paths), sources, path)
  {
    assert (paths + [path])[..|paths|] == paths;
  }

  lemma {:induction false} HookAllAppend(h: Hooks, sources: set<string>, a: seq<string>, b: seq<string>)
    ensures HookAll(h, sources, a + b) == HookAll(HookAll(h, sources, a), sources, b)
  {
    if |b| == 0 {
      assert a + b == a;
    } else {
      HookAllAppend(h, sources, a, b[..|b| - 1]);
      assert (a + b)[..|a + b| - 1] == a + b[..|b| - 1];
    }
  }

  // ---------- One rescan ----------

  ghost predicate Distinct(s: seq<string>) {
    forall i, j :: 0 <= i < j < |s| ==> s[i] != s[j]
  }

  /** The hooked paths are the connected ones, and none was connected twice. */
  ghost predicate Valid(h: Hooks) {
    Distinct(h.connects) && forall path :: path in h.hooked <==> path in h.connects
  }

  lemma {:induction false} HookAllHooks(h: Hooks, sources: set<string>, paths: seq<string>)
    requires Valid(h)
    ensures Valid(HookAll(h, sources, paths))
    ensures forall path :: path in HookAll(h, sources, paths).hooked <==>
              path in h.hooked || (path in paths && path in sources)
  {
    if |paths| == 0 {
    } else {
      var front, last := paths[..|paths| - 1], paths[|paths| - 1];
      HookAllHooks(h, sources, front);
      assert forall path :: path in paths <==> path in front || path == last;
    }
  }

  datatype Source = Source(node: nat, socket: nat, metric: nat)

  lemma {:induction false} RoundsHold(k: nat, list: nat -> seq<string>, i: nat, x: string)
    requires i < k && x in list(i)
    ensures x in Rounds(k, list)
  {
    if i == k - 1 {
    } else {
      RoundsHold(k - 1, list, i, x);
    }
  }

  lemma {:induction false} RoundOf(k: nat, list: nat -> seq<string>, x: string) returns (i: nat)
    requires x in Rounds(k, list)
    ensures i < k && x in list(i)
  {
    if x in list(k - 1) {
      i := k - 1;
    } else {
      i := RoundOf(k - 1, list, x);
    }
  }

  /** Every source numbered below the limits is on the list ... */
  lemma SourceListed(p: TracePaths.Protocol, nodes: nat, s: Source)
    requires s.node < nodes && s.socket < MAX_SOCKETS_PER_NODE && s.metric < MetricCount(p)
    ensures PathsOf(p)(s.node, s.socket, s.metric) in ScanList(p, nodes)
  {
    var path, metrics := PathsOf(p), MetricCount(p);
    var x := path(s.node, s.socket, s.metric);
    RoundsHold(metrics, OfMetric(path, s.node, s.socket), s.metric, x);
    RoundsHold(MAX_SOCKETS_PER_NODE, OfSocket(path, metrics, s.node), s.socket, x);
    RoundsHold(nodes, OfNode(path, metrics), s.node, x);
  }

  /** ... and nothing else is. */
  lemma ListedIsSource(p: TracePaths.Protocol, nodes: nat, x: string) returns (s: Source)
    ensures x in ScanList(p, nodes) ==>
              && s.node < nodes && s.socket < MAX_SOCKETS_PER_NODE && s.metric < MetricCount(p)
              && x == PathsOf(p)(s.node, s.socket, s.metric)
  {
    if x in ScanList(p, nodes) {
      var node := RoundOf(nodes, OfNode(PathsOf(p), MetricCount(p)), x);
      s := ListedOnNode(PathsOf(p), MetricCount(p), node, MAX_SOCKETS_PER_NODE, x);
    } else {
      s := Source(0, 0, 0);
    }
  }

  lemma ListedOnNode(path: Naming, metrics: nat, node: nat, sockets: nat, x: string) returns (s: Source)
    requires x in Rounds(sockets, OfSocket(path, metrics, node))
    ensures s.node == node && s.socket < sockets && s.metric < metrics && x == path(node, s.socket, s.metric)
  {
    var socket := RoundOf(sockets, OfSocket(path, metrics, node), x);
    var i := RoundOf(metrics, OfMetric(path, node, socket), x);
    s := Source(node, socket, i);
  }

  // ---------- All rescans ----------

  /** The rescan that is scheduled next, if one is, and how many have run. */
  datatype Rescans = Rescans(hooks: Hooks, next: Option<nat>, run: nat)

  function Rescan(r: Rescans, scene: Scene): Rescans {
    match r.next
    case None => r
    case Some(k) => Rescans(HookAll(r.hooks, scene.sources, scene.paths), NextRetry(k), r.run + 1)
  }

  /** The first rescan is scheduled by the set-up code; each one schedules the next. */
  function AfterRescans(scenes: seq<Scene>): Rescans {
    if |scenes| == 0 then Rescans(Hooks({}, []), Some(0), 0)
    else Rescan(AfterRescans(scenes[..|scenes| - 1]), scenes[|scenes| - 1])
  }

  ghost predicate FoundAt(scenes: seq<Scene>, k: nat, path: string) {
    k < |scenes| && k <= MAX_RETRIES && path in scenes[k].paths && path in scenes[k].sources
  }

  /** One of the rescans finds a source at this path. */
  ghost predicate Found(scenes: seq<Scene>, path: string) {
    exists k: nat :: FoundAt(scenes, k, path)
  }

  /** The rescans so far hooked what they found and nothing else, no source twice; there are 61 in all. */
  ghost predicate HookedSoFar(r: Rescans, scenes: seq<Scene>) {
    && r.run == (if |scenes| <= MAX_RETRIES then |scenes| else MAX_RETRIES + 1)
    && r.next == (if |scenes| <= MAX_RETRIES then Some(|scenes|) else None)
    && Valid(r.hooks)
    && forall path :: path in r.hooks.hooked <==> Found(scenes, path)
  }

  lemma FoundLater(before: seq<Scene>, scene: Scene, path: string)
    ensures Found(before + [scene], path) <==>
            Found(before, path) || (|before| <= MAX_RETRIES && path in scene.paths && path in scene.sources)
  {
    var scenes := before + [scene];
    if Found(before, path) {
      var k: nat :| FoundAt(before, k, path);
      assert FoundAt(scenes, k, path);
    }
    if Found(scenes, path) {
      var k: nat :| FoundAt(scenes, k, path);
      assert k < |before| ==> FoundAt(before, k, path);
    }
    assert scenes[|before|] == scene;
    assert |before| <= MAX_RETRIES && path in scene.paths && path in scene.sources ==> FoundAt(scenes, |before|, path);
  }

  lemma OneMoreRescan(r: Rescans, before: seq<Scene>, scene: Scene)
    requires HookedSoFar(r, before)
    ensures HookedSoFar(Rescan(r, scene), before + [scene])
  {
    HookAllHooks(r.hooks, scene.sources, scene.paths);
    forall path ensures Found(before + [scene], path) <==>
        Found(before, path) || (|before| <= MAX_RETRIES && path in scene.paths && path in scene.sources)
    {
      FoundLater(before, scene, path);
    }
  }

  /** There are exactly 61 rescans, however long the simulation goes on. What they hook is exactly what one of
      them found, and no source is hooked twice. */
  lemma {:induction false} RescansHook(scenes: seq<Scene>)
    ensures HookedSoFar(AfterRescans(scenes), scenes)
  {
    if |scenes| == 0 {
    } else {
      var n := |scenes| - 1;
      RescansHook(scenes[..n]);
      OneMoreRescan(AfterRescans(scenes[..n]), scenes[..n], scenes[n]);
      assert scenes[..n] + [scenes[n]] == scenes;
    }
  }

  /** What the simulation holds when a rescan runs: the number of nodes, and the paths that lead to a source. */
  datatype Find = Find(nodes: nat, sources: set<string>)

  /** The rescans go through the sockets of all nodes there are at the time. */
  function Scenes(p: TracePaths.Protocol, finds: seq<Find>): (r: seq<Scene>)
    ensures |r| == |finds|
    ensures forall k :: 0 <= k < |r| ==> r[k] == Scene(ScanList(p, finds[k].nodes), finds[k].sources)
  {
    seq(|finds|, k requires 0 <= k < |finds| => Scene(ScanList(p, finds[k].nodes), finds[k].sources))
  }

  lemma ScenesCut(p: TracePaths.Protocol, finds: seq<Find>, k: nat)
    requires k < |finds|
    ensures AfterRescans(Scenes(p, finds[..k + 1])) ==
            Rescan(AfterRescans(Scenes(p, finds[..k])), Scenes(p, finds)[k])
  {
    var more := Scenes(p, finds[..k + 1]);
    assert more[..k] == Scenes(p, finds[..k]);
    assert more[k] == Scenes(p, finds)[k];
  }

  /** The simulator's side: a rescan runs as long as the one before it scheduled it. */
  method RunRescans(table: HookTable, p: TracePaths.Protocol, finds: seq<Find>) returns (run: nat)
    requires table.path == PathsOf(p) && table.metrics == MetricCount(p) && table.State() == Hooks({}, [])
    modifies table
    ensures table.State() == AfterRescans(Scenes(p, finds)).hooks
    ensures run == AfterRescans(Scenes(p, finds)).run
  {
    run := 0;
    var next: Option<nat> := Some(0);
    for k := 0 to |finds|
      invariant Rescans(table.State(), next, run) == AfterRescans(Scenes(p, finds[..k]))
    {
      ScenesCut(p, finds, k);
      if next.Some? {
        next := table.ConnectLayerTracesWithRetry(next.value, finds[k].nodes, finds[k].sources);
        run := run + 1;
      }
    }
    assert finds[..|finds|] == finds;
  }

  ghost predicate HookedOnce(h: Hooks, path: string) {
    exists k :: 0 <= k < |h.connects| && h.connects[k] == path
      && forall j :: 0 <= j < |h.connects| && h.connects[j] == path ==> j == k
  }

  lemma ValidHooksOnce(h: Hooks, path: string)
    requires Valid(h) && path in h.hooked
    ensures HookedOnce(h, path)
  {
    var k :| 0 <= k < |h.connects| && h.connects[k] == path;
    assert forall j :: 0 <= j < |h.connects| && j != k ==> h.connects[j] != path;
  }

  /** A rescan of this many nodes looks at a source exactly when its node and socket are below the limits. */
  lemma ListedExactly(p: TracePaths.Protocol, nodes: nat, s: Source)
    requires s.metric < MetricCount(p)
    ensures PathsOf(p)(s.node, s.socket, s.metric) in ScanList(p, nodes) <==>
            s.node < nodes && s.socket < MAX_SOCKETS_PER_NODE
  {
    var path := PathsOf(p)(s.node, s.socket, s.metric);
    if path in ScanList(p, nodes) {
      var l := ListedIsSource(p, nodes, path);
      TracePaths.PathInjective(p, s.node, s.socket, MetricName(s.metric), l.node, l.socket, MetricName(l.metric));
    } else if s.node < nodes && s.socket < MAX_SOCKETS_PER_NODE {
      SourceListed(p, nodes, s);
    }
  }

  /** Rescan k runs, and finds the source there on a node it goes through. */
  ghost predicate SeenAt(p: TracePaths.Protocol, finds: seq<Find>, k: nat, s: Source) {
    && k < |finds| && k <= MAX_RETRIES
    && s.node < finds[k].nodes && PathsOf(p)(s.node, s.socket, s.metric) in finds[k].sources
  }

  /** A source is hooked, and then by exactly one call, exactly when its socket is numbered below 64 and one of
      the 61 rescans finds it there. */
  lemma HookedExactly(p: TracePaths.Protocol, finds: seq<Find>, s: Source)
    requires s.metric < MetricCount(p)
    ensures var h, path := AfterRescans(Scenes(p, finds)).hooks, PathsOf(p)(s.node, s.socket, s.metric);
            && (path in h.hooked <==> HookedOnce(h, path))
            && (HookedOnce(h, path) <==> s.socket < MAX_SOCKETS_PER_NODE && exists k: nat :: SeenAt(p, finds, k, s))
  {
    var scenes, path := Scenes(p, finds), PathsOf(p)(s.node, s.socket, s.metric);
    var h := AfterRescans(scenes).hooks;
    RescansHook(scenes);
    forall k: nat ensures FoundAt(scenes, k, path) <==> s.socket < MAX_SOCKETS_PER_NODE && SeenAt(p, finds, k, s) {
      if k < |finds| {
        ListedExactly(p, finds[k].nodes, s);
      }
    }
    HookedIsOnce(h, path);
  }

  lemma HookedIsOnce(h: Hooks, path: string)
    requires Valid(h)
    ensures path in h.hooked <==> HookedOnce(h, path)
  {
    if path in h.hooked {
      ValidHooksOnce(h, path);
    }
  }

  /** A source of a socket below 64 that is there at the last rescan ends up hooked, by exactly one call. */
  lemma LastRescanCatchesAll(p: TracePaths.Protocol, finds: seq<Find>, s: Source)
    requires |finds| > MAX_RETRIES
    requires s.node < finds[MAX_RETRIES].nodes && s.socket < MAX_SOCKETS_PER_NODE && s.metric < MetricCount(p)
    requires PathsOf(p)(s.node, s.socket, s.metric) in finds[MAX_RETRIES].sources
    ensures HookedOnce(AfterRescans(Scenes(p, finds)).hooks, PathsOf(p)(s.node, s.socket, s.metric))
  {
    HookedExactly(p, finds, s);
    assert SeenAt(p, finds, MAX_RETRIES, s);
  }

  /** A socket numbered 64 or more is never hooked, on any node and however often it is there. */
  lemma HighSocketsMissed(p: TracePaths.Protocol, finds: seq<Find>, node: nat, socket: nat, metric: string)
    requires socket >= MAX_SOCKETS_PER_NODE
    ensures TracePaths.Path(p, node, socket, metric) !in AfterRescans(Scenes(p, finds)).hooks.hooked
  {
    var path, scenes := TracePaths.Path(p, node, socket, metric), Scenes(p, finds);
    RescansHook(scenes);
    if Found(scenes, path) {
      var k: nat :| FoundAt(scenes, k, path);
      var s := ListedIsSource(p, finds[k].nodes, path);
      TracePaths.PathInjective(p, node, socket, metric, s.node, s.socket, MetricName(s.metric));
      assert false;
    }
  }

  /** The sources of a socket that are hooked. */
  lemma MetricsHooked(p: TracePaths.Protocol, name: string)
    ensures (exists i: nat :: i < MetricCount(p) && MetricName(i) == name) <==>
            name == "CongestionWindow" || name == "RTT" || (p.Quic? && name == "Rx")
  {
    assert MetricName(0) == "CongestionWindow" && MetricName(1) == "RTT" && MetricName(2) == "Rx";
  }
}
