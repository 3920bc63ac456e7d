/** Fault propagation: which devices lose their last walk from an entry device. */
module Propagation {
  import opened Outcomes
  import opened Graphs
  import PyText
  import FaultTargets

  datatype Device = Device(id: Node, services: seq<string>, layer: Option<string>)

  /** A physical link never joins a device to itself. */
  type Link = l: LinkEnds | l.source != l.target witness LinkEnds("a", "b")
  datatype LinkEnds = LinkEnds(source: Node, target: Node)

  datatype NetworkState = NetworkState(devices: seq<Device>, links: seq<Link>)

  datatype Severity = Critical | Major | Minor | Warning

  /** `LinkFault` covers link failure, high latency and packet loss, which are analysed alike. */
  datatype FaultKind =
    | DeviceDown(device: Node)
    | ServiceDown(host: Node, service: string)
    | LinkFault(ends: Link)

  datatype Fault = Fault(id: string, kind: FaultKind, severity: Severity)

  /** Devices and links are reported as sorted lists without duplicates, that is, as sets. */
  datatype PropagationResult = PropagationResult(faultId: string, devices: set<Node>, links: set<set<Node>>)

  datatype EngineError =
    | DuplicateDevice
    | UnknownEndpoint
    | DuplicateLink
    | BlankEntry
    | NoEntry
    | UnknownDevice
    | UnknownService
    | UnknownLink
    | UnreadableLink

  datatype Engine = Engine(state: NetworkState, graph: Graph, entries: set<Node>, baseline: set<Node>)

  // ---- the network a state describes ----

  function DeviceIds(s: NetworkState): set<Node> {
    set d | d in s.devices :: d.id
  }

  /** The canonical reference of a link: its two ends, in no order. */
  function LinkRef(l: Link): set<Node> {
    {l.source, l.target}
  }

  function LinkRefs(links: seq<Link>): set<set<Node>> {
    set l | l in links :: LinkRef(l)
  }

  ghost predicate DistinctDevices(s: NetworkState) {
    forall i, j | 0 <= i < j < |s.devices| :: s.devices[i].id != s.devices[j].id
  }

  ghost predicate EndpointsIn(ids: set<Node>, links: seq<Link>) {
    forall l | l in links :: LinkRef(l) <= ids
  }

  ghost predicate DistinctRefs(links: seq<Link>) {
    forall i, j | 0 <= i < j < |links| :: LinkRef(links[i]) != LinkRef(links[j])
  }

  ghost predicate KnownEndpoints(s: NetworkState) {
    EndpointsIn(DeviceIds(s), s.links)
  }

  ghost predicate DistinctLinks(s: NetworkState) {
    DistinctRefs(s.links)
  }

  ghost predicate Consistent(s: NetworkState) {
    DistinctDevices(s) && KnownEndpoints(s) && DistinctLinks(s)
  }

  /** The graph of a state: one node per device, one edge per link. */
  ghost function NetworkGraph(ids: set<Node>, links: seq<Link>): Graph {
    Graph(map v | v in ids :: set w | w in ids && {v, w} in LinkRefs(links))
  }

  lemma NetworkGraphValid(ids: set<Node>, links: seq<Link>)
    ensures Valid(NetworkGraph(ids, links))
  {
    forall v, w | {v, w} in LinkRefs(links)
      ensures v != w && {w, v} in LinkRefs(links)
    {
      var l :| l in links && LinkRef(l) == {v, w};
      assert l.source in {v, w} && l.target in {v, w};
      assert {w, v} == {v, w};
    }
  }

  // ---- what "affected" means ----

  ghost predicate ReachedFromEntry(g: Graph, entries: set<Node>, v: Node) {
    exists e :: e in entries && Connected(g, e, v)
  }

  /** Every walk from every entry to `v` crosses the edge. */
  ghost predicate EdgeSeparates(g: Graph, entries: set<Node>, u: Node, w: Node, v: Node) {
    forall e, p | e in entries && Walk(g, p, e, v) :: CrossesEdge(p, u, w)
  }

  /** Every walk from every entry to `v` passes through `d`. */
  ghost predicate NodeSeparates(g: Graph, entries: set<Node>, d: Node, v: Node) {
    forall e, p | e in entries && Walk(g, p, e, v) :: d in p
  }

  ghost function CutByLink(g: Graph, entries: set<Node>, u: Node, w: Node): set<Node> {
    set v | v in g.adj && ReachedFromEntry(g, entries, v) && EdgeSeparates(g, entries, u, w, v)
  }

  ghost function CutByDevice(g: Graph, entries: set<Node>, d: Node): set<Node> {
    {d} + set v | v in g.adj && ReachedFromEntry(g, entries, v) && NodeSeparates(g, entries, d, v)
  }

  ghost function ReachableSet(g: Graph, entries: set<Node>): set<Node> {
    set v | v in g.adj && ReachedFromEntry(g, entries, v)
  }

  /** Links with at least one end among the devices. */
  function TouchedLinks(s: NetworkState, devices: set<Node>): set<set<Node>> {
    set l | l in s.links && (l.source in devices || l.target in devices) :: LinkRef(l)
  }

  /** The canonical text of a link is read back when it is put into a result. */
  predicate ReadableLink(l: Link) {
    FaultTargets.ParseLink(FaultTargets.CanonicalText(l.source, l.target)).Ok?
  }

  /** A result is refused when one of its links cannot be read back. */
  function Validated(s: NetworkState, p: PropagationResult): Result<PropagationResult, EngineError> {
    if forall l | l in s.links && LinkRef(l) in p.links :: ReadableLink(l) then Ok(p) else Err(UnreadableLink)
  }

  /** An engine in the state its construction leaves it in. */
  ghost predicate Ready(e: Engine) {
    && Consistent(e.state)
    && e.graph == NetworkGraph(DeviceIds(e.state), e.state.links)
    && e.entries != {}
    && e.entries <= DeviceIds(e.state)
    && e.baseline == ReachableSet(e.graph, e.entries)
  }

  /** The analysis outcome, stated by walks alone. */
  ghost function Outcome(e: Engine, f: Fault): Result<PropagationResult, EngineError> {
    match f.kind
    case ServiceDown(host, service) =>
      if host !in DeviceIds(e.state) then Err(UnknownDevice)
      else if exists d :: d in e.state.devices && d.id == host && service in d.services then
        Ok(PropagationResult(f.id, {host}, {}))
      else Err(UnknownService)
    case DeviceDown(d) =>
      if d !in DeviceIds(e.state) then Err(UnknownDevice)
      else
        var cut := CutByDevice(e.graph, e.entries, d);
        Validated(e.state, PropagationResult(f.id, cut, TouchedLinks(e.state, cut)))
    case LinkFault(ends) =>
      if LinkRef(ends) !in LinkRefs(e.state.links) then Err(UnknownLink)
      else
        var cut := CutByLink(e.graph, e.entries, ends.source, ends.target);
        Validated(e.state, PropagationResult(f.id, cut, TouchedLinks(e.state, cut) + {LinkRef(ends)}))
  }

  // ---- construction ----

  method IndexDevices(s: NetworkState) returns (distinct: bool)
    ensures distinct <==> DistinctDevices(s)
  {
    var ids: set<Node> := {};
    for i := 0 to |s.devices|
      invariant ids == set k | 0 <= k < i :: s.devices[k].id
      invariant forall j, k | 0 <= j < k < i :: s.devices[j].id != s.devices[k].id
    {
      if s.devices[i].id in ids {
        return false;
      }
      ids := ids + {s.devices[i].id};
    }
    return true;
  }

  method BuildGraph(s: NetworkState) returns (r: Result<Graph, EngineError>)
    ensures r.Ok? <==> KnownEndpoints(s) && DistinctLinks(s)
    ensures r.Ok? ==> r.value == NetworkGraph(DeviceIds(s), s.links)
    ensures r.Err? ==> (r.error == UnknownEndpoint && !KnownEndpoints(s)) || (r.error == DuplicateLink && !DistinctLinks(s))
  {
    var ids := DeviceIds(s);
    var g := Graph(map v | v in ids :: {});
    NoLinks(ids);
    assert s.links[..0] == [];
    for i := 0 to |s.links|
      invariant Buildable(ids, s.links[..i]) && g == NetworkGraph(ids, s.links[..i])
    {
      assert s.links[..i] + [s.links[i]] == s.links[..i + 1];
      var longer := AddLink(g, ids, s.links[..i], s.links[i]);
      if longer.Err? {
        PrefixBuildable(ids, s.links, i + 1);
        return longer;
      }
      g := longer.value;
    }
    assert s.links[..|s.links|] == s.links;
    return Ok(g);
  }

  ghost predicate Buildable(ids: set<Node>, links: seq<Link>) {
    EndpointsIn(ids, links) && DistinctRefs(links)
  }

  lemma PrefixBuildable(ids: set<Node>, links: seq<Link>, n: nat)
    requires n <= |links| && !Buildable(ids, links[..n])
    ensures !Buildable(ids, links)
  {
  }

  /** One link more, unless it has an unknown end or repeats an edge. */
  method AddLink(g: Graph, ids: set<Node>, ghost links: seq<Link>, l: Link) returns (r: Result<Graph, EngineError>)
    requires Buildable(ids, links) && g == NetworkGraph(ids, links)
    ensures r.Ok? <==> Buildable(ids, links + [l])
    ensures r.Ok? ==> r.value == NetworkGraph(ids, links + [l])
    ensures r.Err? ==> (r.error == UnknownEndpoint && !EndpointsIn(ids, links + [l])) || (r.error == DuplicateLink && !DistinctRefs(links + [l]))
  {
    if l.source !in ids || l.target !in ids {
      StrayEnd(ids, links + [l], |links|);
      return Err(UnknownEndpoint);
    }
    LinkStep(ids, links, l);
    if l.target in g.adj[l.source] {
      return Err(DuplicateLink);
    }
    return Ok(AddEdge(g, l.source, l.target));
  }

  lemma NoLinks(ids: set<Node>)
    ensures NetworkGraph(ids, []) == Graph(map v | v in ids :: {})
  {
    assert LinkRefs([]) == {};
    assert forall v | v in ids :: NetworkGraph(ids, []).adj[v] == {};
  }

  lemma StrayEnd(ids: set<Node>, links: seq<Link>, i: nat)
    requires i < |links| && (links[i].source !in ids || links[i].target !in ids)
    ensures !EndpointsIn(ids, links)
  {
    assert links[i] in links && !(LinkRef(links[i]) <= ids);
  }

  /** One turn of the graph-building loop: the edge is already there exactly when the link repeats one. */
  lemma LinkStep(ids: set<Node>, links: seq<Link>, l: Link)
    requires EndpointsIn(ids, links) && DistinctRefs(links) && l.source in ids && l.target in ids
    ensures EndpointsIn(ids, links + [l])
    ensures l.target in NetworkGraph(ids, links).adj[l.source] <==> !DistinctRefs(links + [l])
    ensures AddEdge(NetworkGraph(ids, links), l.source, l.target) == NetworkGraph(ids, links + [l])
  {
    EdgeMeansLink(ids, links, l);
    AddedLink(ids, links, l);
    if l.target in NetworkGraph(ids, links).adj[l.source] {
      var k :| 0 <= k < |links| && LinkRef(links[k]) == LinkRef(l);
      assert (links + [l])[k] == links[k] && (links + [l])[|links|] == l;
    }
  }

  function AddEdge(g: Graph, u: Node, w: Node): Graph
    requires u in g.adj && w in g.adj
  {
    var half := g.adj[u := g.adj[u] + {w}];
    Graph(half[w := half[w] + {u}])
  }

  lemma EdgeMeansLink(ids: set<Node>, links: seq<Link>, l: Link)
    requires LinkRef(l) <= ids
    ensures HasEdge(NetworkGraph(ids, links), l.source, l.target)
            <==> exists k :: 0 <= k < |links| && LinkRef(links[k]) == LinkRef(l)
  {
    assert l.source in LinkRef(l) && l.target in LinkRef(l);
  }

  lemma AddedLink(ids: set<Node>, links: seq<Link>, l: Link)
    requires LinkRef(l) <= ids
    ensures l.source in ids && l.target in ids
    ensures AddEdge(NetworkGraph(ids, links), l.source, l.target) == NetworkGraph(ids, links + [l])
  {
    assert l.source in LinkRef(l) && l.target in LinkRef(l);
    assert LinkRefs(links + [l]) == LinkRefs(links) + {LinkRef(l)};
    forall v, w | {v, w} == LinkRef(l)
      ensures (v == l.source && w == l.target) || (v == l.target && w == l.source)
    {
      assert l.source in {v, w} && l.target in {v, w};
    }
    assert {l.target, l.source} == LinkRef(l);
    var g, h := AddEdge(NetworkGraph(ids, links), l.source, l.target), NetworkGraph(ids, links + [l]);
    forall v | v in ids
      ensures g.adj[v] == h.adj[v]
    {
    }
  }

  function EdgeLayer(devices: seq<Device>): (ids: seq<Node>) {
    if devices == [] then []
    else (if devices[0].layer == Some("edge") then [devices[0].id] else []) + EdgeLayer(devices[1..])
  }

  /** The names the entries resolve to: the stripped arguments, or the devices of the edge layer. */
  ghost function EntryNames(s: NetworkState, given: Option<seq<string>>): set<Node> {
    match given
    case None => set d | d in s.devices && d.layer == Some("edge") :: d.id
    case Some(names) => set n | n in names :: PyText.Strip(n)
  }

  lemma {:induction false} EdgeLayerMembers(devices: seq<Device>)
    ensures forall n :: n in EdgeLayer(devices) <==> exists d :: d in devices && d.layer == Some("edge") && d.id == n
  {
    if devices != [] {
      EdgeLayerMembers(devices[1..]);
      assert devices == [devices[0]] + devices[1..];
    }
  }

  method NameEntries(s: NetworkState, given: Option<seq<string>>) returns (r: Result<seq<Node>, EngineError>)
    ensures r.Ok? <==> (given.Some? ==> forall n | n in given.value :: PyText.Strip(n) != "")
    ensures r.Ok? ==> forall n :: n in r.value <==> n in EntryNames(s, given)
    ensures r.Err? ==> r.error == BlankEntry
  {
    if given.None? {
      EdgeLayerMembers(s.devices);
      return Ok(EdgeLayer(s.devices));
    }
    var names, resolved := given.value, [];
    for i := 0 to |names|
      invariant |resolved| == i
      invariant forall k | 0 <= k < i :: resolved[k] == PyText.Strip(names[k]) && resolved[k] != ""
    {
      if PyText.Strip(names[i]) == "" {
        return Err(BlankEntry);
      }
      resolved := resolved + [PyText.Strip(names[i])];
    }
    forall n | n in names
      ensures PyText.Strip(n) in resolved && PyText.Strip(n) != ""
    {
      var k :| 0 <= k < |names| && names[k] == n;
      assert resolved[k] == PyText.Strip(n);
    }
    return Ok(resolved);
  }

  method ResolveEntries(s: NetworkState, given: Option<seq<string>>) returns (r: Result<set<Node>, EngineError>)
    ensures r.Ok? <==> && (given.Some? ==> forall n | n in given.value :: PyText.Strip(n) != "")
                       && EntryNames(s, given) != {} && EntryNames(s, given) <= DeviceIds(s)
    ensures r.Ok? ==> r.value == EntryNames(s, given)
    ensures r == Err(BlankEntry) <==> given.Some? && exists n :: n in given.value && PyText.Strip(n) == ""
    ensures r == Err(NoEntry) <==> r != Err(BlankEntry) && EntryNames(s, given) == {}
    ensures r.Err? ==> r.error in {BlankEntry, NoEntry, UnknownDevice}
  {
    var named := NameEntries(s, given);
    if named.Err? {
      return Err(named.error);
    }
    var resolved, ids := named.value, DeviceIds(s);
    if resolved == [] {
      return Err(NoEntry);
    }
    assert resolved[0] in EntryNames(s, given);
    for i := 0 to |resolved|
      invariant forall k | 0 <= k < i :: resolved[k] in ids
    {
      if resolved[i] !in ids {
        assert resolved[i] in EntryNames(s, given);
        return Err(UnknownDevice);
      }
    }
    return Ok(set n | n in resolved);
  }

  method Reachable(g: Graph, entries: set<Node>) returns (reachable: set<Node>)
    requires Valid(g)
    ensures reachable == ReachableSet(g, entries)
  {
    reachable := {};
    var pending := entries;
    ghost var done := {};
    while pending != {}
      invariant done !! pending && done + pending == entries
      invariant reachable == ReachableSet(g, done)
      decreases pending
    {
      var e :| e in pending;
      if e in g.adj {
        var component := ConnectedComponent(g, e);
        reachable := reachable + component;
      } else {
        forall v | Connected(g, e, v)
          ensures false
        {
          var p :| Walk(g, p, e, v);
          WalkNodesExist(g, p);
          assert false;
        }
      }
      pending, done := pending - {e}, done + {e};
    }
    assert done == entries;
  }

  lemma NoEntryNames(s: NetworkState, given: Option<seq<string>>)
    ensures EntryNames(s, given) == {} <==>
            if given.None? then forall d | d in s.devices :: d.layer != Some("edge") else given.value == []
  {
    if given.Some? && given.value != [] {
      assert PyText.Strip(given.value[0]) in EntryNames(s, given);
    }
    if d :| d in s.devices && d.layer == Some("edge") {
      assert given.None? ==> d.id in EntryNames(s, given);
    }
  }

  /** Construction succeeds exactly on a consistent state with known, non-blank entries. */
  method CreateEngine(s: NetworkState, given: Option<seq<string>>) returns (r: Result<Engine, EngineError>)
    ensures r.Ok? <==> && Consistent(s)
                       && (given.Some? ==> forall n | n in given.value :: PyText.Strip(n) != "")
                       && EntryNames(s, given) != {} && EntryNames(s, given) <= DeviceIds(s)
    ensures r.Ok? ==> Ready(r.value) && r.value.state == s && r.value.entries == EntryNames(s, given)
    ensures r.Ok? ==> forall v :: v in r.value.entries <==>
                        (given.None? && exists d :: d in s.devices && d.id == v && d.layer == Some("edge"))
                        || (given.Some? && exists n :: n in given.value && PyText.Strip(n) == v)
    ensures r == Err(DuplicateDevice) <==> !DistinctDevices(s)
    ensures r == Err(UnknownEndpoint) ==> !KnownEndpoints(s)
    ensures r == Err(DuplicateLink) ==> !DistinctLinks(s)
    ensures r == Err(BlankEntry) <==> Consistent(s) && given.Some? && exists n :: n in given.value && PyText.Strip(n) == ""
    ensures r == Err(NoEntry) <==>
            Consistent(s) && if given.None? then forall d | d in s.devices :: d.layer != Some("edge") else given.value == []
    ensures r.Err? && Consistent(s) ==> r.error in {BlankEntry, NoEntry, UnknownDevice}
  {
    var distinct := IndexDevices(s);
    if !distinct {
      return Err(DuplicateDevice);
    }
    var built := BuildGraph(s);
    if built.Err? {
      return Err(built.error);
    }
    NoEntryNames(s, given);
    var entries := ResolveEntries(s, given);
    if entries.Err? {
      return Err(entries.error);
    }
    NetworkGraphValid(DeviceIds(s), s.links);
    var baseline := Reachable(built.value, entries.value);
    return Ok(Engine(s, built.value, entries.value, baseline));
  }

  // ---- analysis ----

  lemma LostByEdge(g: Graph, entries: set<Node>, u: Node, w: Node)
    requires Valid(g) && u != w
    ensures ReachableSet(g, entries) - ReachableSet(RemoveEdge(g, u, w), entries) == CutByLink(g, entries, u, w)
  {
    var h := RemoveEdge(g, u, w);
    forall v | v in g.adj
      ensures ReachedFromEntry(h, entries, v) <==> !EdgeSeparates(g, entries, u, w, v)
    {
      forall e, p | e in entries
        ensures Walk(h, p, e, v) <==> Walk(g, p, e, v) && !CrossesEdge(p, u, w)
      {
        WalkWithoutEdge(g, u, w, p);
      }
    }
  }

  lemma LostByNode(g: Graph, entries: set<Node>, d: Node)
    requires Valid(g) && d in g.adj
    ensures ReachableSet(g, entries) - ReachableSet(RemoveNode(g, d), entries) + {d} == CutByDevice(g, entries, d)
  {
    var h := RemoveNode(g, d);
    forall v | v in g.adj && v != d
      ensures ReachedFromEntry(h, entries, v) <==> !NodeSeparates(g, entries, d, v)
    {
      forall e, p | e in entries
        ensures Walk(h, p, e, v) <==> Walk(g, p, e, v) && d !in p
      {
        WalkWithoutNode(g, d, p);
      }
    }
  }

  /** The engine removes the failed part, searches again and reports what was lost; this is exactly the
      set of devices that every walk from every entry reaches only through the failed part. */
  method Analyze(e: Engine, f: Fault) returns (r: Result<PropagationResult, EngineError>)
    requires Ready(e)
    ensures r == Outcome(e, f)
  {
    var ids := DeviceIds(e.state);
    NetworkGraphValid(ids, e.state.links);
    match f.kind {
      case ServiceDown(host, service) =>
        if host !in ids {
          return Err(UnknownDevice);
        }
        var i := 0;
        while e.state.devices[i].id != host
          invariant 0 <= i < |e.state.devices|
          invariant forall k | 0 <= k < i :: e.state.devices[k].id != host
          decreases |e.state.devices| - i
        {
          i := i + 1;
        }
        if service !in e.state.devices[i].services {
          return Err(UnknownService);
        }
        return Ok(PropagationResult(f.id, {host}, {}));
      case DeviceDown(d) =>
        if d !in ids {
          return Err(UnknownDevice);
        }
        var simulated := RemoveNode(e.graph, d);
        RemovalsValid(e.graph, d, d);
        var remaining := Reachable(simulated, e.entries);
        LostByNode(e.graph, e.entries, d);
        var devices := e.baseline - remaining + {d};
        return Validated(e.state, PropagationResult(f.id, devices, TouchedLinks(e.state, devices)));
      case LinkFault(ends) =>
        if ends.source !in ids || ends.target !in e.graph.adj[ends.source] {
          assert LinkRef(ends) !in LinkRefs(e.state.links);
          return Err(UnknownLink);
        }
        var simulated := RemoveEdge(e.graph, ends.source, ends.target);
        RemovalsValid(e.graph, ends.source, ends.target);
        var remaining := Reachable(simulated, e.entries);
        LostByEdge(e.graph, e.entries, ends.source, ends.target);
        var devices := e.baseline - remaining;
        return Validated(e.state, PropagationResult(f.id, devices, TouchedLinks(e.state, devices) + {LinkRef(ends)}));
    }
  }

  // ---- bridges ----

  ghost predicate IsBridge(g: Graph, u: Node, w: Node) {
    HasEdge(g, u, w) && !Connected(RemoveEdge(g, u, w), u, w)
  }

  /** A link inside a ring separates nobody. */
  lemma RingLinkCutsNothing(g: Graph, entries: set<Node>, u: Node, w: Node)
    requires Valid(g) && u != w && HasEdge(g, u, w) && !IsBridge(g, u, w)
    ensures CutByLink(g, entries, u, w) == {}
  {
    var h := RemoveEdge(g, u, w);
    RemovalsValid(g, u, w);
    LostByEdge(g, entries, u, w);
    forall v | v in g.adj && ReachedFromEntry(g, entries, v)
      ensures ReachedFromEntry(h, entries, v)
    {
      var e :| e in entries && Connected(g, e, v);
      SidesAfterRemoval(g, u, w, e, v);
      if !Connected(h, e, v) {
        Symmetric(h, u, w);
        BothOnOneSide(h, u, w, e, v);
      }
    }
  }

  lemma SidesAfterRemoval(g: Graph, u: Node, w: Node, a: Node, b: Node)
    requires Valid(g) && u != w && HasEdge(g, u, w) && Connected(g, a, b)
    ensures var h := RemoveEdge(g, u, w);
            Connected(h, a, b)
            || ((Connected(h, u, a) || Connected(h, w, a)) && (Connected(h, u, b) || Connected(h, w, b)))
  {
    var p :| Walk(g, p, a, b);
    EdgeRemovalSplit(g, u, w, p, a, b);
  }

  lemma BothOnOneSide(h: Graph, u: Node, w: Node, a: Node, b: Node)
    requires Valid(h) && Connected(h, u, w) && Connected(h, w, u)
    requires (Connected(h, u, a) || Connected(h, w, a)) && (Connected(h, u, b) || Connected(h, w, b))
    ensures Connected(h, a, b)
  {
    if !Connected(h, u, a) {
      Transitive(h, u, w, a);
    }
    if !Connected(h, u, b) {
      Transitive(h, u, w, b);
    }
    Symmetric(h, u, a);
    Transitive(h, a, u, b);
  }

  /** The side of `u` once the edge to `w` is gone. */
  ghost function Side(g: Graph, u: Node, w: Node): set<Node> {
    Component(RemoveEdge(g, u, w), u)
  }

  /** A bridge cuts off the side without entries when the other side has one, and nothing otherwise. */
  lemma BridgeCut(g: Graph, entries: set<Node>, u: Node, w: Node)
    requires Valid(g) && entries <= g.adj.Keys && u != w && IsBridge(g, u, w)
    ensures CutByLink(g, entries, u, w) ==
            if entries !! Side(g, w, u) && !(entries !! Side(g, u, w)) then Side(g, w, u)
            else if entries !! Side(g, u, w) && !(entries !! Side(g, w, u)) then Side(g, u, w)
            else {}
  {
    assert RemoveEdge(g, w, u) == RemoveEdge(g, u, w);
    LostByEdge(g, entries, u, w);
    assert CutByLink(g, entries, w, u) == CutByLink(g, entries, u, w) by {
      LostByEdge(g, entries, w, u);
    }
    if entries !! Side(g, w, u) && !(entries !! Side(g, u, w)) {
      OneSidedCut(g, entries, u, w);
    } else if entries !! Side(g, u, w) && !(entries !! Side(g, w, u)) {
      BridgeBothWays(g, u, w);
      OneSidedCut(g, entries, w, u);
    } else {
      BalancedCut(g, entries, u, w);
    }
  }

  lemma BridgeBothWays(g: Graph, u: Node, w: Node)
    requires Valid(g) && u != w && IsBridge(g, u, w)
    ensures IsBridge(g, w, u)
  {
    RemovalsValid(g, u, w);
    assert RemoveEdge(g, w, u) == RemoveEdge(g, u, w);
    if Connected(RemoveEdge(g, u, w), w, u) {
      Symmetric(RemoveEdge(g, u, w), w, u);
    }
  }

  lemma OneSidedCut(g: Graph, entries: set<Node>, u: Node, w: Node)
    requires Valid(g) && entries <= g.adj.Keys && u != w && IsBridge(g, u, w)
    requires RemoveEdge(g, w, u) == RemoveEdge(g, u, w)
    requires entries !! Side(g, w, u) && !(entries !! Side(g, u, w))
    ensures CutByLink(g, entries, u, w) == Side(g, w, u)
  {
    var h := RemoveEdge(g, u, w);
    RemovalsValid(g, u, w);
    LostByEdge(g, entries, u, w);
    var e0 :| e0 in entries && e0 in Side(g, u, w);
    forall v | v in g.adj
      ensures v in CutByLink(g, entries, u, w) <==> v in Side(g, w, u)
    {
      if v in Side(g, w, u) {
        Symmetric(h, u, e0);
        SubgraphConnected(g, u, w, e0, u);
        StepConnected(g, e0, u, w);
        SubgraphConnected(g, u, w, w, v);
        Transitive(g, e0, w, v);
        forall e | e in entries
          ensures !Connected(h, e, v)
        {
          if Connected(h, e, v) {
            Symmetric(h, e, v);
            Transitive(h, w, v, e);
          }
        }
      } else if v in CutByLink(g, entries, u, w) {
        var e :| e in entries && Connected(g, e, v);
        SidesAfterRemoval(g, u, w, e, v);
        Symmetric(h, u, e0);
        Transitive(h, e0, u, v);
        assert false;
      }
    }
  }

  lemma SubgraphConnected(g: Graph, u: Node, w: Node, a: Node, b: Node)
    requires Valid(g) && u != w && Connected(RemoveEdge(g, u, w), a, b)
    ensures Connected(g, a, b)
  {
    var p :| Walk(RemoveEdge(g, u, w), p, a, b);
    WalkWithoutEdge(g, u, w, p);
    assert Walk(g, p, a, b);
  }

  lemma BalancedCut(g: Graph, entries: set<Node>, u: Node, w: Node)
    requires Valid(g) && entries <= g.adj.Keys && u != w && IsBridge(g, u, w)
    requires RemoveEdge(g, w, u) == RemoveEdge(g, u, w)
    requires entries !! Side(g, w, u) <==> entries !! Side(g, u, w)
    ensures CutByLink(g, entries, u, w) == {}
  {
    var h := RemoveEdge(g, u, w);
    RemovalsValid(g, u, w);
    LostByEdge(g, entries, u, w);
    forall v | v in g.adj && ReachedFromEntry(g, entries, v)
      ensures ReachedFromEntry(h, entries, v)
    {
      var e :| e in entries && Connected(g, e, v);
      SidesAfterRemoval(g, u, w, e, v);
      if !Connected(h, e, v) {
        assert e in Side(g, u, w) || e in Side(g, w, u);
        var x := if Connected(h, u, v) then u else w;
        var y := if x == u then w else u;
        var e' :| e' in entries && e' in Side(g, x, y);
        Symmetric(h, x, e');
        Transitive(h, e', x, v);
      }
    }
  }

  lemma BridgeSidesDisjoint(g: Graph, u: Node, w: Node)
    requires Valid(g) && u != w && HasEdge(g, u, w)
    ensures IsBridge(g, u, w) <==> Side(g, u, w) !! Side(g, w, u)
  {
    RemovalsValid(g, u, w);
    var h := RemoveEdge(g, u, w);
    assert RemoveEdge(g, w, u) == h;
    if IsBridge(g, u, w) {
      forall v | Connected(h, u, v) && Connected(h, w, v)
        ensures false
      {
        Symmetric(h, w, v);
        Transitive(h, u, v, w);
      }
    } else {
      SelfConnected(h, w);
      assert w in Side(g, u, w) && w in Side(g, w, u);
    }
  }

  /** The devices a failed link costs: the entry-free side of a bridge whose other side holds an entry. */
  ghost function LinkLoss(g: Graph, entries: set<Node>, u: Node, w: Node): set<Node> {
    var near, far := Side(g, u, w), Side(g, w, u);
    if !(near !! far) then {}
    else if entries !! far && !(entries !! near) then far
    else if entries !! near && !(entries !! far) then near
    else {}
  }

  /** Whatever walks the link separates is the loss read off the two sides of the link. */
  lemma LinkCut(g: Graph, entries: set<Node>, u: Node, w: Node)
    requires Valid(g) && entries <= g.adj.Keys && u != w && HasEdge(g, u, w)
    ensures IsBridge(g, u, w) <==> Side(g, u, w) !! Side(g, w, u)
    ensures CutByLink(g, entries, u, w) == LinkLoss(g, entries, u, w)
  {
    BridgeSidesDisjoint(g, u, w);
    if IsBridge(g, u, w) {
      BridgeCut(g, entries, u, w);
    } else {
      RingLinkCutsNothing(g, entries, u, w);
    }
  }

  /** The report for a failed link of a ready engine: the loss, every link touching it, and the link itself. */
  lemma LinkFaultReport(e: Engine, f: Fault, lost: set<Node>)
    requires Ready(e) && f.kind.LinkFault? && LinkRef(f.kind.ends) in LinkRefs(e.state.links)
    requires lost == LinkLoss(e.graph, e.entries, f.kind.ends.source, f.kind.ends.target)
    ensures Outcome(e, f) ==
            Validated(e.state, PropagationResult(f.id, lost, TouchedLinks(e.state, lost) + {LinkRef(f.kind.ends)}))
  {
    LinkLossIsCut(e, f.kind.ends);
  }

  lemma LinkLossIsCut(e: Engine, l: Link)
    requires Ready(e) && LinkRef(l) in LinkRefs(e.state.links)
    ensures LinkLoss(e.graph, e.entries, l.source, l.target) == CutByLink(e.graph, e.entries, l.source, l.target)
  {
    ReadyGraph(e, l);
    LinkCut(e.graph, e.entries, l.source, l.target);
  }

  lemma ReadyGraph(e: Engine, l: Link)
    requires Ready(e)
    ensures Valid(e.graph) && e.entries <= e.graph.adj.Keys
    ensures LinkRef(l) in LinkRefs(e.state.links) <==> HasEdge(e.graph, l.source, l.target)
  {
    NetworkGraphValid(DeviceIds(e.state), e.state.links);
  }

  // ---- dominance ----

  /** Whatever losing one link cuts off, losing the device at either end cuts off too. */
  lemma LinkCutInsideDeviceCut(g: Graph, entries: set<Node>, u: Node, w: Node, d: Node)
    requires d == u || d == w
    ensures CutByLink(g, entries, u, w) <= CutByDevice(g, entries, d)
  {
    forall e, p, v | e in entries && Walk(g, p, e, v) && CrossesEdge(p, u, w)
      ensures d in p
    {
      var i :| 0 < i < |p| && {p[i - 1], p[i]} == {u, w};
      assert d in {p[i - 1], p[i]};
    }
  }

  // ---- links as texts ----

  /** Which names those are. */
  lemma ReadableNames(l: Link)
    ensures ReadableLink(l) <==>
            if PyText.Before(l.target, l.source) then FaultTargets.Readable(l.target, l.source)
            else FaultTargets.Readable(l.source, l.target)
  {
    FaultTargets.ReadsAsItself(l.source, l.target);
    FaultTargets.ReadsAsItself(l.target, l.source);
    FaultTargets.LinkTextReadsBack(l.source, l.target);
    FaultTargets.LinkTextReadsBack(l.target, l.source);
  }

  ghost predicate ReadableNetwork(s: NetworkState) {
    forall l | l in s.links :: ReadableLink(l)
  }

  ghost predicate DistinctTexts(links: seq<Link>) {
    forall i, j | 0 <= i < j < |links| ::
      FaultTargets.CanonicalText(links[i].source, links[i].target) != FaultTargets.CanonicalText(links[j].source, links[j].target)
  }

  /** A readable text names one pair of devices. */
  lemma ReadableTextIsRef(l: Link, m: Link)
    ensures ReadableLink(l)
            && FaultTargets.CanonicalText(l.source, l.target) == FaultTargets.CanonicalText(m.source, m.target)
            ==> LinkRef(l) == LinkRef(m)
  {
    FaultTargets.ReadsAsItself(l.source, l.target);
    FaultTargets.ReadsAsItself(l.target, l.source);
    FaultTargets.ReadsAsItself(m.source, m.target);
    FaultTargets.ReadsAsItself(m.target, m.source);
  }

  /** On a network whose links can be read back no result is refused for its links, and no two links share a text. */
  lemma ReadableNetworkReports(e: Engine, f: Fault)
    requires Ready(e) && ReadableNetwork(e.state)
    ensures Outcome(e, f) != Err(UnreadableLink) && DistinctTexts(e.state.links)
  {
    var links := e.state.links;
    forall i, j | 0 <= i < j < |links|
      ensures FaultTargets.CanonicalText(links[i].source, links[i].target) != FaultTargets.CanonicalText(links[j].source, links[j].target)
    {
      if FaultTargets.CanonicalText(links[i].source, links[i].target) == FaultTargets.CanonicalText(links[j].source, links[j].target) {
        assert links[i] in links;
        ReadableTextIsRef(links[i], links[j]);
      }
    }
  }

  predicate Touches(l: Link, devices: set<Node>) {
    l.source in devices || l.target in devices
  }

  lemma TouchedRef(s: NetworkState, devices: set<Node>, l: Link)
    requires l in s.links
    ensures LinkRef(l) in TouchedLinks(s, devices) <==> Touches(l, devices)
  {
    if m :| m in s.links && Touches(m, devices) && LinkRef(m) == LinkRef(l) {
      assert m.source in LinkRef(l) && m.target in LinkRef(l);
    }
  }

  lemma ValidatedExactly(s: NetworkState, p: PropagationResult)
    ensures Validated(s, p).Ok? <==> forall l | l in s.links && LinkRef(l) in p.links :: ReadableLink(l)
    ensures Validated(s, p).Ok? || Validated(s, p).error == UnreadableLink
  {
  }

  /** The links a fault's report names. */
  ghost predicate Involves(e: Engine, f: Fault, l: Link) {
    match f.kind
    case ServiceDown(_, _) => false
    case DeviceDown(d) => Touches(l, CutByDevice(e.graph, e.entries, d))
    case LinkFault(ends) => Touches(l, CutByLink(e.graph, e.entries, ends.source, ends.target)) || LinkRef(l) == LinkRef(ends)
  }

  /** A fault of a known target is refused exactly when its report would name a link that cannot be read back. */
  lemma RefusedExactly(e: Engine, f: Fault)
    ensures Outcome(e, f).Ok? || Outcome(e, f).error == UnreadableLink ==>
              (Outcome(e, f).Err? <==> exists l :: l in e.state.links && Involves(e, f, l) && !ReadableLink(l))
  {
    match f.kind
    case ServiceDown(_, _) =>
    case DeviceDown(d) =>
      var cut := CutByDevice(e.graph, e.entries, d);
      ValidatedExactly(e.state, PropagationResult(f.id, cut, TouchedLinks(e.state, cut)));
      forall l | l in e.state.links
        ensures LinkRef(l) in TouchedLinks(e.state, cut) <==> Touches(l, cut)
      {
        TouchedRef(e.state, cut, l);
      }
    case LinkFault(ends) =>
      var cut := CutByLink(e.graph, e.entries, ends.source, ends.target);
      ValidatedExactly(e.state, PropagationResult(f.id, cut, TouchedLinks(e.state, cut) + {LinkRef(ends)}));
      forall l | l in e.state.links
        ensures LinkRef(l) in TouchedLinks(e.state, cut) <==> Touches(l, cut)
      {
        TouchedRef(e.state, cut, l);
      }
  }
}
