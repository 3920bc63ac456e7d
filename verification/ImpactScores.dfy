/** The impact score in numbers: what a fault scores on a network of a given size, and at which level. */
module ImpactScores {
  import opened Outcomes
  import opened Graphs
  import opened Propagation
  import opened Rounding
  import opened Impact
  import FaultTargets

  // ---- what a report lists ----

  function Services(s: NetworkState): set<ServiceRef> {
    set d, x | d in s.devices && x in d.services :: ServiceRef(d.id, x)
  }

  lemma AllServicesAre(s: NetworkState)
    ensures AllServices(s) == Services(s)
  {
    AffectedServicesMembers(s.devices, DeviceIds(s));
  }

  /** A report names the affected devices and their services, or the one service that failed. */
  lemma ReportLists(e: Engine, f: Fault)
    requires Ready(e) && Outcome(e, f).Ok?
    ensures var p := Outcome(e, f).value;
            && Report(e.state, f, p).devices == p.devices
            && Report(e.state, f, p).services ==
               if f.kind.ServiceDown? then {ServiceRef(f.kind.host, f.kind.service)}
               else set r | r in Services(e.state) && r.host in p.devices
  {
    AffectedServicesMembers(e.state.devices, Outcome(e, f).value.devices);
  }

  /** What the analyzer refuses, and in which order. */
  lemma AnalyzerRefusals(s: NetworkState, f: Fault, p: PropagationResult)
    ensures var r := Impact.Analyze(s, f, p);
            if !DistinctDevices(s) then r == Err(DuplicateDeviceIds)
            else if !DistinctTexts(s.links) then r == Err(DuplicateLinks)
            else if f.id != p.faultId then r == Err(FaultMismatch)
            else if exists v :: v in p.devices && forall d | d in s.devices :: d.id != v then r == Err(UnknownAffectedDevice)
            else if exists l :: l in p.links && forall k | k in s.links :: {k.source, k.target} != l then r == Err(UnknownAffectedLink)
            else if f.kind.ServiceDown? && forall d | d in s.devices :: d.id != f.kind.host then r == Err(UnknownServiceHost)
            else if f.kind.ServiceDown? && forall d | d in s.devices && d.id == f.kind.host :: f.kind.service !in d.services then
              r == Err(UnknownServiceName)
            else r.Ok?
  {
    DistinctCount(s.devices, (d: Device) => d.id, DeviceIds(s));
    TextsMatch(s.links);
    AllServicesAre(s);
    assert forall l | l in s.links :: LinkRef(l) == {l.source, l.target};
    if f.kind.ServiceDown? {
      assert ServiceRef(f.kind.host, f.kind.service) in Services(s) <==>
             exists d :: d in s.devices && d.id == f.kind.host && f.kind.service in d.services;
    }
  }

  // ---- the score ----

  /** What some coverage scores at a severity, before rounding: a warning weighs 0.4, a minor fault 0.6, a major one 0.8. */
  function Weighed(severity: Severity, x: real): real {
    var y := match severity case Warning => 0.4 * x case Minor => 0.6 * x case Major => 0.8 * x case Critical => x;
    if y < 100.0 then y else 100.0
  }

  /** `share` is how much `part` of `total` is of a whole of `points`; nothing of nothing. */
  predicate IsShare(points: real, part: nat, total: nat, share: real) {
    if total == 0 then share == 0.0 else share * total as real == points * part as real
  }

  lemma ShareOf(points: real, part: nat, total: nat, share: real)
    requires IsShare(points, part, total, share)
    ensures share == points * Ratio(part, total)
  {
    if total > 0 {
      var q := part as real / total as real;
      assert q * total as real == part as real;
      assert (share - points * q) * total as real == 0.0;
    }
  }

  lemma CoverageByShares(s: NetworkState, a: nat, b: nat, c: nat, devices: real, services: real, links: real)
    requires IsShare(50.0, a, |DeviceIds(s)|, devices) && IsShare(30.0, b, |AllServices(s)|, services)
    requires IsShare(20.0, c, |LinkRefs(s.links)|, links)
    ensures Coverage(s, a, b, c) == devices + services + links
  {
    ShareOf(50.0, a, |DeviceIds(s)|, devices);
    ShareOf(30.0, b, |AllServices(s)|, services);
    ShareOf(20.0, c, |LinkRefs(s.links)|, links);
  }

  lemma ScoreWeighs(coverage: real, severity: Severity)
    ensures Score(coverage, severity) == Round2(Weighed(severity, coverage))
  {
    match severity case Warning => case Minor => case Major => case Critical =>
  }

  lemma ReportScores(s: NetworkState, f: Fault, p: PropagationResult, coverage: real)
    requires Coverage(s, |p.devices|, |ServiceList(s, f, p)|, |p.links|) == coverage
    ensures Report(s, f, p).score == Score(coverage, f.severity)
  {
  }

  /** The parts of a result's score: its share of fifty points for devices, thirty for services and twenty for links. */
  ghost predicate Shares(e: Engine, f: Fault, p: PropagationResult, devices: real, services: real, links: real) {
    && IsShare(50.0, |p.devices|, |e.state.devices|, devices)
    && IsShare(30.0, |ServiceList(e.state, f, p)|, |Services(e.state)|, services)
    && IsShare(20.0, |p.links|, |e.state.links|, links)
  }

  lemma SharesCover(e: Engine, f: Fault, p: PropagationResult, devices: real, services: real, links: real)
    requires Ready(e) && Shares(e, f, p, devices, services, links)
    ensures Coverage(e.state, |p.devices|, |ServiceList(e.state, f, p)|, |p.links|) == devices + services + links
  {
    CountsMatch(e.state);
    AllServicesAre(e.state);
    CoverageByShares(e.state, |p.devices|, |ServiceList(e.state, f, p)|, |p.links|, devices, services, links);
  }

  /** The score of every result is the weighed sum of its shares, at most 100, to two decimals. */
  lemma ScoreByShares(e: Engine, f: Fault, p: PropagationResult, devices: real, services: real, links: real)
    requires Ready(e) && Shares(e, f, p, devices, services, links)
    ensures Report(e.state, f, p).score == Round2(Weighed(f.severity, devices + services + links))
  {
    SharesCover(e, f, p, devices, services, links);
    ReportScores(e.state, f, p, devices + services + links);
    ScoreWeighs(devices + services + links, f.severity);
  }

  lemma RingLinkShares(e: Engine, f: Fault, p: PropagationResult, share: real)
    requires f.kind.LinkFault? && p.devices == {} && |p.links| == 1 && IsShare(20.0, 1, |e.state.links|, share)
    ensures Shares(e, f, p, 0.0, 0.0, share)
  {
    NothingListed(e.state.devices);
  }

  lemma LinkShareScores(e: Engine, f: Fault, p: PropagationResult, share: real)
    requires Ready(e) && f.kind.LinkFault? && p.devices == {} && |p.links| == 1 && IsShare(20.0, 1, |e.state.links|, share)
    ensures Report(e.state, f, p).score == Round2(Weighed(f.severity, share))
  {
    RingLinkShares(e, f, p, share);
    ScoreByShares(e, f, p, 0.0, 0.0, share);
    assert 0.0 + 0.0 + share == share;
  }

  /** A readable link that is no bridge: on a network of m links its fault scores its share of the links alone, 20/m by
      weight. */
  lemma RingLinkScore(e: Engine, f: Fault, p: PropagationResult, share: real)
    requires Ready(e) && ReadableNetwork(e.state) && IsShare(20.0, 1, |e.state.links|, share)
    requires f.kind.LinkFault? && LinkRef(f.kind.ends) in LinkRefs(e.state.links)
    requires !IsBridge(e.graph, f.kind.ends.source, f.kind.ends.target)
    requires p == PropagationResult(f.id, {}, {LinkRef(f.kind.ends)})
    ensures |e.state.links| > 0 && Outcome(e, f) == Ok(p)
    ensures Report(e.state, f, p).score == Round2(Weighed(f.severity, share))
  {
    RingLinkOutcome(e, f);
    LinkShareScores(e, f, p, share);
  }

  lemma RingLinkOutcome(e: Engine, f: Fault)
    requires Ready(e) && ReadableNetwork(e.state)
    requires f.kind.LinkFault? && LinkRef(f.kind.ends) in LinkRefs(e.state.links)
    requires !IsBridge(e.graph, f.kind.ends.source, f.kind.ends.target)
    ensures |e.state.links| > 0 && Outcome(e, f) == Ok(PropagationResult(f.id, {}, {LinkRef(f.kind.ends)}))
  {
    var ends := f.kind.ends;
    ReadyGraph(e, ends);
    RingLinkCutsNothing(e.graph, e.entries, ends.source, ends.target);
    NoLossOutcome(e, f);
    ReadableValidates(e.state, PropagationResult(f.id, {}, {LinkRef(ends)}));
    LinkCounted(e.state, ends);
  }

  lemma NoLossOutcome(e: Engine, f: Fault)
    requires f.kind.LinkFault? && LinkRef(f.kind.ends) in LinkRefs(e.state.links)
    requires CutByLink(e.graph, e.entries, f.kind.ends.source, f.kind.ends.target) == {}
    ensures Outcome(e, f) == Validated(e.state, PropagationResult(f.id, {}, {LinkRef(f.kind.ends)}))
  {
    assert TouchedLinks(e.state, {}) + {LinkRef(f.kind.ends)} == {LinkRef(f.kind.ends)};
  }

  lemma LinkCounted(s: NetworkState, ends: Link)
    requires LinkRef(ends) in LinkRefs(s.links)
    ensures |s.links| > 0
  {
  }

  lemma {:induction false} NothingListed(devices: seq<Device>)
    ensures AffectedServices(devices, {}) == []
  {
    if devices != [] {
      NothingListed(devices[1..]);
    }
  }

  /** A service of a network of n devices and k services in all: its fault scores 50/n and 30/k by weight. */
  lemma ServiceFaultScore(e: Engine, f: Fault, devices: real, services: real)
    requires Ready(e) && devices * |e.state.devices| as real == 50.0 && services * |Services(e.state)| as real == 30.0
    requires f.kind.ServiceDown? && exists d :: d in e.state.devices && d.id == f.kind.host && f.kind.service in d.services
    ensures Outcome(e, f) == Ok(PropagationResult(f.id, {f.kind.host}, {}))
    ensures Report(e.state, f, Outcome(e, f).value).score == Round2(Weighed(f.severity, devices + services))
  {
    var d :| d in e.state.devices && d.id == f.kind.host && f.kind.service in d.services;
    assert d.id in DeviceIds(e.state);
    var p := PropagationResult(f.id, {f.kind.host}, {});
    ServiceShares(e, f, p, devices, services);
    ScoreByShares(e, f, p, devices, services, 0.0);
    assert devices + services + 0.0 == devices + services;
  }

  lemma ServiceShares(e: Engine, f: Fault, p: PropagationResult, devices: real, services: real)
    requires devices * |e.state.devices| as real == 50.0 && services * |Services(e.state)| as real == 30.0
    requires f.kind.ServiceDown? && |p.devices| == 1 && p.links == {}
    ensures Shares(e, f, p, devices, services, 0.0)
  {
  }

  // ---- the level ----

  /** The level is read off the rounded score, at 25, 50 and 75. */
  lemma LevelByScore(s: NetworkState, f: Fault, p: PropagationResult)
    ensures var r := Report(s, f, p);
            && (r.level == Low <==> r.score < 25.0)
            && (r.level == Medium <==> 25.0 <= r.score < 50.0)
            && (r.level == High <==> 50.0 <= r.score < 75.0)
            && (r.level == CriticalImpact <==> r.score >= 75.0)
  {
  }

  /** A lone device without services: its loss scores 50, 40, 30 or 20, and is high only when it is critical. */
  lemma LoneDeviceLoss(id: Node, f: Fault)
    requires f.kind == DeviceDown(id)
    ensures var s := NetworkState([Device(id, [], None)], []);
            var e := Engine(s, NetworkGraph({id}, []), {id}, {id});
            var p := PropagationResult(f.id, {id}, {});
            && Ready(e) && Outcome(e, f) == Ok(p)
            && (Report(s, f, p).score, Report(s, f, p).level) ==
               match f.severity case Critical => (50.0, High) case Major => (40.0, Medium) case Minor => (30.0, Medium) case Warning => (20.0, Low)
  {
    var d := Device(id, [], None);
    var s := NetworkState([d], []);
    var e := Engine(s, NetworkGraph({id}, []), {id}, {id});
    var p := PropagationResult(f.id, {id}, {});
    LoneDevice(d);
    SoleEntryDown(e, f, id);
    LoneScore(e, f, p, d);
  }

  lemma LoneScore(e: Engine, f: Fault, p: PropagationResult, d: Device)
    requires Ready(e) && e.state == NetworkState([d], []) && d.services == []
    requires p.devices == {d.id} && p.links == {} && !f.kind.ServiceDown?
    ensures var r := Report(e.state, f, p);
            (r.score, r.level) ==
            match f.severity case Critical => (50.0, High) case Major => (40.0, Medium) case Minor => (30.0, Medium) case Warning => (20.0, Low)
  {
    LoneShares(e, f, p, d);
    ScoreByShares(e, f, p, 50.0, 0.0, 0.0);
    assert 50.0 + 0.0 + 0.0 == 50.0;
    HalfWeight(f.severity);
    LevelByScore(e.state, f, p);
  }

  lemma LoneShares(e: Engine, f: Fault, p: PropagationResult, d: Device)
    requires e.state == NetworkState([d], []) && d.services == [] && p.devices == {d.id} && p.links == {} && !f.kind.ServiceDown?
    ensures Shares(e, f, p, 50.0, 0.0, 0.0)
  {
    assert Services(e.state) == {};
    assert RefsOf(d) == [] && [d][1..] == [] && AffectedServices([d], {d.id}) == [];
  }

  lemma HalfWeight(severity: Severity)
    ensures Round2(Weighed(severity, 50.0)) ==
            match severity case Critical => 50.0 case Major => 40.0 case Minor => 30.0 case Warning => 20.0
  {
    assert RoundHalfEven(5000.0) == 5000 && RoundHalfEven(4000.0) == 4000;
    assert RoundHalfEven(3000.0) == 3000 && RoundHalfEven(2000.0) == 2000;
  }
}
