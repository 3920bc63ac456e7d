/** Impact scoring of a propagated fault, and dominance of device faults over link faults. */
module Impact {
  import opened Outcomes
  import opened Graphs
  import opened Propagation
  import opened Rounding
  import FaultTargets

  datatype Level = Low | Medium | High | CriticalImpact

  datatype ServiceRef = ServiceRef(host: Node, service: string)

  datatype ImpactResult = ImpactResult(devices: set<Node>, services: set<ServiceRef>, score: real, level: Level)

  datatype AnalyzerError =
    | DuplicateDeviceIds
    | DuplicateLinks
    | FaultMismatch
    | UnknownAffectedDevice
    | UnknownAffectedLink
    | UnknownServiceHost
    | UnknownServiceName

  function Weight(s: Severity): real {
    match s
    case Warning => 0.4
    case Minor => 0.6
    case Major => 0.8
    case Critical => 1.0
  }

  function Ratio(affected: nat, total: nat): real {
    if total == 0 then 0.0 else affected as real / total as real
  }

  function LevelOf(score: real): Level {
    if score < 25.0 then Low else if score < 50.0 then Medium else if score < 75.0 then High else CriticalImpact
  }

  function Rank(level: Level): nat {
    match level
    case Low => 0
    case Medium => 1
    case High => 2
    case CriticalImpact => 3
  }

  function RefsOf(d: Device): seq<ServiceRef> {
    seq(|d.services|, i requires 0 <= i < |d.services| => ServiceRef(d.id, d.services[i]))
  }

  /** The services of the affected devices, one entry per listing: a service listed twice counts twice. */
  function AffectedServices(devices: seq<Device>, affected: set<Node>): seq<ServiceRef> {
    if devices == [] then []
    else (if devices[0].id in affected then RefsOf(devices[0]) else []) + AffectedServices(devices[1..], affected)
  }

  /** Every service reference of the state, without duplicates. */
  function AllServices(s: NetworkState): set<ServiceRef> {
    set r | r in AffectedServices(s.devices, DeviceIds(s))
  }

  function Coverage(s: NetworkState, devices: nat, services: nat, links: nat): real {
    50.0 * Ratio(devices, |DeviceIds(s)|)
    + 30.0 * Ratio(services, |AllServices(s)|)
    + 20.0 * Ratio(links, |LinkRefs(s.links)|)
  }

  function Score(coverage: real, severity: Severity): real {
    var weighted := coverage * Weight(severity);
    Round2(if weighted < 100.0 then weighted else 100.0)
  }

  /** The canonical texts of the links; the analyzer refuses a state in which two links share one. */
  function LinkTexts(links: seq<Link>): set<string> {
    set l | l in links :: FaultTargets.CanonicalText(l.source, l.target)
  }

  function Analyze(s: NetworkState, f: Fault, p: PropagationResult): Result<ImpactResult, AnalyzerError> {
    if |DeviceIds(s)| != |s.devices| then Err(DuplicateDeviceIds)
    else if |LinkTexts(s.links)| != |s.links| then Err(DuplicateLinks)
    else if f.id != p.faultId then Err(FaultMismatch)
    else if !(p.devices <= DeviceIds(s)) then Err(UnknownAffectedDevice)
    else if !(p.links <= LinkRefs(s.links)) then Err(UnknownAffectedLink)
    else if f.kind.ServiceDown? && f.kind.host !in DeviceIds(s) then Err(UnknownServiceHost)
    else if f.kind.ServiceDown? && ServiceRef(f.kind.host, f.kind.service) !in AllServices(s) then Err(UnknownServiceName)
    else
      Ok(Report(s, f, p))
  }

  function ServiceList(s: NetworkState, f: Fault, p: PropagationResult): seq<ServiceRef> {
    if f.kind.ServiceDown? then [ServiceRef(f.kind.host, f.kind.service)] else AffectedServices(s.devices, p.devices)
  }

  function ReportScore(s: NetworkState, f: Fault, p: PropagationResult): real {
    Score(Coverage(s, |p.devices|, |ServiceList(s, f, p)|, |p.links|), f.severity)
  }

  function Report(s: NetworkState, f: Fault, p: PropagationResult): ImpactResult {
    ImpactResult(p.devices, (set r | r in ServiceList(s, f, p)), ReportScore(s, f, p), LevelOf(ReportScore(s, f, p)))
  }

  // ---- counting ----

  lemma {:induction false} AffectedServicesMembers(devices: seq<Device>, affected: set<Node>)
    ensures forall r :: r in AffectedServices(devices, affected) <==>
              r.host in affected && exists d :: d in devices && d.id == r.host && r.service in d.services
  {
    if devices != [] {
      AffectedServicesMembers(devices[1..], affected);
      assert devices == [devices[0]] + devices[1..];
      forall r
        ensures r in RefsOf(devices[0]) <==> r.host == devices[0].id && r.service in devices[0].services
      {
        if r.host == devices[0].id && r.service in devices[0].services {
          var i :| 0 <= i < |devices[0].services| && devices[0].services[i] == r.service;
          assert RefsOf(devices[0])[i] == r;
        }
      }
    }
  }

  lemma {:induction false} AffectedServicesGrow(devices: seq<Device>, a: set<Node>, b: set<Node>)
    requires a <= b
    ensures |AffectedServices(devices, a)| <= |AffectedServices(devices, b)|
  {
    if devices != [] {
      AffectedServicesGrow(devices[1..], a, b);
    }
  }

  lemma {:induction false} CardinalityGrows<T>(a: set<T>, b: set<T>)
    requires a <= b
    ensures |a| <= |b|
  {
    assert b == a + (b - a);
  }

  ghost predicate DistinctKeys<T, U>(xs: seq<T>, key: T -> U) {
    forall i, j | 0 <= i < j < |xs| :: key(xs[i]) != key(xs[j])
  }

  /** There are at most as many keys as items, and as many exactly when no two items share one. */
  lemma {:induction false} DistinctCount<T, U>(xs: seq<T>, key: T -> U, keys: set<U>)
    requires keys == set x | x in xs :: key(x)
    ensures |keys| <= |xs|
    ensures |keys| == |xs| <==> DistinctKeys(xs, key)
    decreases |xs|
  {
    if xs == [] {
      assert keys == {};
    } else {
      var first, others := xs[0], xs[1..];
      var rest := set x | x in others :: key(x);
      DistinctCount(others, key, rest);
      assert xs == [first] + others;
      assert keys == rest + {key(first)};
      FirstKey(first, others, key, rest);
    }
  }

  lemma FirstKey<T, U>(first: T, others: seq<T>, key: T -> U, rest: set<U>)
    requires rest == set x | x in others :: key(x)
    ensures DistinctKeys([first] + others, key) <==> DistinctKeys(others, key) && key(first) !in rest
  {
    var xs := [first] + others;
    if key(first) in rest {
      var x :| x in others && key(x) == key(first);
      var j :| 0 <= j < |others| && others[j] == x;
      assert key(xs[0]) == key(xs[j + 1]);
    }
    if DistinctKeys(xs, key) {
      forall i, j | 0 <= i < j < |others|
        ensures key(others[i]) != key(others[j])
      {
        assert xs[i + 1] == others[i] && xs[j + 1] == others[j];
      }
    }
  }

  lemma RatioGrows(a: nat, b: nat, total: nat)
    requires a <= b
    ensures 0.0 <= Ratio(a, total) <= Ratio(b, total)
  {
  }

  lemma ScoreGrows(a: real, b: real, severity: Severity)
    requires 0.0 <= a <= b
    ensures 0.0 <= Score(a, severity) <= Score(b, severity) <= 100.0
  {
    assert a * Weight(severity) <= b * Weight(severity);
    RoundingMonotone();
    var x := if a * Weight(severity) < 100.0 then a * Weight(severity) else 100.0;
    var y := if b * Weight(severity) < 100.0 then b * Weight(severity) else 100.0;
    RoundingKeepsBounds(x, 0, 100);
    RoundingKeepsBounds(y, 0, 100);
  }

  // ---- main results ----

  lemma CountsMatch(s: NetworkState)
    requires Consistent(s)
    ensures |DeviceIds(s)| == |s.devices| && |LinkRefs(s.links)| == |s.links|
  {
    DistinctCount(s.devices, (d: Device) => d.id, DeviceIds(s));
    DistinctCount(s.links, LinkRef, LinkRefs(s.links));
  }

  lemma TextsMatch(links: seq<Link>)
    ensures |LinkTexts(links)| == |links| <==> DistinctTexts(links)
  {
    DistinctCount(links, (l: Link) => FaultTargets.CanonicalText(l.source, l.target), LinkTexts(links));
  }

  lemma ScoreInRange(s: NetworkState, devices: nat, services: nat, links: nat, severity: Severity)
    ensures 0.0 <= Score(Coverage(s, devices, services, links), severity) <= 100.0
  {
    RatioGrows(0, devices, |DeviceIds(s)|);
    RatioGrows(0, services, |AllServices(s)|);
    RatioGrows(0, links, |LinkRefs(s.links)|);
    ScoreGrows(Coverage(s, devices, services, links), Coverage(s, devices, services, links), severity);
  }

  lemma OutcomeWithinState(e: Engine, f: Fault)
    requires Ready(e)
    ensures Outcome(e, f).Ok? ==>
              var p := Outcome(e, f).value;
              && p.faultId == f.id && p.devices <= DeviceIds(e.state) && p.links <= LinkRefs(e.state.links)
              && (f.kind.ServiceDown? ==> ServiceRef(f.kind.host, f.kind.service) in AllServices(e.state))
  {
    AffectedServicesMembers(e.state.devices, DeviceIds(e.state));
  }

  /** The analyzer accepts a result of the engine exactly when no two links share a text, and the score lies between
      0 and 100. */
  lemma EngineResultsAccepted(e: Engine, f: Fault)
    requires Ready(e)
    ensures Outcome(e, f).Ok? ==>
              var p := Outcome(e, f).value;
              && Analyze(e.state, f, p) == (if DistinctTexts(e.state.links) then Ok(Report(e.state, f, p)) else Err(DuplicateLinks))
              && 0.0 <= Report(e.state, f, p).score <= 100.0
  {
    if Outcome(e, f).Ok? {
      CountsMatch(e.state);
      TextsMatch(e.state.links);
      OutcomeWithinState(e, f);
      var p := Outcome(e, f).value;
      ScoreInRange(e.state, |p.devices|, |ServiceList(e.state, f, p)|, |p.links|, f.severity);
    }
  }

  /** When every link can be read back, no fault of a known target is refused, by the engine or by the analyzer. */
  lemma ReadableNetworkAccepted(e: Engine, f: Fault)
    requires Ready(e) && ReadableNetwork(e.state)
    ensures Outcome(e, f).Err? ==> Outcome(e, f).error in {UnknownDevice, UnknownService, UnknownLink}
    ensures Outcome(e, f).Ok? ==> Analyze(e.state, f, Outcome(e, f).value) == Ok(Report(e.state, f, Outcome(e, f).value))
  {
    ReadableNetworkReports(e, f);
    if Outcome(e, f).Ok? {
      EngineResultsAccepted(e, f);
    }
  }

  lemma FewerLinksValidate(s: NetworkState, small: PropagationResult, big: PropagationResult)
    requires small.links <= big.links && Validated(s, big).Ok?
    ensures Validated(s, small) == Ok(small)
  {
  }

  lemma DominatedSets(e: Engine, link: Fault, device: Fault)
    requires link.kind.LinkFault? && LinkRef(link.kind.ends) in LinkRefs(e.state.links)
    requires device.kind.DeviceDown? && device.kind.device in LinkRef(link.kind.ends)
    ensures Ready(e) && Outcome(e, device).Ok? ==>
              && Outcome(e, link).Ok?
              && Outcome(e, link).value.devices <= Outcome(e, device).value.devices
              && Outcome(e, link).value.links <= Outcome(e, device).value.links
  {
    if Ready(e) && Outcome(e, device).Ok? {
      var small := LinkResult(e, link);
      DeviceResult(e, device);
      DominatedResults(e, link.kind.ends, device.kind.device, small, Outcome(e, device).value);
    }
  }

  lemma LinkResult(e: Engine, f: Fault) returns (p: PropagationResult)
    requires f.kind.LinkFault? && LinkRef(f.kind.ends) in LinkRefs(e.state.links)
    ensures Outcome(e, f) == Validated(e.state, p)
    ensures p.devices == CutByLink(e.graph, e.entries, f.kind.ends.source, f.kind.ends.target)
    ensures p.links == TouchedLinks(e.state, p.devices) + {LinkRef(f.kind.ends)}
  {
    var cut := CutByLink(e.graph, e.entries, f.kind.ends.source, f.kind.ends.target);
    p := PropagationResult(f.id, cut, TouchedLinks(e.state, cut) + {LinkRef(f.kind.ends)});
  }

  lemma DeviceResult(e: Engine, f: Fault)
    requires f.kind.DeviceDown? && Outcome(e, f).Ok?
    ensures var p := Outcome(e, f).value;
            p.devices == CutByDevice(e.graph, e.entries, f.kind.device) && p.links == TouchedLinks(e.state, p.devices)
            && Validated(e.state, p).Ok?
  {
  }

  lemma DominatedResults(e: Engine, ends: Link, d: Node, small: PropagationResult, big: PropagationResult)
    requires LinkRef(ends) in LinkRefs(e.state.links) && d in LinkRef(ends)
    requires small.devices == CutByLink(e.graph, e.entries, ends.source, ends.target)
    requires small.links == TouchedLinks(e.state, small.devices) + {LinkRef(ends)}
    requires big.devices == CutByDevice(e.graph, e.entries, d) && big.links == TouchedLinks(e.state, big.devices)
    ensures small.devices <= big.devices && small.links <= big.links
    ensures Validated(e.state, big).Ok? ==> Validated(e.state, small) == Ok(small)
  {
    LinkCutInsideDeviceCut(e.graph, e.entries, ends.source, ends.target, d);
    EndTouched(e.state, ends, d, big.devices);
    TouchedGrows(e.state, small.devices, big.devices);
    if Validated(e.state, big).Ok? {
      FewerLinksValidate(e.state, small, big);
    }
  }

  lemma EndTouched(s: NetworkState, ends: Link, d: Node, devices: set<Node>)
    requires LinkRef(ends) in LinkRefs(s.links) && d in LinkRef(ends) && d in devices
    ensures LinkRef(ends) in TouchedLinks(s, devices)
  {
    var l :| l in s.links && LinkRef(l) == LinkRef(ends);
    assert d in LinkRef(l);
    TouchedRef(s, devices, l);
  }

  lemma TouchedGrows(s: NetworkState, few: set<Node>, many: set<Node>)
    requires few <= many
    ensures TouchedLinks(s, few) <= TouchedLinks(s, many)
  {
  }

  lemma DominatedReport(s: NetworkState, link: Fault, device: Fault, small: PropagationResult, big: PropagationResult)
    requires link.kind.LinkFault? && device.kind.DeviceDown? && link.severity == device.severity
    requires small.devices <= big.devices && small.links <= big.links
    ensures Report(s, link, small).services <= Report(s, device, big).services
    ensures Report(s, link, small).score <= Report(s, device, big).score
    ensures Rank(Report(s, link, small).level) <= Rank(Report(s, device, big).level)
  {
    CompareScores(s, link, device, small, big);
    AffectedServicesMembers(s.devices, small.devices);
    AffectedServicesMembers(s.devices, big.devices);
  }

  /** A link fault never weighs more than a fault, of the same severity, of the device at either end; and it is
      reported whenever the device fault is. */
  lemma LinkFaultDominated(e: Engine, link: Fault, device: Fault)
    requires Ready(e) && link.severity == device.severity
    requires link.kind.LinkFault? && LinkRef(link.kind.ends) in LinkRefs(e.state.links)
    requires device.kind.DeviceDown? && device.kind.device in LinkRef(link.kind.ends)
    ensures Outcome(e, device).Ok? ==> Outcome(e, link).Ok?
    ensures Outcome(e, device).Ok? ==>
              var small, big := Outcome(e, link).value, Outcome(e, device).value;
              && small.devices <= big.devices
              && small.links <= big.links
              && Report(e.state, link, small).services <= Report(e.state, device, big).services
              && Report(e.state, link, small).score <= Report(e.state, device, big).score
              && Rank(Report(e.state, link, small).level) <= Rank(Report(e.state, device, big).level)
              && (Analyze(e.state, link, small) == Ok(Report(e.state, link, small)) <==>
                  Analyze(e.state, device, big) == Ok(Report(e.state, device, big)))
  {
    DominatedSets(e, link, device);
    if Outcome(e, device).Ok? {
      EngineResultsAccepted(e, link);
      EngineResultsAccepted(e, device);
      DominatedReport(e.state, link, device, Outcome(e, link).value, Outcome(e, device).value);
    }
  }

  lemma CompareScores(s: NetworkState, f: Fault, g: Fault, small: PropagationResult, big: PropagationResult)
    requires !f.kind.ServiceDown? && !g.kind.ServiceDown? && f.severity == g.severity
    requires small.devices <= big.devices && small.links <= big.links
    ensures ReportScore(s, f, small) <= ReportScore(s, g, big)
  {
    var few, many := |ServiceList(s, f, small)|, |ServiceList(s, g, big)|;
    CardinalityGrows(small.devices, big.devices);
    CardinalityGrows(small.links, big.links);
    AffectedServicesGrow(s.devices, small.devices, big.devices);
    RatioGrows(|small.devices|, |big.devices|, |DeviceIds(s)|);
    RatioGrows(few, many, |AllServices(s)|);
    RatioGrows(|small.links|, |big.links|, |LinkRefs(s.links)|);
    ScoreGrows(Coverage(s, |small.devices|, few, |small.links|), Coverage(s, |big.devices|, many, |big.links|), f.severity);
  }

  // ---- services listed twice ----

  ghost predicate NoRepeats<T>(xs: seq<T>) {
    forall i, j | 0 <= i < j < |xs| :: xs[i] != xs[j]
  }

  /** None of the devices lists a service twice. */
  ghost predicate ListedOnce(s: NetworkState, affected: set<Node>) {
    forall d | d in s.devices && d.id in affected :: NoRepeats(d.services)
  }

  lemma NoRepeatsConcat<T>(xs: seq<T>, ys: seq<T>)
    requires forall x | x in xs :: x !in ys
    ensures NoRepeats(xs + ys) <==> NoRepeats(xs) && NoRepeats(ys)
  {
    var all := xs + ys;
    if NoRepeats(all) {
      forall i, j | 0 <= i < j < |ys|
        ensures ys[i] != ys[j]
      {
        assert all[|xs| + i] == ys[i] && all[|xs| + j] == ys[j];
      }
      forall i, j | 0 <= i < j < |xs|
        ensures xs[i] != xs[j]
      {
        assert all[i] == xs[i] && all[j] == xs[j];
      }
    }
    if NoRepeats(xs) && NoRepeats(ys) {
      forall i, j | 0 <= i < j < |all|
        ensures all[i] != all[j]
      {
        if i < |xs| <= j {
          assert xs[i] in xs && ys[j - |xs|] in ys;
        }
      }
    }
  }

  lemma RefsRepeat(d: Device)
    ensures NoRepeats(RefsOf(d)) <==> NoRepeats(d.services)
  {
    if NoRepeats(RefsOf(d)) {
      forall i, j | 0 <= i < j < |d.services|
        ensures d.services[i] != d.services[j]
      {
        assert RefsOf(d)[i] != RefsOf(d)[j];
      }
    }
  }

  lemma {:induction false} AffectedServicesRepeat(devices: seq<Device>, affected: set<Node>)
    requires forall i, j | 0 <= i < j < |devices| :: devices[i].id != devices[j].id
    ensures NoRepeats(AffectedServices(devices, affected)) <==>
            forall d | d in devices && d.id in affected :: NoRepeats(d.services)
  {
    if devices != [] {
      assert devices == [devices[0]] + devices[1..];
      AffectedServicesRepeat(devices[1..], affected);
      AffectedServicesMembers(devices[1..], affected);
      RefsRepeat(devices[0]);
      if devices[0].id in affected {
        forall r | r in RefsOf(devices[0])
          ensures r !in AffectedServices(devices[1..], affected)
        {
          assert r.host == devices[0].id;
        }
        NoRepeatsConcat(RefsOf(devices[0]), AffectedServices(devices[1..], affected));
      } else {
        assert AffectedServices(devices, affected) == AffectedServices(devices[1..], affected);
      }
    }
  }

  /** For any set of devices, their listings outnumber their services exactly when one of them lists a service
      twice. */
  lemma ListingsOutnumberServices(s: NetworkState, affected: set<Node>)
    requires DistinctDevices(s)
    ensures var listings := AffectedServices(s.devices, affected);
            && |set r | r in listings| <= |listings|
            && (|set r | r in listings| == |listings| <==> ListedOnce(s, affected))
  {
    var listings := AffectedServices(s.devices, affected);
    var same := (r: ServiceRef) => r;
    DistinctCount(listings, same, set r | r in listings);
    AffectedServicesRepeat(s.devices, affected);
    assert NoRepeats(listings) <==> DistinctKeys(listings, same);
  }

  /** The service ratio of a whole network exceeds one exactly when some device lists a service twice. */
  lemma WholeNetworkRatio(s: NetworkState)
    requires DistinctDevices(s)
    ensures |AllServices(s)| <= |AffectedServices(s.devices, DeviceIds(s))|
    ensures |AllServices(s)| == |AffectedServices(s.devices, DeviceIds(s))| <==> ListedOnce(s, DeviceIds(s))
  {
    ListingsOutnumberServices(s, DeviceIds(s));
  }

  lemma ServiceRatioBounded(s: NetworkState, affected: set<Node>)
    requires DistinctDevices(s) && ListedOnce(s, affected)
    ensures |AffectedServices(s.devices, affected)| <= |AllServices(s)|
  {
    var listings := AffectedServices(s.devices, affected);
    ListingsOutnumberServices(s, affected);
    AffectedServicesMembers(s.devices, affected);
    AffectedServicesMembers(s.devices, DeviceIds(s));
    CardinalityGrows((set r | r in listings), AllServices(s));
  }

  // ---- when the cap binds ----

  lemma RatioAtMostOne(affected: nat, total: nat)
    requires affected <= total
    ensures Ratio(affected, total) <= 1.0
    ensures affected == total > 0 ==> Ratio(affected, total) == 1.0
  {
  }

  lemma CoverageAtMost(s: NetworkState, devices: nat, services: nat, links: nat)
    requires devices <= |DeviceIds(s)| && services <= |AllServices(s)| && links <= |LinkRefs(s.links)|
    ensures Coverage(s, devices, services, links) <= 100.0
  {
    RatioAtMostOne(devices, |DeviceIds(s)|);
    RatioAtMostOne(services, |AllServices(s)|);
    RatioAtMostOne(links, |LinkRefs(s.links)|);
  }

  /** When no affected device lists a service twice, the coverage of an engine result never exceeds 100, so the cap
      of the score (whose weights are at most 1) has no effect. */
  lemma CapNeverBinds(e: Engine, f: Fault, p: PropagationResult)
    requires Ready(e) && Outcome(e, f) == Ok(p) && (f.kind.ServiceDown? || ListedOnce(e.state, p.devices))
    ensures Coverage(e.state, |p.devices|, |ServiceList(e.state, f, p)|, |p.links|) <= 100.0
  {
    OutcomeWithinState(e, f);
    CardinalityGrows(p.devices, DeviceIds(e.state));
    CardinalityGrows(p.links, LinkRefs(e.state.links));
    if f.kind.ServiceDown? {
      CardinalityGrows({ServiceRef(f.kind.host, f.kind.service)}, AllServices(e.state));
    } else {
      ServiceRatioBounded(e.state, p.devices);
    }
    CoverageAtMost(e.state, |p.devices|, |ServiceList(e.state, f, p)|, |p.links|);
  }

  ghost predicate TotalOutage(s: NetworkState, f: Fault, p: PropagationResult) {
    && Consistent(s) && !f.kind.ServiceDown?
    && p.devices == DeviceIds(s) != {} && p.links == LinkRefs(s.links) != {} && AllServices(s) != {}
  }

  lemma ScaledAgainstOne(q: real, t: real)
    requires t > 0.0
    ensures (q < 1.0 <==> q * t < t) && (q > 1.0 <==> q * t > t)
  {
    assert (1.0 - q) * t == t - q * t;
    if q < 1.0 {
      assert (1.0 - q) * t > 0.0;
    } else {
      assert (q - 1.0) * t >= 0.0;
      assert q > 1.0 ==> (q - 1.0) * t > 0.0;
    }
  }

  lemma RatioAboveOne(affected: nat, total: nat)
    requires 0 < total <= affected
    ensures Ratio(affected, total) >= 1.0
    ensures Ratio(affected, total) > 1.0 <==> affected > total
  {
    var a, t := affected as real, total as real;
    var q := a / t;
    assert q * t == a;
    ScaledAgainstOne(q, t);
  }

  /** The coverage of a total outage exceeds 100 exactly when some device lists a service twice. */
  lemma TotalOutageCoverage(s: NetworkState, f: Fault, p: PropagationResult)
    requires TotalOutage(s, f, p)
    ensures Coverage(s, |p.devices|, |ServiceList(s, f, p)|, |p.links|) >= 100.0
    ensures Coverage(s, |p.devices|, |ServiceList(s, f, p)|, |p.links|) > 100.0 <==> !ListedOnce(s, DeviceIds(s))
  {
    WholeNetworkRatio(s);
    RatioAtMostOne(|p.devices|, |DeviceIds(s)|);
    RatioAboveOne(|ServiceList(s, f, p)|, |AllServices(s)|);
    RatioAtMostOne(|p.links|, |LinkRefs(s.links)|);
  }

  lemma EveryoneBehindEntry(g: Graph, d: Node, all: set<Node>)
    requires ReachableSet(g, {d}) == all && d in all
    ensures CutByDevice(g, {d}, d) == all
  {
    forall v | v in all
      ensures NodeSeparates(g, {d}, d, v)
    {
      assert forall e, p | e in {d} && Walk(g, p, e, v) :: p[0] == d;
    }
  }

  lemma AllLinksTouched(s: NetworkState)
    requires KnownEndpoints(s)
    ensures TouchedLinks(s, DeviceIds(s)) == LinkRefs(s.links)
  {
    forall l | l in s.links
      ensures l.source in DeviceIds(s)
    {
      assert l.source in LinkRef(l) && LinkRef(l) <= DeviceIds(s);
    }
  }

  /** A network that its only entry reaches as a whole. */
  ghost predicate SoleEntry(e: Engine, d: Node) {
    e.entries == {d} && e.baseline == DeviceIds(e.state)
  }

  lemma SoleCut(e: Engine, d: Node)
    requires Ready(e)
    ensures SoleEntry(e, d) ==> d in DeviceIds(e.state) && CutByDevice(e.graph, e.entries, d) == DeviceIds(e.state)
  {
    if SoleEntry(e, d) {
      assert d in e.entries;
      EveryoneBehindEntry(e.graph, d, DeviceIds(e.state));
    }
  }

  lemma ReadableValidates(s: NetworkState, p: PropagationResult)
    requires ReadableNetwork(s)
    ensures Validated(s, p) == Ok(p)
  {
  }

  lemma DeviceOutcome(e: Engine, f: Fault, d: Node, cut: set<Node>, links: set<set<Node>>)
    requires f.kind == DeviceDown(d) && d in DeviceIds(e.state)
    requires cut == CutByDevice(e.graph, e.entries, d) && links == TouchedLinks(e.state, cut)
    ensures Outcome(e, f) == Validated(e.state, PropagationResult(f.id, cut, links))
  {
  }

  /** The loss of the only entry of a network that it reaches as a whole is reported as a total outage. */
  lemma SoleEntryDown(e: Engine, f: Fault, d: Node)
    requires Ready(e) && f.kind == DeviceDown(d)
    ensures SoleEntry(e, d) && ReadableNetwork(e.state) ==>
              Outcome(e, f) == Ok(PropagationResult(f.id, DeviceIds(e.state), LinkRefs(e.state.links)))
  {
    SoleCut(e, d);
    AllLinksTouched(e.state);
    if SoleEntry(e, d) && ReadableNetwork(e.state) {
      DeviceOutcome(e, f, d, DeviceIds(e.state), LinkRefs(e.state.links));
      ReadableValidates(e.state, PropagationResult(f.id, DeviceIds(e.state), LinkRefs(e.state.links)));
    }
  }

  lemma CappedScore(coverage: real)
    requires coverage >= 100.0
    ensures Score(coverage, Critical) == 100.0
  {
    FullScore(Critical);
  }

  /** How far a result's coverage would carry the score without the cap. */
  function Uncapped(s: NetworkState, f: Fault, p: PropagationResult): real {
    Coverage(s, |p.devices|, |ServiceList(s, f, p)|, |p.links|) * Weight(f.severity)
  }

  lemma TotalOutageCap(s: NetworkState, f: Fault, p: PropagationResult)
    requires TotalOutage(s, f, p) && f.severity == Critical
    ensures Report(s, f, p).score == 100.0
    ensures Uncapped(s, f, p) > 100.0 <==> !ListedOnce(s, DeviceIds(s))
  {
    TotalOutageCoverage(s, f, p);
    CriticalScore(s, f, p, Coverage(s, |p.devices|, |ServiceList(s, f, p)|, |p.links|));
  }

  lemma CriticalWeight(x: real)
    ensures x * Weight(Critical) == x
  {
  }

  lemma CriticalScore(s: NetworkState, f: Fault, p: PropagationResult, coverage: real)
    requires f.severity == Critical && coverage == Coverage(s, |p.devices|, |ServiceList(s, f, p)|, |p.links|)
    ensures Uncapped(s, f, p) == coverage
    ensures coverage >= 100.0 ==> Report(s, f, p).score == 100.0
  {
    CriticalWeight(coverage);
    if coverage >= 100.0 {
      CappedScore(coverage);
      assert ReportScore(s, f, p) == 100.0;
    }
  }

  lemma SoleOutage(e: Engine, f: Fault, d: Node, p: PropagationResult)
    requires Ready(e) && f.kind == DeviceDown(d)
    requires p == PropagationResult(f.id, DeviceIds(e.state), LinkRefs(e.state.links))
    ensures SoleEntry(e, d) && LinkRefs(e.state.links) != {} && AllServices(e.state) != {} ==> TotalOutage(e.state, f, p)
  {
    SoleCut(e, d);
  }

  /** On every network with links and services that its only entry reaches as a whole, the cap binds for the loss of
      that entry at critical severity exactly when some device lists a service twice. */
  lemma CapBindsExactly(e: Engine, f: Fault, d: Node, p: PropagationResult)
    requires Ready(e) && f.kind == DeviceDown(d) && f.severity == Critical
    requires p == PropagationResult(f.id, DeviceIds(e.state), LinkRefs(e.state.links))
    ensures SoleEntry(e, d) && ReadableNetwork(e.state) && LinkRefs(e.state.links) != {} && AllServices(e.state) != {} ==>
              && Outcome(e, f) == Ok(p) && Report(e.state, f, p).score == 100.0
              && (Uncapped(e.state, f, p) > 100.0 <==> !ListedOnce(e.state, DeviceIds(e.state)))
  {
    SoleEntryDown(e, f, d);
    if SoleEntry(e, d) && LinkRefs(e.state.links) != {} && AllServices(e.state) != {} {
      SoleOutage(e, f, d, p);
      TotalOutageCap(e.state, f, p);
    }
  }

  lemma LoneDevice(d: Device)
    ensures var s := NetworkState([d], []);
            var e := Engine(s, NetworkGraph({d.id}, []), {d.id}, {d.id});
            Ready(e) && ReadableNetwork(s) && DeviceIds(s) == {d.id} && LinkRefs(s.links) == {}
  {
    var s := NetworkState([d], []);
    assert d in s.devices && DeviceIds(s) == {d.id};
    var g := NetworkGraph({d.id}, []);
    NetworkGraphValid({d.id}, []);
    SelfConnected(g, d.id);
    assert ReachableSet(g, {d.id}) == {d.id};
  }

  /** An engine result whose coverage is 110: a network of one device that lists its one service twice. */
  lemma CoverageAboveHundred(id: Node, service: string, f: Fault)
    requires f.kind == DeviceDown(id) && f.severity == Critical
    ensures var s := NetworkState([Device(id, [service, service], None)], []);
            var e := Engine(s, NetworkGraph({id}, []), {id}, {id});
            var p := PropagationResult(f.id, {id}, {});
            Ready(e) && Outcome(e, f) == Ok(p) && (Uncapped(s, f, p), Report(s, f, p).score) == (110.0, 100.0)
  {
    var d := Device(id, [service, service], None);
    var s := NetworkState([d], []);
    LoneDevice(d);
    SoleEntryDown(Engine(s, NetworkGraph({id}, []), {id}, {id}), f, id);
    TwoListings(d, ServiceRef(id, service));
    TwiceListed(s, f, PropagationResult(f.id, {id}, {}));
  }

  lemma TwiceCovered(s: NetworkState)
    requires |DeviceIds(s)| == 1 && |AllServices(s)| == 1 && |LinkRefs(s.links)| == 0
    ensures Coverage(s, 1, 2, 0) == 110.0
  {
    assert Ratio(1, 1) == 1.0 && Ratio(2, 1) == 2.0 && Ratio(0, 0) == 0.0;
  }

  lemma TwiceListed(s: NetworkState, f: Fault, p: PropagationResult)
    requires f.kind.DeviceDown? && f.severity == Critical && |p.devices| == 1 && |p.links| == 0
    requires |DeviceIds(s)| == 1 && |AllServices(s)| == 1 && |LinkRefs(s.links)| == 0
    requires |AffectedServices(s.devices, p.devices)| == 2
    ensures (Uncapped(s, f, p), Report(s, f, p).score) == (110.0, 100.0)
  {
    TwiceCovered(s);
    CappedScore(110.0);
  }

  lemma TwoListings(d: Device, ref: ServiceRef)
    requires d.services == [ref.service, ref.service] && d.id == ref.host
    ensures |AffectedServices([d], {d.id})| == 2
    ensures |AllServices(NetworkState([d], []))| == 1
  {
    var s := NetworkState([d], []);
    assert d in s.devices && DeviceIds(s) == {d.id};
    assert [d][1..] == [] && RefsOf(d) == [ref, ref];
    assert AffectedServices([d], {d.id}) == [ref, ref];
    assert forall r :: r in AffectedServices(s.devices, DeviceIds(s)) <==> r == ref;
    assert AllServices(s) == {ref};
  }

  // ---- calibration ----

  /** A total outage scores the whole weight of its severity: 40, 60, 80 or 100. */
  lemma TotalOutageScore(s: NetworkState, f: Fault, p: PropagationResult)
    requires TotalOutage(s, f, p) && ListedOnce(s, DeviceIds(s))
    ensures match f.severity
            case Warning => Report(s, f, p).score == 40.0 && Report(s, f, p).level == Medium
            case Minor => Report(s, f, p).score == 60.0 && Report(s, f, p).level == High
            case Major => Report(s, f, p).score == 80.0 && Report(s, f, p).level == CriticalImpact
            case Critical => Report(s, f, p).score == 100.0 && Report(s, f, p).level == CriticalImpact
  {
    WholeNetworkRatio(s);
    RatioAtMostOne(|p.devices|, |DeviceIds(s)|);
    RatioAtMostOne(|ServiceList(s, f, p)|, |AllServices(s)|);
    RatioAtMostOne(|p.links|, |LinkRefs(s.links)|);
    assert Coverage(s, |p.devices|, |ServiceList(s, f, p)|, |p.links|) == 100.0;
    FullScore(f.severity);
  }

  lemma FullScore(severity: Severity)
    ensures Score(100.0, severity) == match severity case Warning => 40.0 case Minor => 60.0 case Major => 80.0 case Critical => 100.0
  {
    match severity
    case Warning => assert RoundHalfEven(4000.0) == 4000;
    case Minor => assert RoundHalfEven(6000.0) == 6000;
    case Major => assert RoundHalfEven(8000.0) == 8000;
    case Critical => assert RoundHalfEven(10000.0) == 10000;
  }
}
