/** `ValidationLoop.run`: the loop proved against the plan it follows, whatever the backend and the patcher. */
module ValidationLoop {
  import opened Outcomes
  import PyText
  import opened Firmware
  import opened Validation

  /** What a simulation says to the loop: whether it passed, and whether its error category is infrastructure. */
  datatype Verdict = Verdict(passed: bool, infrastructure: bool)

  /** A backend and a debug agent, as the outcome of each attempt on each firmware. */
  datatype Bench = Bench(
    compiles: (nat, string) -> bool,
    simulate: (nat, string) -> Verdict,
    patch: (nat, string) -> PatchOutcome)

  datatype Report = Report(final: State, iterations: nat)

  /** How one attempt on a candidate comes out. */
  datatype Attempted = CompileError | SimulationPassed | InfraFailure | SimulationError

  function Classify(b: Bench, n: nat, firmware: string): Attempted {
    if !b.compiles(n, firmware) then CompileError
    else
      var verdict := b.simulate(n, firmware);
      if verdict.passed then SimulationPassed else if verdict.infrastructure then InfraFailure else SimulationError
  }

  function StateAfter(a: Attempted): State {
    match a
    case CompileError => COMPILE_FAILED
    case SimulationPassed => PASSED
    case InfraFailure => SIMULATION_FAILED
    case SimulationError => SIMULATION_FAILED
  }

  function AttemptSaves(a: Attempted, n: nat): seq<Artifact> {
    if a == CompileError then [CompileLog(n)] else [CompileLog(n), SimulationLog(n)]
  }

  /** Everything a run does: how it ends, the fixes it spends, the candidates it compiles, the logs it saves. */
  datatype Plan = Plan(result: Result<State, LoopError>, iterations: nat, tried: seq<string>, saves: seq<Artifact>)

  ghost function LoopPlan(b: Bench, max: nat, firmware: string, attempt: nat, iterations: nat): Plan
    decreases if iterations <= max then max - iterations else 0
  {
    var n := attempt + 1;
    var attempted := Classify(b, n, firmware);
    var saves := AttemptSaves(attempted, n);
    match attempted
    case SimulationPassed => Plan(Ok(PASSED), iterations, [firmware], saves + [ReportFile])
    case InfraFailure => Plan(Ok(FAILED), iterations, [firmware], saves + [ReportFile])
    case _ =>
      match b.patch(n, firmware)
      case InvalidFirmware => Plan(Err(DiagnosisRaised), iterations, [firmware], saves)
      case NoPatch => Plan(Ok(FAILED), iterations, [firmware], saves + [ReportFile])
      case Patched(next) =>
        if iterations >= max then Plan(Ok(FAILED), iterations, [firmware], saves + [ReportFile])
        else After(LoopPlan(b, max, next, n, iterations + 1), [firmware], saves)
  }

  function After(p: Plan, tried: seq<string>, saves: seq<Artifact>): Plan {
    p.(tried := tried + p.tried, saves := saves + p.saves)
  }

  lemma AfterAfter(p: Plan, tried: seq<string>, saves: seq<Artifact>, tried': seq<string>, saves': seq<Artifact>)
    ensures After(After(p, tried', saves'), tried, saves) == After(p, tried + tried', saves + saves')
  {
    assert tried + (tried' + p.tried) == tried + tried' + p.tried;
    assert saves + (saves' + p.saves) == saves + saves' + p.saves;
  }

  function Names(saves: seq<Artifact>): set<string> {
    set a | a in saves :: FileName(a)
  }

  /** The trail of states walked so far, ending in the machine's. */
  ghost predicate Trail(path: seq<State>, machine: StateMachine)
    reads machine
  {
    |path| > 0 && path[0] == GENERATED && path[|path| - 1] == machine.current && LegalPath(path)
  }

  method Advance(machine: StateMachine, path: seq<State>, target: State)
    returns (r: Result<State, LoopError>, longer: seq<State>)
    requires Trail(path, machine)
    modifies machine
    ensures Trail(longer, machine)
    ensures r == if target in Successors(old(machine.current)) then Ok(target) else Err(IllegalTransition)
    ensures machine.current == if r.Ok? then target else old(machine.current)
  {
    r := machine.Transition(target);
    longer := if r.Ok? then path + [target] else path;
  }

  method DebugCycle(machine: StateMachine, b: Bench, max: nat, firmware: string, attempt: nat, iterations: nat, path: seq<State>)
    returns (r: Result<Option<string>, LoopError>, spent: nat, longer: seq<State>)
    requires Trail(path, machine) && machine.current in {COMPILE_FAILED, SIMULATION_FAILED}
    modifies machine
    ensures Trail(longer, machine)
    ensures match b.patch(attempt, firmware)
            case InvalidFirmware => r == Err(DiagnosisRaised)
            case NoPatch => r == Ok(None) && spent == iterations && machine.current == FAILED
            case Patched(next) =>
              if iterations >= max then r == Ok(None) && spent == iterations && machine.current == FAILED
              else r == Ok(Some(next)) && spent == iterations + 1 && machine.current == RETRYING
  {
    spent, longer := iterations, path;
    var advanced: Result<State, LoopError>;
    advanced, longer := Advance(machine, longer, DEBUGGING);
    assert advanced.Ok?;
    var patched := b.patch(attempt, firmware);
    if patched.InvalidFirmware? {
      return Err(DiagnosisRaised), spent, longer;
    }
    if patched.NoPatch? || iterations >= max {
      advanced, longer := Advance(machine, longer, FAILED);
      assert advanced.Ok?;
      return Ok(None), spent, longer;
    }
    spent := iterations + 1;
    advanced, longer := Advance(machine, longer, RETRYING);
    assert advanced.Ok?;
    return Ok(Some(patched.source)), spent, longer;
  }

  function Ending(p: Plan): Result<Report, LoopError> {
    match p.result
    case Ok(final) => Ok(Report(final, p.iterations))
    case Err(e) => Err(e)
  }

  /** The saves so far are the beginning of the planned ones and met nothing that was there before. */
  ghost predicate OnPlan(plan: seq<Artifact>, saves: seq<Artifact>, before: set<string>, now: set<string>) {
    saves <= plan && before !! Names(saves) && now == before + Names(saves)
  }

  /** Saving the next planned name, which is new to the plan: it fails exactly when the name was there before. */
  method SaveNext(directory: ArtifactDirectory, name: Artifact, ghost plan: seq<Artifact>, ghost saves: seq<Artifact>, ghost before: set<string>)
    returns (r: Result<string, LoopError>)
    requires OnPlan(plan, saves, before, directory.names) && saves + [name] <= plan && name !in saves
    modifies directory
    ensures r == if FileName(name) in before then Err(ArtifactExists) else Ok(FileName(name))
    ensures r.Ok? ==> OnPlan(plan, saves + [name], before, directory.names)
    ensures r.Err? ==> !(Names(plan) !! before)
  {
    r := directory.Save(FileName(name));
    forall a | a in saves
      ensures FileName(a) != FileName(name)
    {
      if FileName(a) == FileName(name) {
        FileNameInjective(a, name);
      }
    }
    assert name == (saves + [name])[|saves|] == plan[|saves|];
    assert Names(saves + [name]) == Names(saves) + {FileName(name)};
  }

  /** The saves of an attempt one by one. */
  lemma PlannedSaves(plan: seq<Artifact>, saves: seq<Artifact>, a: Attempted, n: nat)
    requires saves + AttemptSaves(a, n) <= plan
    ensures saves + [CompileLog(n)] <= plan
    ensures saves + AttemptSaves(a, n) == saves + [CompileLog(n)] + if a == CompileError then [] else [SimulationLog(n)]
  {
    assert saves + [CompileLog(n)] <= saves + AttemptSaves(a, n);
  }

  method AttemptOnce(machine: StateMachine, b: Bench, n: nat, firmware: string, directory: ArtifactDirectory, path: seq<State>,
                     ghost plan: seq<Artifact>, ghost saves: seq<Artifact>, ghost before: set<string>)
    returns (r: Result<Attempted, LoopError>, longer: seq<State>)
    requires Trail(path, machine) && machine.current in {GENERATED, RETRYING}
    requires OnPlan(plan, saves, before, directory.names) && saves + AttemptSaves(Classify(b, n, firmware), n) <= plan
    requires CompileLog(n) !in saves && SimulationLog(n) !in saves + [CompileLog(n)]
    modifies machine, directory
    ensures Trail(longer, machine)
    ensures r.Ok? ==> r.value == Classify(b, n, firmware) && machine.current == StateAfter(r.value)
    ensures r.Ok? ==> OnPlan(plan, saves + AttemptSaves(r.value, n), before, directory.names)
    ensures r.Err? ==> r.error == ArtifactExists && !(Names(plan) !! before)
  {
    longer := path;
    var advanced: Result<State, LoopError>;
    advanced, longer := Advance(machine, longer, COMPILE_RUNNING);
    assert advanced.Ok?;
    var compiled := b.compiles(n, firmware);
    PlannedSaves(plan, saves, Classify(b, n, firmware), n);
    var saved := SaveNext(directory, CompileLog(n), plan, saves, before);
    if saved.Err? {
      return Err(saved.error), longer;
    }
    if !compiled {
      advanced, longer := Advance(machine, longer, COMPILE_FAILED);
      assert advanced.Ok?;
      return Ok(CompileError), longer;
    }
    advanced, longer := Advance(machine, longer, SIMULATION_RUNNING);
    assert advanced.Ok?;
    var verdict := b.simulate(n, firmware);
    saved := SaveNext(directory, SimulationLog(n), plan, saves + [CompileLog(n)], before);
    if saved.Err? {
      return Err(saved.error), longer;
    }
    advanced, longer := Advance(machine, longer, if verdict.passed then PASSED else SIMULATION_FAILED);
    assert advanced.Ok?;
    return Ok(if verdict.passed then SimulationPassed else if verdict.infrastructure then InfraFailure else SimulationError), longer;
  }

  predicate Debugs(a: Attempted) {
    a == CompileError || a == SimulationError
  }

  /** Whether the loop goes on with a patched candidate. */
  predicate GoesOn(b: Bench, max: nat, firmware: string, n: nat, iterations: nat) {
    Debugs(Classify(b, n, firmware)) && b.patch(n, firmware).Patched? && iterations < max
  }

  /** The plan of a run that ends with attempt `n`. */
  ghost predicate EndsWith(plan: Plan, b: Bench, firmware: string, n: nat, iterations: nat, tried: seq<string>, mine: seq<Artifact>) {
    var attempted := Classify(b, n, firmware);
    plan == if Debugs(attempted) && b.patch(n, firmware).InvalidFirmware? then
              Plan(Err(DiagnosisRaised), iterations, tried + [firmware], mine)
            else
              Plan(Ok(if attempted == SimulationPassed then PASSED else FAILED), iterations, tried + [firmware], mine + [ReportFile])
  }

  /** How a plan unrolls at one attempt: it goes on with the patched candidate, or it ends there. */
  lemma PlanStep(b: Bench, max: nat, firmware: string, attempt: nat, iterations: nat, tried: seq<string>, saves: seq<Artifact>)
    ensures var plan := After(LoopPlan(b, max, firmware, attempt, iterations), tried, saves);
            var n := attempt + 1;
            var mine := saves + AttemptSaves(Classify(b, n, firmware), n);
            && mine <= plan.saves
            && (if GoesOn(b, max, firmware, n, iterations) then
                  plan == After(LoopPlan(b, max, b.patch(n, firmware).source, n, iterations + 1), tried + [firmware], mine)
                else EndsWith(plan, b, firmware, n, iterations, tried, mine))
  {
    var n := attempt + 1;
    var own := AttemptSaves(Classify(b, n, firmware), n);
    assert saves + own + [ReportFile] == saves + (own + [ReportFile]);
    if GoesOn(b, max, firmware, n, iterations) {
      AfterAfter(LoopPlan(b, max, b.patch(n, firmware).source, n, iterations + 1), tried, saves, [firmware], own);
    }
  }

  /** What a finished run reports: the plan's ending, or the clash with a name that was there before. */
  ghost predicate Reported(plan: Plan, r: Result<Report, LoopError>, before: set<string>, now: set<string>) {
    if Names(plan.saves) !! before then r == Ending(plan) && now == before + Names(plan.saves)
    else r == Err(ArtifactExists)
  }

  /** The saves of the attempts before attempt `n`. */
  predicate SavedBefore(saves: seq<Artifact>, n: nat) {
    forall a | a in saves :: !a.ReportFile? && a.attempt < n
  }

  lemma NewNames(saves: seq<Artifact>, a: Attempted, n: nat)
    requires SavedBefore(saves, n)
    ensures CompileLog(n) !in saves && SimulationLog(n) !in saves + [CompileLog(n)]
    ensures ReportFile !in saves + AttemptSaves(a, n) && SavedBefore(saves + AttemptSaves(a, n), n + 1)
  {
  }

  datatype Turn = Again(firmware: string) | Done(r: Result<Report, LoopError>)

  /** One pass through the loop body. */
  method OneTurn(machine: StateMachine, b: Bench, max: nat, firmware: string, n: nat, iterations: nat,
                 directory: ArtifactDirectory, path: seq<State>,
                 ghost plan: Plan, ghost tried: seq<string>, ghost saves: seq<Artifact>, ghost before: set<string>)
    returns (turn: Turn, spent: nat, longer: seq<State>)
    requires Trail(path, machine) && machine.current in {GENERATED, RETRYING}
    requires OnPlan(plan.saves, saves, before, directory.names)
    requires SavedBefore(saves, n)
    requires var mine := saves + AttemptSaves(Classify(b, n, firmware), n);
             && mine <= plan.saves
             && (!GoesOn(b, max, firmware, n, iterations) ==> EndsWith(plan, b, firmware, n, iterations, tried, mine))
    modifies machine, directory
    ensures Trail(longer, machine)
    ensures match turn
            case Again(next) =>
              && GoesOn(b, max, firmware, n, iterations) && next == b.patch(n, firmware).source
              && spent == iterations + 1 && machine.current == RETRYING
              && OnPlan(plan.saves, saves + AttemptSaves(Classify(b, n, firmware), n), before, directory.names)
            case Done(r) =>
              && Reported(plan, r, before, directory.names)
              && (r != Err(ArtifactExists) ==> plan.tried == tried + [firmware])
              && (r.Ok? ==> r.value.final == machine.current)
  {
    ghost var mine := saves + AttemptSaves(Classify(b, n, firmware), n);
    NewNames(saves, Classify(b, n, firmware), n);
    spent := iterations;
    var attempted: Result<Attempted, LoopError>;
    attempted, longer := AttemptOnce(machine, b, n, firmware, directory, path, plan.saves, saves, before);
    if attempted.Err? {
      return Done(Err(attempted.error)), spent, longer;
    }
    if attempted.value == InfraFailure {
      var advanced: Result<State, LoopError>;
      advanced, longer := Advance(machine, longer, FAILED);
      assert advanced.Ok?;
    } else if attempted.value != SimulationPassed {
      var debugged: Result<Option<string>, LoopError>;
      debugged, spent, longer := DebugCycle(machine, b, max, firmware, n, iterations, longer);
      if debugged.Err? {
        return Done(Err(debugged.error)), spent, longer;
      }
      if debugged.value.Some? {
        return Again(debugged.value.value), spent, longer;
      }
    }
    var saved := SaveNext(directory, ReportFile, plan.saves, mine, before);
    if saved.Err? {
      return Done(Err(saved.error)), spent, longer;
    }
    return Done(Ok(Report(machine.current, iterations))), spent, longer;
  }

  /** The run follows its plan unless the directory already holds one of the names the plan saves; it makes
      legal transitions only. */
  method Run(b: Bench, max: nat, firmware: string, directory: ArtifactDirectory)
    returns (r: Result<Report, LoopError>, tried: seq<string>, path: seq<State>)
    modifies directory
    ensures Reported(LoopPlan(b, max, firmware, 0, 0), r, old(directory.names), directory.names)
    ensures r != Err(ArtifactExists) ==> tried == LoopPlan(b, max, firmware, 0, 0).tried
    ensures LegalPath(path) && |path| > 0 && path[0] == GENERATED
    ensures r.Ok? ==> path[|path| - 1] == r.value.final
  {
    var machine := new StateMachine(GENERATED);
    ghost var plan, before := LoopPlan(b, max, firmware, 0, 0), directory.names;
    ghost var saves: seq<Artifact> := [];
    var attempt, iterations, current := 0, 0, firmware;
    tried, path := [], [GENERATED];
    var turn := Again(firmware);
    while turn.Again?
      invariant Trail(path, machine)
      invariant turn.Again? ==>
                  && machine.current in {GENERATED, RETRYING}
                  && attempt == iterations <= max && turn.firmware == current
                  && plan == After(LoopPlan(b, max, current, attempt, iterations), tried, saves)
                  && OnPlan(plan.saves, saves, before, directory.names)
                  && SavedBefore(saves, attempt + 1)
      invariant turn.Done? ==>
                  && Reported(plan, turn.r, before, directory.names)
                  && (turn.r != Err(ArtifactExists) ==> plan.tried == tried)
                  && (turn.r.Ok? ==> turn.r.value.final == machine.current)
      decreases turn.Again?, max - iterations
    {
      PlanStep(b, max, current, attempt, iterations, tried, saves);
      attempt := attempt + 1;
      ghost var mine := AttemptSaves(Classify(b, attempt, current), attempt);
      NewNames(saves, Classify(b, attempt, current), attempt);
      turn, iterations, path := OneTurn(machine, b, max, current, attempt, iterations, directory, path, plan, tried, saves, before);
      tried := tried + [current];
      saves := saves + mine;
      if turn.Again? {
        current := turn.firmware;
      }
    }
    return turn.r, tried, path;
  }

  // ---- what every plan keeps ----

  /** A plan that goes on is the plan of its next candidate with this one in front. */
  lemma PlanHead(b: Bench, max: nat, firmware: string, attempt: nat, iterations: nat)
    ensures var n := attempt + 1;
            var plan := LoopPlan(b, max, firmware, attempt, iterations);
            if GoesOn(b, max, firmware, n, iterations) then
              var rest := LoopPlan(b, max, b.patch(n, firmware).source, n, iterations + 1);
              && plan.result == rest.result && plan.iterations == rest.iterations && plan.tried == [firmware] + rest.tried
              && plan.saves == AttemptSaves(Classify(b, n, firmware), n) + rest.saves
            else EndsWith(plan, b, firmware, n, iterations, [], AttemptSaves(Classify(b, n, firmware), n))
  {
  }

  /** Attempts are fixes plus one and never more than the budget plus one; a run without an exception ends
      PASSED or FAILED. */
  lemma {:induction false} PlanBounds(b: Bench, max: nat, firmware: string, attempt: nat, iterations: nat)
    requires iterations <= max
    ensures var plan := LoopPlan(b, max, firmware, attempt, iterations);
            && iterations <= plan.iterations <= max
            && |plan.tried| == plan.iterations - iterations + 1
            && plan.result in {Ok(PASSED), Ok(FAILED), Err(DiagnosisRaised)}
    decreases max - iterations
  {
    var n := attempt + 1;
    PlanHead(b, max, firmware, attempt, iterations);
    if GoesOn(b, max, firmware, n, iterations) {
      PlanBounds(b, max, b.patch(n, firmware).source, n, iterations + 1);
    }
  }

  /** Each candidate failed in a way the debug agent is asked about, and the next one is its patch. */
  ghost predicate Chain(b: Bench, n: nat, tried: seq<string>)
    decreases |tried|
  {
    |tried| <= 1
    || (Debugs(Classify(b, n, tried[0])) && b.patch(n, tried[0]) == Patched(tried[1]) && Chain(b, n + 1, tried[1..]))
  }

  ghost predicate Traced(b: Bench, n: nat, firmware: string, plan: Plan) {
    && |plan.tried| > 0 && plan.tried[0] == firmware
    && Chain(b, n, plan.tried)
    && (plan.result == Ok(PASSED) <==>
          Classify(b, n - 1 + |plan.tried|, plan.tried[|plan.tried| - 1]) == SimulationPassed)
    && (plan.result == Err(DiagnosisRaised) <==>
          && Debugs(Classify(b, n - 1 + |plan.tried|, plan.tried[|plan.tried| - 1]))
          && b.patch(n - 1 + |plan.tried|, plan.tried[|plan.tried| - 1]) == InvalidFirmware)
  }

  lemma TracedLonger(b: Bench, n: nat, firmware: string, rest: Plan, plan: Plan)
    requires Debugs(Classify(b, n, firmware)) && b.patch(n, firmware).Patched?
    requires Traced(b, n + 1, b.patch(n, firmware).source, rest)
    requires plan.tried == [firmware] + rest.tried && plan.result == rest.result
    ensures Traced(b, n, firmware, plan)
  {
    assert plan.tried[1..] == rest.tried;
  }

  lemma TracedEnd(b: Bench, n: nat, firmware: string, plan: Plan, iterations: nat)
    requires EndsWith(plan, b, firmware, n, iterations, [], AttemptSaves(Classify(b, n, firmware), n))
    ensures Traced(b, n, firmware, plan)
  {
  }

  /** The candidates of a run are a chain of patches from the first firmware, and the run passes exactly when
      the last candidate passed its simulation; it raises exactly when the patch of the last candidate was refused. */
  lemma {:induction false} PlanTrace(b: Bench, max: nat, firmware: string, attempt: nat, iterations: nat)
    requires iterations <= max
    ensures Traced(b, attempt + 1, firmware, LoopPlan(b, max, firmware, attempt, iterations))
    decreases max - iterations
  {
    var n := attempt + 1;
    var plan := LoopPlan(b, max, firmware, attempt, iterations);
    PlanHead(b, max, firmware, attempt, iterations);
    if GoesOn(b, max, firmware, n, iterations) {
      var next := b.patch(n, firmware).source;
      PlanTrace(b, max, next, n, iterations + 1);
      TracedLonger(b, n, firmware, LoopPlan(b, max, next, n, iterations + 1), plan);
    } else {
      TracedEnd(b, n, firmware, plan, iterations);
    }
  }

  /** A run follows a chain of patches that its budget covers, and goes on from its last candidate. */
  lemma {:induction false} FollowChain(b: Bench, max: nat, chain: seq<string>, attempt: nat, iterations: nat)
    requires chain != [] && Chain(b, attempt + 1, chain) && iterations + |chain| - 1 <= max
    ensures var plan, k := LoopPlan(b, max, chain[0], attempt, iterations), |chain| - 1;
            var rest := LoopPlan(b, max, chain[k], attempt + k, iterations + k);
            plan.result == rest.result && plan.iterations == rest.iterations && |plan.tried| == k + |rest.tried|
    decreases |chain|
  {
    var k := |chain| - 1;
    if k > 0 {
      ChainUnroll(b, max, chain, attempt, iterations);
      FollowChain(b, max, chain[1..], attempt + 1, iterations + 1);
      assert chain[1..][k - 1] == chain[k] && attempt + 1 + (k - 1) == attempt + k && iterations + 1 + (k - 1) == iterations + k;
    }
  }

  lemma ChainUnroll(b: Bench, max: nat, chain: seq<string>, attempt: nat, iterations: nat)
    requires |chain| > 1 && Chain(b, attempt + 1, chain) && iterations < max
    ensures var plan, rest := LoopPlan(b, max, chain[0], attempt, iterations), LoopPlan(b, max, chain[1], attempt + 1, iterations + 1);
            plan.result == rest.result && plan.iterations == rest.iterations && plan.tried == [chain[0]] + rest.tried
  {
    PlanHead(b, max, chain[0], attempt, iterations);
  }

  /** A chain of patches longer than the budget ends in failure with the whole budget spent. */
  lemma {:induction false} ExhaustBudget(b: Bench, max: nat, chain: seq<string>, attempt: nat, iterations: nat)
    requires Chain(b, attempt + 1, chain) && iterations <= max < iterations + |chain| - 1
    ensures LoopPlan(b, max, chain[0], attempt, iterations).result == Ok(FAILED)
    ensures LoopPlan(b, max, chain[0], attempt, iterations).iterations == max
    decreases |chain|
  {
    if iterations < max {
      ChainUnroll(b, max, chain, attempt, iterations);
      ExhaustBudget(b, max, chain[1..], attempt + 1, iterations + 1);
    }
  }

  // ---- what a run leaves in its directory ----

  /** The names of the logs of attempt `n` on a candidate. */
  function LogNames(b: Bench, n: nat, firmware: string): set<string> {
    {"compile.attempt" + PyText.Decimal(n) + ".log"}
    + if b.compiles(n, firmware) then {"simulation.attempt" + PyText.Decimal(n) + ".log"} else {}
  }

  /** The names of the logs of all candidates, numbered from `n` on. */
  function AllLogNames(b: Bench, n: nat, tried: seq<string>): set<string>
    decreases |tried|
  {
    if tried == [] then {} else LogNames(b, n, tried[0]) + AllLogNames(b, n + 1, tried[1..])
  }

  lemma NamesOf(a: seq<Artifact>, b: seq<Artifact>)
    ensures Names(a + b) == Names(a) + Names(b)
  {
    assert forall x :: x in a + b <==> x in a || x in b;
  }

  lemma AttemptNames(b: Bench, n: nat, firmware: string)
    ensures Names(AttemptSaves(Classify(b, n, firmware), n)) == LogNames(b, n, firmware)
  {
    var c, s := CompileLog(n), SimulationLog(n);
    assert Names([c]) == {FileName(c)};
    assert Names([s]) == {FileName(s)};
    NamesOf([c], [s]);
    assert [c] + [s] == [c, s];
  }

  lemma LastNames(b: Bench, n: nat, firmware: string, iterations: nat, plan: Plan)
    requires EndsWith(plan, b, firmware, n, iterations, [], AttemptSaves(Classify(b, n, firmware), n))
    ensures Names(plan.saves) == AllLogNames(b, n, plan.tried) + if plan.result.Ok? then {"report.json"} else {}
  {
    AttemptNames(b, n, firmware);
    assert plan.tried == [firmware] && plan.tried[1..] == [];
    var report := ReportFile;
    assert Names([report]) == {FileName(report)} == {"report.json"};
    NamesOf(AttemptSaves(Classify(b, n, firmware), n), [ReportFile]);
  }

  /** A run saves a compile log for every candidate, a simulation log for every one that compiled, numbered by attempt, and
      a report unless diagnosis raises. */
  lemma {:induction false} SavedNames(b: Bench, max: nat, firmware: string, attempt: nat, iterations: nat)
    requires iterations <= max
    ensures var plan := LoopPlan(b, max, firmware, attempt, iterations);
            Names(plan.saves) == AllLogNames(b, attempt + 1, plan.tried) + if plan.result.Ok? then {"report.json"} else {}
    decreases max - iterations
  {
    var n := attempt + 1;
    var plan := LoopPlan(b, max, firmware, attempt, iterations);
    PlanHead(b, max, firmware, attempt, iterations);
    if GoesOn(b, max, firmware, n, iterations) {
      var rest := LoopPlan(b, max, b.patch(n, firmware).source, n, iterations + 1);
      SavedNames(b, max, b.patch(n, firmware).source, n, iterations + 1);
      MoreNames(b, n, firmware, rest, plan);
    } else {
      LastNames(b, n, firmware, iterations, plan);
    }
  }

  lemma MoreNames(b: Bench, n: nat, firmware: string, rest: Plan, plan: Plan)
    requires Names(rest.saves) == AllLogNames(b, n + 1, rest.tried) + if rest.result.Ok? then {"report.json"} else {}
    requires plan.saves == AttemptSaves(Classify(b, n, firmware), n) + rest.saves
    requires plan.tried == [firmware] + rest.tried && plan.result == rest.result
    ensures Names(plan.saves) == AllLogNames(b, n, plan.tried) + if plan.result.Ok? then {"report.json"} else {}
  {
    AttemptNames(b, n, firmware);
    NamesOf(AttemptSaves(Classify(b, n, firmware), n), rest.saves);
    assert plan.tried[1..] == rest.tried;
  }
}
