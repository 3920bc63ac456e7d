/** The fixed graph that runs the same verification cycle as a workflow, and its agreement with the loop. */
module EmbeddedGraph {
  import opened Outcomes
  import opened Firmware
  import opened Validation
  import opened ValidationLoop

  datatype Node = Simulation | DebugAgent | Finish | End | Raised

  datatype Fault = ApprovalRejected | CapabilityUnavailable | InfraError | MaxFixIterations | NoPatchAvailable

  /** The part of the graph state that the cycle reads or writes. `infrastructure` is the stored simulation's
      category, which a later compile failure leaves as it was; `tried` records the compiled candidates. */
  datatype GraphState = GraphState(
    next: Node,
    firmware: string,
    iteration: nat,
    validation: State,
    infrastructure: bool,
    error: Option<Fault>,
    tried: seq<string>)

  datatype Setup = Setup(approved: bool, capable: bool, bench: Bench, max: nat)

  function RouteAfterSimulation(s: GraphState): Node {
    if s.validation == PASSED || s.validation == FAILED then Finish
    else if s.infrastructure then Finish
    else DebugAgent
  }

  function RouteAfterDebug(s: GraphState): Node {
    if s.validation == RETRYING then Simulation else Finish
  }

  function SimulationNode(g: Setup, s: GraphState): GraphState {
    var updated :=
      if !g.approved then s.(validation := FAILED, error := Some(ApprovalRejected))
      else if !g.capable then s.(validation := FAILED, error := Some(CapabilityUnavailable))
      else
        var n := s.iteration + 1;
        var attempted := Classify(g.bench, n, s.firmware);
        var verified := s.(validation := StateAfter(attempted), tried := s.tried + [s.firmware]);
        if attempted == CompileError then verified
        else
          var infrastructure := g.bench.simulate(n, s.firmware).infrastructure;
          verified.(infrastructure := infrastructure, error := if infrastructure then Some(InfraError) else s.error);
    updated.(next := RouteAfterSimulation(updated))
  }

  function DebugNode(g: Setup, s: GraphState): GraphState {
    var iteration := s.iteration + 1;
    match g.bench.patch(iteration, s.firmware)
    case InvalidFirmware => s.(next := Raised)
    case NoPatch =>
      var updated := s.(validation := FAILED, error := Some(NoPatchAvailable));
      updated.(next := RouteAfterDebug(updated))
    case Patched(source) =>
      var updated :=
        if iteration <= g.max then s.(firmware := source, iteration := iteration, validation := RETRYING)
        else s.(firmware := source, validation := FAILED, error := Some(MaxFixIterations));
      updated.(next := RouteAfterDebug(updated))
  }

  function FinishNode(s: GraphState): GraphState {
    s.(validation := if s.validation in {PASSED, FAILED} then s.validation else FAILED, next := End)
  }

  function Step(g: Setup, s: GraphState): GraphState {
    match s.next
    case Simulation => SimulationNode(g, s)
    case DebugAgent => DebugNode(g, s)
    case Finish => FinishNode(s)
    case _ => s
  }

  function Rank(n: Node): nat {
    match n
    case Simulation => 3
    case DebugAgent => 2
    case Finish => 1
    case _ => 0
  }

  /** Running the graph to its end; a bounded budget makes it end. */
  function GraphRun(g: Setup, s: GraphState): (end: GraphState)
    ensures end.next in {End, Raised}
    decreases if s.iteration <= g.max then g.max - s.iteration else 0, Rank(s.next)
  {
    if s.next in {End, Raised} then s else GraphRun(g, Step(g, s))
  }

  function Start(firmware: string): GraphState {
    GraphState(Simulation, firmware, 0, GENERATED, false, None, [])
  }

  ghost predicate Cycling(g: Setup, s: GraphState) {
    g.approved && g.capable && s.next == Simulation && !s.infrastructure && s.iteration <= g.max
  }

  /** The Simulation node of a cycling state compiles the candidate and asks the debug agent where the loop does. */
  lemma Simulated(g: Setup, s: GraphState)
    requires Cycling(g, s)
    ensures var n := s.iteration + 1;
            var attempted := Classify(g.bench, n, s.firmware);
            var after := SimulationNode(g, s);
            && after.(validation := s.validation, infrastructure := s.infrastructure, error := s.error, next := s.next)
               == s.(tried := s.tried + [s.firmware])
            && after.validation == StateAfter(attempted)
            && (if Debugs(attempted) then after.next == DebugAgent && !after.infrastructure && after.error == s.error
                else after.next == Finish)
  {
  }

  lemma GraphStep(g: Setup, s: GraphState)
    requires s.next !in {End, Raised}
    ensures GraphRun(g, s) == GraphRun(g, Step(g, s))
  {
  }

  lemma RunFromFinish(g: Setup, s: GraphState)
    requires s.next == Finish
    ensures GraphRun(g, s) == FinishNode(s)
  {
    GraphStep(g, s);
  }

  /** Through both nodes back to Simulation, for the loop's next candidate. */
  lemma TripGoesOn(g: Setup, s: GraphState) returns (again: GraphState)
    requires Cycling(g, s) && GoesOn(g.bench, g.max, s.firmware, s.iteration + 1, s.iteration)
    ensures var n := s.iteration + 1;
            && Cycling(g, again) && again.iteration == n && again.tried == s.tried + [s.firmware]
            && again.firmware == g.bench.patch(n, s.firmware).source && again.error == s.error
            && GraphRun(g, s) == GraphRun(g, again)
  {
    var simulated := SimulationNode(g, s);
    Simulated(g, s);
    GraphStep(g, s);
    GraphStep(g, simulated);
    again := DebugNode(g, simulated);
  }

  /** What the graph and the loop are compared by: the candidates in order, the fixes, and the end; nothing stands
      for an exception. */
  datatype Course = Course(tried: seq<string>, fixes: nat, ending: Option<State>)

  function PlanCourse(plan: Plan): Course {
    Course(plan.tried, plan.iterations, if plan.result.Ok? then Some(plan.result.value) else None)
  }

  function GraphCourse(end: GraphState): Course {
    Course(end.tried, end.iteration, if end.next == End then Some(end.validation) else None)
  }

  /** A candidate that the debug agent is not asked about is the last one. */
  lemma TripUndebugged(g: Setup, s: GraphState, attempted: Attempted)
    requires Cycling(g, s) && attempted == Classify(g.bench, s.iteration + 1, s.firmware) && !Debugs(attempted)
    ensures GraphCourse(GraphRun(g, s)) ==
            Course(s.tried + [s.firmware], s.iteration, Some(if attempted == SimulationPassed then PASSED else FAILED))
  {
    var simulated := SimulationNode(g, s);
    Simulated(g, s);
    GraphStep(g, s);
    RunFromFinish(g, simulated);
  }

  lemma GivesUp(g: Setup, s: GraphState)
    requires s.next == DebugAgent && (g.bench.patch(s.iteration + 1, s.firmware).Patched? ==> s.iteration >= g.max)
    ensures GraphCourse(GraphRun(g, s)) ==
            Course(s.tried, s.iteration, if g.bench.patch(s.iteration + 1, s.firmware).InvalidFirmware? then None else Some(FAILED))
  {
    var debugged := DebugNode(g, s);
    GraphStep(g, s);
    if debugged.next == Finish {
      RunFromFinish(g, debugged);
    }
  }

  /** So is one that gets no patch within the budget. */
  lemma TripUnpatched(g: Setup, s: GraphState)
    requires Cycling(g, s) && Debugs(Classify(g.bench, s.iteration + 1, s.firmware))
    requires !GoesOn(g.bench, g.max, s.firmware, s.iteration + 1, s.iteration)
    ensures GraphCourse(GraphRun(g, s)) ==
            Course(s.tried + [s.firmware], s.iteration,
                   if g.bench.patch(s.iteration + 1, s.firmware).InvalidFirmware? then None else Some(FAILED))
  {
    Simulated(g, s);
    GraphStep(g, s);
    GivesUp(g, SimulationNode(g, s));
  }

  /** The graph's end shows what the plan says. */
  predicate Shows(end: GraphState, plan: Plan) {
    end.next in {End, Raised} && GraphCourse(end) == PlanCourse(plan)
  }

  lemma LastTrip(g: Setup, s: GraphState, saves: seq<Artifact>, end: GraphState, plan: Plan)
    requires Cycling(g, s) && end == GraphRun(g, s)
    requires plan == ValidationLoop.After(LoopPlan(g.bench, g.max, s.firmware, s.iteration, s.iteration), s.tried, saves)
    requires !GoesOn(g.bench, g.max, s.firmware, s.iteration + 1, s.iteration)
    ensures Shows(end, plan)
  {
    var attempted := Classify(g.bench, s.iteration + 1, s.firmware);
    if Debugs(attempted) {
      TripUnpatched(g, s);
    } else {
      TripUndebugged(g, s, attempted);
    }
    PlanStep(g.bench, g.max, s.firmware, s.iteration, s.iteration, s.tried, saves);
  }

  lemma NextTrip(g: Setup, s: GraphState, saves: seq<Artifact>, plan: Plan) returns (again: GraphState)
    requires Cycling(g, s)
    requires plan == ValidationLoop.After(LoopPlan(g.bench, g.max, s.firmware, s.iteration, s.iteration), s.tried, saves)
    requires GoesOn(g.bench, g.max, s.firmware, s.iteration + 1, s.iteration)
    ensures Cycling(g, again) && again.iteration == s.iteration + 1 && GraphRun(g, again) == GraphRun(g, s)
    ensures plan == ValidationLoop.After(LoopPlan(g.bench, g.max, again.firmware, again.iteration, again.iteration), again.tried,
                                         saves + AttemptSaves(Classify(g.bench, s.iteration + 1, s.firmware), s.iteration + 1))
  {
    again := TripGoesOn(g, s);
    PlanStep(g.bench, g.max, s.firmware, s.iteration, s.iteration, s.tried, saves);
  }

  /** From any cycling state the graph tries the same candidates in the same order as the loop, spends the
      same fixes and ends the same way. */
  lemma {:induction false} GraphFollowsPlan(g: Setup, s: GraphState, saves: seq<Artifact>, end: GraphState, plan: Plan)
    requires Cycling(g, s) && end == GraphRun(g, s)
    requires plan == ValidationLoop.After(LoopPlan(g.bench, g.max, s.firmware, s.iteration, s.iteration), s.tried, saves)
    ensures Shows(end, plan)
    decreases g.max - s.iteration
  {
    var n := s.iteration + 1;
    if GoesOn(g.bench, g.max, s.firmware, n, s.iteration) {
      var again := NextTrip(g, s, saves, plan);
      GraphFollowsPlan(g, again, saves + AttemptSaves(Classify(g.bench, n, s.firmware), n), end, plan);
    } else {
      LastTrip(g, s, saves, end, plan);
    }
  }

  /** The graph and the loop agree on every firmware: same candidates in the same order, same fixes, same end. */
  lemma GraphAgreesWithLoop(g: Setup, firmware: string)
    requires g.approved && g.capable
    ensures Shows(GraphRun(g, Start(firmware)), LoopPlan(g.bench, g.max, firmware, 0, 0))
  {
    var plan := LoopPlan(g.bench, g.max, firmware, 0, 0);
    assert ValidationLoop.After(plan, [], []) == plan;
    GraphFollowsPlan(g, Start(firmware), [], GraphRun(g, Start(firmware)), plan);
  }

  /** Without approval or the compile capability nothing is compiled and the run ends FAILED. */
  lemma UnapprovedRunTriesNothing(g: Setup, firmware: string)
    requires !g.approved || !g.capable
    ensures var end := GraphRun(g, Start(firmware));
            end.next == End && GraphCourse(end) == Course([], 0, Some(FAILED))
  {
    var s := SimulationNode(g, Start(firmware));
    assert GraphRun(g, Start(firmware)) == GraphRun(g, s) == GraphRun(g, FinishNode(s));
  }

  // ---- the error on record ----

  /** What the graph has on record when it ends: the last candidate passed, failed on the infrastructure, got no patch, or
      got one that no fix was left for. A candidate that passed although its simulation reports the infrastructure keeps
      that error. */
  predicate EndsWithReason(g: Setup, end: GraphState) {
    && end.tried != []
    && var n, last := end.iteration + 1, end.tried[|end.tried| - 1];
       match Classify(g.bench, n, last)
       case SimulationPassed =>
         end.validation == PASSED && end.error == if g.bench.simulate(n, last).infrastructure then Some(InfraError) else None
       case InfraFailure => end.validation == FAILED && end.error == Some(InfraError)
       case _ =>
         && end.validation == FAILED
         && match g.bench.patch(n, last)
            case NoPatch => end.error == Some(NoPatchAvailable)
            case Patched(_) => end.error == Some(MaxFixIterations) && end.iteration >= g.max
            case InvalidFirmware => false
  }

  lemma UndebuggedReason(g: Setup, s: GraphState)
    requires Cycling(g, s) && s.error.None? && !Debugs(Classify(g.bench, s.iteration + 1, s.firmware))
    ensures EndsWithReason(g, GraphRun(g, s))
  {
    var simulated := SimulationNode(g, s);
    Simulated(g, s);
    GraphStep(g, s);
    RunFromFinish(g, simulated);
  }

  lemma UnpatchedReason(g: Setup, s: GraphState)
    requires Cycling(g, s) && s.error.None? && Debugs(Classify(g.bench, s.iteration + 1, s.firmware))
    requires !GoesOn(g.bench, g.max, s.firmware, s.iteration + 1, s.iteration)
    ensures GraphRun(g, s).next == End ==> EndsWithReason(g, GraphRun(g, s))
  {
    Simulated(g, s);
    GraphStep(g, s);
    GivesUpWithReason(g, SimulationNode(g, s));
  }

  lemma GivesUpWithReason(g: Setup, s: GraphState)
    requires s.next == DebugAgent && (g.bench.patch(s.iteration + 1, s.firmware).Patched? ==> s.iteration >= g.max)
    ensures var end, patch := GraphRun(g, s), g.bench.patch(s.iteration + 1, s.firmware);
            end.next == End ==>
              && end.tried == s.tried && end.iteration == s.iteration && end.validation == FAILED && !patch.InvalidFirmware?
              && end.error == Some(if patch.NoPatch? then NoPatchAvailable else MaxFixIterations)
  {
    var debugged := DebugNode(g, s);
    GraphStep(g, s);
    if debugged.next == Finish {
      RunFromFinish(g, debugged);
    }
  }

  lemma {:induction false} EveryReason(g: Setup, s: GraphState)
    requires Cycling(g, s) && s.error.None?
    ensures GraphRun(g, s).next == End ==> EndsWithReason(g, GraphRun(g, s))
    decreases g.max - s.iteration
  {
    if GoesOn(g.bench, g.max, s.firmware, s.iteration + 1, s.iteration) {
      var again := TripGoesOn(g, s);
      EveryReason(g, again);
    } else if Debugs(Classify(g.bench, s.iteration + 1, s.firmware)) {
      UnpatchedReason(g, s);
    } else {
      UndebuggedReason(g, s);
    }
  }

  /** Every run of the graph ends with the reason for its end on record. */
  lemma RunHasReason(g: Setup, firmware: string)
    ensures var end := GraphRun(g, Start(firmware));
            if !g.approved then end.error == Some(ApprovalRejected)
            else if !g.capable then end.error == Some(CapabilityUnavailable)
            else end.next == End ==> EndsWithReason(g, end)
  {
    if g.approved && g.capable {
      EveryReason(g, Start(firmware));
    } else {
      var s := SimulationNode(g, Start(firmware));
      assert GraphRun(g, Start(firmware)) == GraphRun(g, s) == GraphRun(g, FinishNode(s));
    }
  }
}
