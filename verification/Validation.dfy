/** The compile, simulate, debug and retry loop with its explicit state machine and artifact directory. */
module Validation {
  import opened Outcomes
  import PyText
  import opened Firmware

  datatype State =
    | CREATED
    | GENERATED
    | COMPILE_RUNNING
    | COMPILE_FAILED
    | SIMULATION_RUNNING
    | SIMULATION_FAILED
    | DEBUGGING
    | RETRYING
    | PASSED
    | FAILED

  function Successors(s: State): set<State> {
    match s
    case CREATED => {GENERATED}
    case GENERATED => {COMPILE_RUNNING}
    case COMPILE_RUNNING => {COMPILE_FAILED, SIMULATION_RUNNING}
    case COMPILE_FAILED => {DEBUGGING}
    case SIMULATION_RUNNING => {SIMULATION_FAILED, PASSED}
    case SIMULATION_FAILED => {DEBUGGING, FAILED}
    case DEBUGGING => {RETRYING, FAILED}
    case RETRYING => {COMPILE_RUNNING}
    case PASSED => {}
    case FAILED => {}
  }

  /** The table read backwards: where each state can come from. */
  function Predecessors(t: State): set<State> {
    match t
    case CREATED => {}
    case GENERATED => {CREATED}
    case COMPILE_RUNNING => {GENERATED, RETRYING}
    case COMPILE_FAILED => {COMPILE_RUNNING}
    case SIMULATION_RUNNING => {COMPILE_RUNNING}
    case SIMULATION_FAILED => {SIMULATION_RUNNING}
    case DEBUGGING => {COMPILE_FAILED, SIMULATION_FAILED}
    case RETRYING => {DEBUGGING}
    case PASSED => {SIMULATION_RUNNING}
    case FAILED => {SIMULATION_FAILED, DEBUGGING}
  }

  /** Both readings of the table agree: nothing passes without a simulation, nothing is debugged without a failure, and
      nothing follows PASSED or FAILED. */
  lemma TableBackwards(s: State, t: State)
    ensures t in Successors(s) <==> s in Predecessors(t)
  {
    match s
    case CREATED => case GENERATED => case COMPILE_RUNNING => case COMPILE_FAILED => case SIMULATION_RUNNING =>
    case SIMULATION_FAILED => case DEBUGGING => case RETRYING => case PASSED => case FAILED =>
  }

  ghost predicate LegalPath(path: seq<State>) {
    forall i | 0 < i < |path| :: path[i] in Successors(path[i - 1])
  }

  datatype LoopError = IllegalTransition | ArtifactExists | DiagnosisRaised

  class StateMachine {
    var current: State

    constructor (start: State)
      ensures current == start
    {
      current := start;
    }

    method Transition(target: State) returns (r: Result<State, LoopError>)
      modifies this
      ensures r == if target in Successors(old(current)) then Ok(target) else Err(IllegalTransition)
      ensures current == if r.Ok? then target else old(current)
    {
      if target !in Successors(current) {
        return Err(IllegalTransition);
      }
      current := target;
      return Ok(current);
    }
  }

  /** One task's artifact directory; a name can be used once. */
  class ArtifactDirectory {
    var names: set<string>

    constructor ()
      ensures names == {}
    {
      names := {};
    }

    method Save(name: string) returns (r: Result<string, LoopError>)
      modifies this
      ensures r == if name in old(names) then Err(ArtifactExists) else Ok(name)
      ensures names == old(names) + {name}
    {
      if name in names {
        return Err(ArtifactExists);
      }
      names := names + {name};
      return Ok(name);
    }
  }

  // ---- artifact names ----

  /** The artifacts a run saves. */
  datatype Artifact = CompileLog(attempt: nat) | SimulationLog(attempt: nat) | ReportFile

  function FileName(a: Artifact): string {
    match a
    case CompileLog(n) => "compile.attempt" + PyText.Decimal(n) + ".log"
    case SimulationLog(n) => "simulation.attempt" + PyText.Decimal(n) + ".log"
    case ReportFile => "report.json"
  }

  lemma SameMiddle(a: string, x: string, y: string, b: string)
    requires a + x + b == a + y + b
    ensures x == y
  {
    var s, t := a + x + b, a + y + b;
    assert |s| == |t|;
    assert x == s[|a|..|a| + |x|] && y == t[|a|..|a| + |y|];
  }

  /** Different artifacts get different file names. */
  lemma FileNameInjective(a: Artifact, b: Artifact)
    requires FileName(a) == FileName(b)
    ensures a == b
  {
    FirstLetter(a);
    FirstLetter(b);
    match a
    case CompileLog(n) =>
      SameMiddle("compile.attempt", PyText.Decimal(n), PyText.Decimal(b.attempt), ".log");
      PyText.DecimalInjective(n, b.attempt);
    case SimulationLog(n) =>
      SameMiddle("simulation.attempt", PyText.Decimal(n), PyText.Decimal(b.attempt), ".log");
      PyText.DecimalInjective(n, b.attempt);
    case ReportFile =>
  }

  lemma FirstLetter(a: Artifact)
    ensures FileName(a) != ""
    ensures FileName(a)[0] == match a case CompileLog(_) => 'c' case SimulationLog(_) => 's' case ReportFile => 'r'
  {
  }
}
