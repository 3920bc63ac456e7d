/** The in-process compiler and simulator, and the patcher meant to lead sources to what the compiler accepts. */
module Firmware {
  import opened Outcomes
  import opened PyText

  const ERROR_MARK := "#error"
  const MAIN := "int main"
  const APP_MAIN := "void app_main"
  const STUB := "int main(void) { return 0; }"
  const INFRA_MARK := "SIM_INFRA_TIMEOUT"

  predicate HasMain(source: string) {
    Contains(source, MAIN) || Contains(source, APP_MAIN)
  }

  function Surplus(source: string): int {
    Count(source, '{') - Count(source, '}')
  }

  /** What it takes to compile: an entry point, balanced braces and no error directive. */
  predicate Accepted(source: string) {
    HasMain(source) && Surplus(source) == 0 && !Contains(source, ERROR_MARK)
  }

  // ---- the backend ----

  datatype TestCase = TestCase(name: string, expected: Option<string>)

  datatype Category = SimulationFailure | InfrastructureError

  datatype SimulationResult = SimulationResult(passed: bool, category: Option<Category>, failed: seq<string>)

  datatype VirtualDevice = VirtualDevice(id: string, mcu: string, peripherals: seq<string>)

  function BootLog(device: VirtualDevice): seq<string> {
    ["[boot] virtual " + device.mcu + " device_id=" + device.id]
    + seq(|device.peripherals|, i requires 0 <= i < |device.peripherals| => "[peripheral:" + device.peripherals[i] + "] initialized")
    + ["[done] simulation complete"]
  }

  predicate Met(test: TestCase, log: string) {
    test.expected.None? || Contains(log, test.expected.value)
  }

  /** The simulation outcome: the infrastructure marker comes first, then every expectation against the log. */
  function Simulated(device: VirtualDevice, source: string, tests: seq<TestCase>): SimulationResult {
    if Contains(source, INFRA_MARK) then SimulationResult(false, Some(InfrastructureError), [])
    else
      var failed := FailedNames(tests, JoinLines(BootLog(device)));
      if failed == [] then SimulationResult(true, None, []) else SimulationResult(false, Some(SimulationFailure), failed)
  }

  function FailedNames(tests: seq<TestCase>, log: string): seq<string> {
    if tests == [] then []
    else (if Met(tests[0], log) then [] else [tests[0].name]) + FailedNames(tests[1..], log)
  }

  /** The lines with an error directive, stripped. */
  function Directives(lines: seq<string>): seq<string> {
    if lines == [] then [] else (if Contains(lines[0], ERROR_MARK) then [Strip(lines[0])] else []) + Directives(lines[1..])
  }

  lemma {:induction false} DirectivesSome(lines: seq<string>)
    ensures Directives(lines) == [] <==> forall line | line in lines :: !Contains(line, ERROR_MARK)
  {
    if lines != [] {
      DirectivesSome(lines[1..]);
      assert lines == [lines[0]] + lines[1..];
    }
  }

  lemma NoDirectives(source: string)
    ensures Directives(Lines(source)) == [] <==> !Contains(source, ERROR_MARK)
  {
    DirectivesSome(Lines(source));
    ContainsInLine(source, ERROR_MARK);
  }

  class InProcessBackend {
    var logs: map<string, seq<string>>

    constructor ()
      ensures logs == map[]
    {
      logs := map[];
    }

    static method MarkedLines(lines: seq<string>) returns (errors: seq<string>)
      ensures errors == Directives(lines)
    {
      errors := [];
      for i := 0 to |lines|
        invariant errors + Directives(lines[i..]) == Directives(lines)
      {
        if Contains(lines[i], ERROR_MARK) {
          errors := errors + [Strip(lines[i])];
        }
      }
    }

    /** The error list holds every error directive, then a missing entry point, then unbalanced braces; it is empty,
        that is, the compilation succeeds, exactly on an accepted source. */
    static method CompileFirmware(source: string) returns (errors: seq<string>)
      ensures errors == [] <==> Accepted(source)
      ensures errors == Directives(Lines(source)) + (if HasMain(source) then [] else ["undefined reference to `main`"])
                        + if Surplus(source) == 0 then [] else ["syntax error: unbalanced braces"]
    {
      errors := [];
      NoDirectives(source);
      if Contains(source, ERROR_MARK) {
        errors := MarkedLines(Lines(source));
      }
      if !Contains(source, MAIN) && !Contains(source, APP_MAIN) {
        errors := errors + ["undefined reference to `main`"];
      }
      if Count(source, '{') != Count(source, '}') {
        errors := errors + ["syntax error: unbalanced braces"];
      }
    }

    method RunSimulation(device: VirtualDevice, source: string, tests: seq<TestCase>) returns (r: SimulationResult)
      modifies this
      ensures r == Simulated(device, source, tests)
      ensures logs == old(logs)[device.id := if Contains(source, INFRA_MARK) then ["[sim] infrastructure timeout"]
                                             else BootLog(device)]
    {
      if Contains(source, INFRA_MARK) {
        logs := logs[device.id := ["[sim] infrastructure timeout"]];
        return SimulationResult(false, Some(InfrastructureError), []);
      }
      var log := BootLog(device);
      logs := logs[device.id := log];
      var joined, failed := JoinLines(log), [];
      for i := 0 to |tests|
        invariant failed + FailedNames(tests[i..], joined) == FailedNames(tests, joined)
      {
        if !Met(tests[i], joined) {
          failed := failed + [tests[i].name];
        }
      }
      if failed != [] {
        return SimulationResult(false, Some(SimulationFailure), failed);
      }
      return SimulationResult(true, None, []);
    }

    function ReadSerialLog(device: VirtualDevice): seq<string>
      reads this
    {
      if device.id in logs then logs[device.id] else []
    }
  }

  // ---- the patcher ----

  datatype PatchOutcome =
    | NoPatch
    | Patched(source: string)
    | InvalidFirmware  // the firmware model refuses a blank source

  function Firmware(source: string): PatchOutcome {
    if IsBlank(source) then InvalidFirmware else Patched(source)
  }

  function WithMain(source: string): string {
    if HasMain(source) then source else STUB + "\n" + source
  }

  function CleanLines(lines: seq<string>): seq<string> {
    if lines == [] then []
    else (if Contains(lines[0], ERROR_MARK) then [] else [lines[0]]) + CleanLines(lines[1..])
  }

  /** The text that dropping the error-directive lines leaves; a text without any is left as it is. */
  function Cleaned(source: string): string {
    if Contains(source, ERROR_MARK) then JoinLines(CleanLines(Lines(source))) else source
  }

  function Closed(source: string): string {
    if Surplus(source) > 0 then source + Repeat('}', Surplus(source)) else source
  }

  function Rewritten(source: string): string {
    Closed(Cleaned(WithMain(source)))
  }

  /** The outcome of one patch: nothing to do exactly on an empty or an accepted source. */
  function Patch(source: string): PatchOutcome {
    if source == "" || Accepted(source) then NoPatch else Firmware(Rewritten(source))
  }

  method DropMarked(lines: seq<string>) returns (kept: seq<string>)
    ensures kept == CleanLines(lines)
  {
    kept := [];
    for i := 0 to |lines|
      invariant kept + CleanLines(lines[i..]) == CleanLines(lines)
    {
      if !Contains(lines[i], ERROR_MARK) {
        kept := kept + [lines[i]];
      }
    }
  }

  method PatchSource(source: string) returns (r: PatchOutcome)
    ensures r == Patch(source)
  {
    if source == "" {
      return NoPatch;
    }
    var patched, changed := source, false;
    if !Contains(patched, MAIN) && !Contains(patched, APP_MAIN) {
      patched := STUB + "\n" + patched;
      changed := true;
    }
    if Contains(patched, ERROR_MARK) {
      var lines := DropMarked(Lines(patched));
      patched := JoinLines(lines);
      changed := true;
    }
    if Surplus(patched) != 0 {
      patched := Closed(patched);
      changed := true;
    }
    if !changed {
      return NoPatch;
    }
    return Firmware(patched);
  }

  // ---- what one patch does ----

  lemma {:induction false} CleanLinesAreClean(lines: seq<string>)
    ensures forall line | line in CleanLines(lines) :: !Contains(line, ERROR_MARK)
  {
    if lines != [] {
      CleanLinesAreClean(lines[1..]);
    }
  }

  lemma CleanedHasNoMark(source: string)
    ensures !Contains(Cleaned(source), ERROR_MARK)
  {
    if Contains(source, ERROR_MARK) {
      CleanLinesAreClean(Lines(source));
      JoinContains(CleanLines(Lines(source)), ERROR_MARK);
    }
  }

  lemma ClosedKeeps(source: string)
    ensures Surplus(Closed(source)) == if Surplus(source) > 0 then 0 else Surplus(source)
    ensures Contains(Closed(source), ERROR_MARK) <==> Contains(source, ERROR_MARK)
    ensures HasMain(Closed(source)) <==> HasMain(source)
  {
    if Surplus(source) > 0 {
      var n := Surplus(source);
      CountConcat(source, Repeat('}', n), '{');
      CountConcat(source, Repeat('}', n), '}');
      CountRepeat('}', n, '{');
      CountRepeat('}', n, '}');
      ContainsBeforeRepeat(source, '}', n, ERROR_MARK);
      ContainsBeforeRepeat(source, '}', n, MAIN);
      ContainsBeforeRepeat(source, '}', n, APP_MAIN);
    }
  }

  lemma BracesOnce(a: string, b: string, c: char)
    requires (c == '{' || c == '}') && c !in a && c !in b
    ensures Count(a + "{" + b + "}", c) == 1
  {
    CountPositive(a, c);
    CountPositive(b, c);
    CountConcat(a, "{", c);
    CountConcat(a + "{", b, c);
    CountConcat(a + "{" + b, "}", c);
  }

  lemma StubCounts(c: char)
    requires c == '{' || c == '}'
    ensures Count(STUB, c) == 1
  {
    var a, b := "int main(void) ", " return 0; ";
    assert STUB == a + "{" + b + "}";
    BracesOnce(a, b, c);
  }

  lemma StubIsOneLine()
    ensures forall c | c in STUB :: !IsBreak(c) && c != '#'
    ensures 'i' in STUB
  {
    assert STUB[0] == 'i';
  }

  lemma StubHasMain(rest: string)
    ensures HasMain(STUB + rest)
  {
    ContainsInside("", MAIN, "(void) { return 0; }" + rest);
    assert "" + MAIN + ("(void) { return 0; }" + rest) == STUB + rest;
  }

  lemma StubHasNoMark()
    ensures !Contains(STUB, ERROR_MARK)
  {
    StubIsOneLine();
    PresentChar(STUB, ERROR_MARK, 0);
  }

  lemma CountAfterStub(rest: string, c: char)
    requires c == '{' || c == '}'
    ensures Count(STUB + "\n" + rest, c) == 1 + Count(rest, c)
  {
    StubCounts(c);
    CountConcat(STUB, "\n", c);
    CountConcat(STUB + "\n", rest, c);
  }

  lemma SurplusAfterStub(rest: string)
    ensures Surplus(STUB + "\n" + rest) == Surplus(rest)
  {
    CountAfterStub(rest, '{');
    CountAfterStub(rest, '}');
  }

  lemma SurplusOfStub()
    ensures Surplus(STUB) == Surplus("")
  {
    StubCounts('{');
    StubCounts('}');
  }

  lemma BehindStubNotBlank(rest: string)
    ensures !IsBlank(STUB + rest)
  {
    StubIsOneLine();
    BlankMeansSpaces(STUB + rest);
    assert 'i' in STUB + rest && !IsSpace('i');
  }

  /** Cleaning a text behind the stub line keeps the stub and cleans the rest. */
  lemma CleanedBehindStub(source: string)
    ensures var t := Cleaned(STUB + "\n" + source);
            || t == STUB + "\n" + Cleaned(source)
            || (t == STUB && Cleaned(source) == "")
  {
    StubIsOneLine();
    StubHasNoMark();
    ContainsBeside(STUB, '\n', source, ERROR_MARK);
    if Contains(source, ERROR_MARK) {
      LinesCons(STUB, source);
      var kept := CleanLines(Lines(source));
      assert CleanLines([STUB] + Lines(source)) == [STUB] + kept;
      if kept != [] {
        assert ([STUB] + kept)[1..] == kept;
      }
    }
  }

  lemma WithStub(source: string)
    ensures var t := Cleaned(STUB + "\n" + source);
            HasMain(t) && !IsBlank(t) && Surplus(t) == Surplus(Cleaned(source))
  {
    CleanedBehindStub(source);
    var t := Cleaned(STUB + "\n" + source);
    var rest := if t == STUB then "" else "\n" + Cleaned(source);
    assert t == STUB + rest;
    StubHasMain(rest);
    BehindStubNotBlank(rest);
    SurplusAfterStub(Cleaned(source));
    SurplusOfStub();
  }

  lemma BraceIsNotBlank(s: string)
    requires Surplus(s) != 0
    ensures !IsBlank(s)
  {
    CountPositive(s, '{');
    CountPositive(s, '}');
    BlankMeansSpaces(s);
  }

  lemma ClosedBlank(s: string)
    ensures IsBlank(Closed(s)) <==> IsBlank(s)
  {
    if Surplus(s) > 0 {
      BraceIsNotBlank(s);
      BlankMeansSpaces(s);
      BlankMeansSpaces(Closed(s));
    }
  }

  // ---- where patching leads ----

  datatype Fate =
    | Reaches(patches: nat)  // an accepted source after so many patches
    | Refused                // nothing but error directives: the patched firmware would be blank
    | Never                  // more closing than opening braces: patching goes on without end

  function FateOf(source: string): Fate {
    if Accepted(source) then Reaches(0)
    else if Surplus(Cleaned(source)) < 0 then Never
    else if !HasMain(source) then Reaches(1)
    else if IsBlank(Cleaned(source)) then Refused
    else if HasMain(Cleaned(source)) then Reaches(1)
    else Reaches(2)
  }

  /** The outcome of so many patches in a row. */
  ghost function After(patch: string -> PatchOutcome, source: string, n: nat): PatchOutcome
    decreases n
  {
    if n == 0 then Patched(source)
    else match patch(source)
      case Patched(next) => After(patch, next, n - 1)
      case other => other
  }

  /** One patch takes a source one step along its fate. */
  lemma PatchStep(source: string)
    requires !IsBlank(source) && !Accepted(source)
    ensures match FateOf(source)
            case Refused => Patch(source) == InvalidFirmware
            case Never => Patch(source) == Patched(Rewritten(source)) && FateOf(Rewritten(source)) == Never
            case Reaches(n) => n > 0 && Patch(source) == Patched(Rewritten(source)) && FateOf(Rewritten(source)) == Reaches(n - 1)
    ensures Patch(source).Patched? ==> !IsBlank(Rewritten(source))
  {
    var t := Cleaned(WithMain(source));
    if !HasMain(source) {
      WithStub(source);
    }
    CleanedHasNoMark(WithMain(source));
    ClosedKeeps(t);
    ClosedBlank(t);
    if Surplus(t) < 0 {
      BraceIsNotBlank(t);
    }
    assert source != "";
    assert Cleaned(Rewritten(source)) == Rewritten(source);
  }

  /** One patch takes a live source that is not accepted one step along its fate. */
  ghost predicate StepsAlong(patch: string -> PatchOutcome, accepted: string -> bool, fate: string -> Fate, live: string -> bool, s: string) {
    if accepted(s) then fate(s) == Reaches(0)
    else match fate(s)
      case Refused => patch(s) == InvalidFirmware
      case Never => patch(s).Patched? && live(patch(s).source) && fate(patch(s).source) == Never
      case Reaches(n) => n > 0 && patch(s).Patched? && live(patch(s).source) && fate(patch(s).source) == Reaches(n - 1)
  }

  /** Where a source stands after `n` patches. */
  ghost predicate Stands(after: PatchOutcome, accepted: string -> bool, fate: Fate, n: nat) {
    match fate
    case Reaches(k) => n <= k ==> after.Patched? && (accepted(after.source) <==> n == k)
    case Refused => n > 0 ==> after == InvalidFirmware
    case Never => after.Patched? && !accepted(after.source)
  }

  lemma {:induction false} FollowFate(patch: string -> PatchOutcome, accepted: string -> bool, fate: string -> Fate,
                                      live: string -> bool, source: string, n: nat)
    requires live(source) && forall s | live(s) :: StepsAlong(patch, accepted, fate, live, s)
    ensures Stands(After(patch, source, n), accepted, fate(source), n)
    decreases n
  {
    assert StepsAlong(patch, accepted, fate, live, source);
    if n > 0 && patch(source).Patched? {
      if !accepted(source) && live(patch(source).source) {
        FollowFate(patch, accepted, fate, live, patch(source).source, n - 1);
      }
    }
  }

  /** Patching a firmware source reaches an accepted one after at most two patches, is refused at once, or
      never reaches one, just as its braces, entry point and error directives say. */
  lemma Convergence(source: string, n: nat)
    requires !IsBlank(source)
    ensures Stands(After(Patch, source, n), Accepted, FateOf(source), n)
    ensures FateOf(source).Reaches? ==> FateOf(source).patches <= 2
  {
    var live := s => !IsBlank(s);
    forall s | live(s)
      ensures StepsAlong(Patch, Accepted, FateOf, live, s)
    {
      if !Accepted(s) {
        PatchStep(s);
      }
    }
    FollowFate(Patch, Accepted, FateOf, live, source, n);
  }

  /** Patching ever reaches an accepted source exactly when cleaning leaves no more closing than opening
      braces and, unless the entry point is to be added, something to compile. */
  lemma ConvergesExactly(source: string)
    requires !IsBlank(source)
    ensures (exists n: nat :: ReachedBy(source, n))
            <==> Surplus(Cleaned(source)) >= 0 && (HasMain(source) ==> !IsBlank(Cleaned(source)))
  {
    FateReaches(source);
    if FateOf(source).Reaches? {
      Convergence(source, FateOf(source).patches);
      assert ReachedBy(source, FateOf(source).patches);
    } else {
      forall n: nat
        ensures !ReachedBy(source, n)
      {
        Convergence(source, n);
      }
    }
  }

  ghost predicate ReachedBy(source: string, n: nat) {
    After(Patch, source, n).Patched? && Accepted(After(Patch, source, n).source)
  }

  lemma FateReaches(source: string)
    requires !IsBlank(source)
    ensures FateOf(source).Reaches? <==> Surplus(Cleaned(source)) >= 0 && (HasMain(source) ==> !IsBlank(Cleaned(source)))
  {
    if Accepted(source) {
      assert Cleaned(source) == source;
    }
  }
}
