/** The loop with the in-process backend and the deterministic patcher: how every source ends. */
module DefaultLoop {
  import opened Outcomes
  import opened Firmware
  import opened Validation
  import opened ValidationLoop
  import PyText

  /** The in-process backend, whose devices get new identifiers, with the deterministic patcher. */
  function DefaultBench(devices: nat -> VirtualDevice, tests: seq<TestCase>): Bench {
    Bench((n: nat, source: string) => Accepted(source),
          (n: nat, source: string) =>
            var r := Simulated(devices(n), source, tests);
            Verdict(r.passed, r.category == Some(InfrastructureError)),
          (n: nat, source: string) => Patch(source))
  }

  /** The sources that patching goes through, as far as `k` patches. */
  ghost function Sources(patch: string -> PatchOutcome, source: string, k: nat): seq<string>
    decreases k
  {
    if k > 0 && patch(source).Patched? then [source] + Sources(patch, patch(source).source, k - 1) else [source]
  }

  lemma {:induction false} SourcesEnd(patch: string -> PatchOutcome, source: string, k: nat)
    requires Firmware.After(patch, source, k).Patched?
    ensures Sources(patch, source, k)[0] == source
    ensures |Sources(patch, source, k)| == k + 1 && Sources(patch, source, k)[k] == Firmware.After(patch, source, k).source
    decreases k
  {
    if k > 0 {
      SourcesEnd(patch, patch(source).source, k - 1);
    }
  }

  /** A bench with the default compiler and patcher, whatever its simulations say. */
  ghost predicate PatchesByDefault(b: Bench) {
    forall n, source :: b.patch(n, source) == Patch(source) && (b.compiles(n, source) <==> Accepted(source))
  }

  lemma {:induction false} PatchChain(b: Bench, patch: string -> PatchOutcome, source: string, k: nat, n: nat)
    requires forall n, s :: b.patch(n, s) == patch(s)
    requires forall n, s :: patch(s).Patched? ==> !b.compiles(n, s)
    ensures Chain(b, n, Sources(patch, source, k)) && Sources(patch, source, k)[0] == source
    decreases k
  {
    if k > 0 && patch(source).Patched? {
      var next := patch(source).source;
      PatchChain(b, patch, next, k - 1, n + 1);
      assert b.patch(n, source) == patch(source) && !b.compiles(n, source);
      assert Sources(patch, source, k)[1..] == Sources(patch, next, k - 1);
    }
  }

  /** A source that needs `k` patches: when the budget covers them, the run goes on as a run on the accepted
      source they lead to; otherwise it fails with its whole budget spent. */
  lemma DefaultReaches(b: Bench, max: nat, source: string, k: nat)
    requires PatchesByDefault(b) && !PyText.IsBlank(source) && FateOf(source) == Reaches(k)
    ensures ReachedBy(source, k)
    ensures var plan := LoopPlan(b, max, source, 0, 0);
            if k > max then plan.result == Ok(FAILED) && plan.iterations == max
            else
              var rest := LoopPlan(b, max, Firmware.After(Patch, source, k).source, k, k);
              plan.result == rest.result && plan.iterations == rest.iterations && |plan.tried| == k + |rest.tried|
  {
    PatchChain(b, Patch, source, k, 1);
    Convergence(source, k);
    SourcesEnd(Patch, source, k);
    ChainEnd(b, max, Sources(Patch, source, k));
  }

  lemma ChainEnd(b: Bench, max: nat, chain: seq<string>)
    requires chain != [] && Chain(b, 1, chain)
    ensures var plan, k := LoopPlan(b, max, chain[0], 0, 0), |chain| - 1;
            if k > max then plan.result == Ok(FAILED) && plan.iterations == max
            else
              var rest := LoopPlan(b, max, chain[k], k, k);
              plan.result == rest.result && plan.iterations == rest.iterations && |plan.tried| == k + |rest.tried|
  {
    if |chain| - 1 > max {
      ExhaustBudget(b, max, chain, 0, 0);
    } else {
      FollowChain(b, max, chain, 0, 0);
    }
  }

  /** A source with more closing than opening braces fails with the whole budget spent. */
  lemma DefaultNever(b: Bench, max: nat, source: string)
    requires PatchesByDefault(b) && !PyText.IsBlank(source) && FateOf(source) == Never
    ensures LoopPlan(b, max, source, 0, 0).result == Ok(FAILED) && LoopPlan(b, max, source, 0, 0).iterations == max
  {
    PatchChain(b, Patch, source, max + 1, 1);
    Convergence(source, max + 1);
    SourcesEnd(Patch, source, max + 1);
    ChainEnd(b, max, Sources(Patch, source, max + 1));
  }

  /** A source whose patch the firmware model refuses raises before any fix is spent. */
  lemma DefaultRefused(b: Bench, max: nat, source: string)
    requires PatchesByDefault(b) && !PyText.IsBlank(source) && FateOf(source) == Refused
    ensures LoopPlan(b, max, source, 0, 0).result == Err(DiagnosisRaised) && LoopPlan(b, max, source, 0, 0).iterations == 0
  {
    PatchStep(source);
    assert b.patch(1, source) == Patch(source);
  }

  /** An accepted source is simulated once: it compiles, and the patcher has nothing to offer afterwards. */
  lemma AcceptedRun(devices: nat -> VirtualDevice, tests: seq<TestCase>, max: nat, source: string, k: nat)
    requires Accepted(source)
    ensures PatchesByDefault(DefaultBench(devices, tests))
    ensures var plan := LoopPlan(DefaultBench(devices, tests), max, source, k, k);
            && plan.tried == [source] && plan.iterations == k
            && plan.result == Ok(if Simulated(devices(k + 1), source, tests).passed then PASSED else FAILED)
  {
    assert Patch(source) == NoPatch;
  }

  // ---- how every source ends ----

  lemma RefusedMeansBlank(source: string)
    requires !PyText.IsBlank(source)
    ensures FateOf(source) == Refused <==> HasMain(source) && PyText.IsBlank(Cleaned(source))
  {
    if PyText.IsBlank(Cleaned(source)) && Surplus(Cleaned(source)) != 0 {
      BraceIsNotBlank(Cleaned(source));
    }
    if Accepted(source) {
      assert Cleaned(source) == source;
    }
  }

  /** The run raises if and only if the source names an entry point and has no text outside the lines with error
      directives; every other run ends in PASSED or FAILED. */
  lemma RaisesExactly(b: Bench, max: nat, source: string)
    requires PatchesByDefault(b) && !PyText.IsBlank(source)
    ensures LoopPlan(b, max, source, 0, 0).result == Err(DiagnosisRaised) <==> HasMain(source) && PyText.IsBlank(Cleaned(source))
    ensures LoopPlan(b, max, source, 0, 0).result in {Ok(PASSED), Ok(FAILED), Err(DiagnosisRaised)}
  {
    RefusedMeansBlank(source);
    PlanBounds(b, max, source, 0, 0);
    match FateOf(source)
    case Refused => DefaultRefused(b, max, source);
    case Never => DefaultNever(b, max, source);
    case Reaches(k) =>
      DefaultReaches(b, max, source, k);
      if k <= max {
        AcceptedNeverRaises(b, max, Firmware.After(Patch, source, k).source, k);
      }
  }

  lemma AcceptedNeverRaises(b: Bench, max: nat, source: string, k: nat)
    requires PatchesByDefault(b) && Accepted(source)
    ensures LoopPlan(b, max, source, k, k).result != Err(DiagnosisRaised)
  {
    assert b.patch(k + 1, source) == Patch(source) == NoPatch;
  }

  /** How a run ends that meets a fate with a budget; `passes` says whether its accepted form passes its simulation. */
  predicate EndsAs(plan: Plan, fate: Fate, max: nat, passes: bool) {
    match fate
    case Refused => plan.result == Err(DiagnosisRaised) && plan.iterations == 0
    case Never => plan.result == Ok(FAILED) && plan.iterations == max
    case Reaches(k) =>
      if k > max then plan.result == Ok(FAILED) && plan.iterations == max
      else plan.iterations == k && |plan.tried| == k + 1 && plan.result == Ok(if passes then PASSED else FAILED)
  }

  /** Whether a source passes its simulation once it has been patched into its accepted form. */
  ghost predicate PassesPatched(devices: nat -> VirtualDevice, tests: seq<TestCase>, source: string, k: nat) {
    ReachedBy(source, k) && Simulated(devices(k + 1), Firmware.After(Patch, source, k).source, tests).passed
  }

  /** Every source ends in one of five ways, which its fate, the budget and one simulation decide: refused at once,
      never accepted, out of budget, or simulated once in its accepted form, where it passes or fails. */
  lemma DefaultEnding(devices: nat -> VirtualDevice, tests: seq<TestCase>, max: nat, source: string)
    requires !PyText.IsBlank(source)
    ensures var fate := FateOf(source);
            EndsAs(LoopPlan(DefaultBench(devices, tests), max, source, 0, 0), fate, max,
                   fate.Reaches? && PassesPatched(devices, tests, source, fate.patches))
  {
    var b := DefaultBench(devices, tests);
    assert PatchesByDefault(b);
    var fate := FateOf(source);
    match fate
    case Refused => DefaultRefused(b, max, source);
    case Never => DefaultNever(b, max, source);
    case Reaches(k) =>
      DefaultReaches(b, max, source, k);
      if k <= max {
        var form := Firmware.After(Patch, source, k).source;
        PassesAsPatched(devices, tests, source, k, form);
        ReachesEnding(b, devices, tests, max, source, k, form, Simulated(devices(k + 1), form, tests).passed);
      }
  }

  lemma ReachesForm(b: Bench, max: nat, source: string, k: nat, form: string)
    requires PatchesByDefault(b) && !PyText.IsBlank(source) && FateOf(source) == Reaches(k)
    ensures k <= max && Firmware.After(Patch, source, k) == Patched(form) ==>
              && Accepted(form)
              && var plan, rest := LoopPlan(b, max, source, 0, 0), LoopPlan(b, max, form, k, k);
                 plan.result == rest.result && plan.iterations == rest.iterations && |plan.tried| == k + |rest.tried|
  {
    DefaultReaches(b, max, source, k);
  }

  lemma FormEnding(b: Bench, devices: nat -> VirtualDevice, tests: seq<TestCase>, max: nat, form: string, k: nat, rest: Plan)
    requires b == DefaultBench(devices, tests) && rest == LoopPlan(b, max, form, k, k) && Accepted(form)
    ensures |rest.tried| == 1 && rest.iterations == k
    ensures rest.result == Ok(if Simulated(devices(k + 1), form, tests).passed then PASSED else FAILED)
  {
    AcceptedRun(devices, tests, max, form, k);
  }

  lemma PassesAsPatched(devices: nat -> VirtualDevice, tests: seq<TestCase>, source: string, k: nat, form: string)
    ensures Firmware.After(Patch, source, k) == Patched(form) && Accepted(form) ==>
              (PassesPatched(devices, tests, source, k) <==> Simulated(devices(k + 1), form, tests).passed)
  {
  }

  lemma ReachesEnding(b: Bench, devices: nat -> VirtualDevice, tests: seq<TestCase>, max: nat, source: string, k: nat,
                      form: string, passes: bool)
    requires b == DefaultBench(devices, tests) && !PyText.IsBlank(source) && FateOf(source) == Reaches(k)
    ensures k <= max && Firmware.After(Patch, source, k) == Patched(form) && passes == Simulated(devices(k + 1), form, tests).passed ==>
              EndsAs(LoopPlan(b, max, source, 0, 0), Reaches(k), max, passes)
  {
    assert PatchesByDefault(b);
    ReachesForm(b, max, source, k, form);
    if k <= max && Firmware.After(Patch, source, k) == Patched(form) {
      FormEnding(b, devices, tests, max, form, k, LoopPlan(b, max, form, k, k));
    }
  }

  /** An error directive on one line that names the entry point is such a source. */
  lemma DirectiveLine(source: string)
    requires forall c | c in source :: !PyText.IsBreak(c)
    requires PyText.Contains(source, ERROR_MARK) && PyText.Contains(source, MAIN)
    ensures !PyText.IsBlank(source) && HasMain(source) && Cleaned(source) == ""
  {
    assert ERROR_MARK[0] == '#' && !PyText.IsSpace('#');
    PyText.PresentChar(source, ERROR_MARK, 0);
    PyText.BlankMeansSpaces(source);
    OneLineOnly(source);
    assert CleanLines([source]) == [];
  }

  lemma OneLineOnly(source: string)
    requires source != "" && forall c | c in source :: !PyText.IsBreak(c)
    ensures PyText.Lines(source) == [source]
  {
    assert PyText.LineBody(source) == |source|;
    assert source[..|source|] == source && source[|source|..] == "";
  }

  const DIRECTIVE := ERROR_MARK + " " + MAIN

  lemma DirectiveText()
    ensures forall c | c in DIRECTIVE :: !PyText.IsBreak(c)
    ensures PyText.Contains(DIRECTIVE, ERROR_MARK) && PyText.Contains(DIRECTIVE, MAIN)
  {
    DirectiveParts(ERROR_MARK, MAIN);
  }

  lemma DirectiveParts(mark: string, main: string)
    ensures PyText.Contains(mark + " " + main, mark) && PyText.Contains(mark + " " + main, main)
  {
    PyText.ContainsInside("", mark, " " + main);
    assert "" + mark + (" " + main) == mark + " " + main;
    PyText.ContainsInside(mark + " ", main, "");
    assert mark + " " + main + "" == mark + " " + main;
  }

  /** For instance this one. */
  lemma DirectiveRaises(b: Bench, max: nat)
    requires PatchesByDefault(b)
    ensures !PyText.IsBlank(DIRECTIVE) && LoopPlan(b, max, DIRECTIVE, 0, 0).result == Err(DiagnosisRaised)
  {
    DirectiveText();
    DirectiveLine(DIRECTIVE);
    RaisesExactly(b, max, DIRECTIVE);
  }
}
