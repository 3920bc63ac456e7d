/** What the firmware backend and the patcher say and write, in texts: the marks they look for, the log of a device, and
    the source that one patch leaves. */
module FirmwareTexts {
  import opened Outcomes
  import opened PyText
  import opened Firmware

  // ---- what compiles ----

  /** A source compiles exactly when it has an entry point, no error directive, and as many opening as closing braces. */
  lemma CompilesExactly(source: string)
    ensures Accepted(source) <==>
            && (Contains(source, "int main") || Contains(source, "void app_main"))
            && !Contains(source, "#error") && Count(source, '{') == Count(source, '}')
  {
  }

  // ---- what a simulation says ----

  /** A boot log names the device, then each peripheral in order, then the end. */
  lemma BootLogLines(device: VirtualDevice)
    ensures var log, n := BootLog(device), |device.peripherals|;
            && |log| == n + 2
            && log[0] == "[boot] virtual " + device.mcu + " device_id=" + device.id
            && (forall i | 0 <= i < n :: log[i + 1] == "[peripheral:" + device.peripherals[i] + "] initialized")
            && log[n + 1] == "[done] simulation complete"
  {
  }

  lemma {:induction false} LineIsInside(lines: seq<string>, i: nat)
    requires i < |lines|
    ensures Contains(JoinLines(lines), lines[i])
  {
    if |lines| == 1 {
      ContainsInside("", lines[0], "");
      assert "" + lines[0] + "" == lines[0];
    } else if i == 0 {
      var rest := "\n" + JoinLines(lines[1..]);
      ContainsInside("", lines[0], rest);
      assert "" + lines[0] + rest == lines[0] + "\n" + JoinLines(lines[1..]);
    } else {
      LineIsInside(lines[1..], i - 1);
      ContainsWider(lines[0] + "\n", JoinLines(lines[1..]), "", lines[i]);
      assert lines[0] + "\n" + JoinLines(lines[1..]) + "" == JoinLines(lines);
    }
  }

  /** A test that expects any text of the boot log is not met only when that text is nowhere in the log. */
  predicate Unmet(test: TestCase, log: string) {
    test.expected.Some? && forall i | 0 <= i <= |log| :: !OccursAt(log, test.expected.value, i)
  }

  lemma UnmetMeansFailed(test: TestCase, log: string)
    ensures Unmet(test, log) <==> FailedNames([test], log) == [test.name]
  {
    assert [test][1..] == [];
  }

  /** A simulation fails for the infrastructure exactly on a source with the timeout mark; otherwise it passes exactly
      when no test is unmet. */
  lemma SimulationSays(device: VirtualDevice, source: string, tests: seq<TestCase>)
    ensures var r, log := Simulated(device, source, tests), JoinLines(BootLog(device));
            if Contains(source, "SIM_INFRA_TIMEOUT") then r == SimulationResult(false, Some(InfrastructureError), [])
            else
              && (r.passed <==> forall t | t in tests :: !Unmet(t, log))
              && (r.category == if r.passed then None else Some(SimulationFailure))
              && forall name :: name in r.failed <==> exists t :: t in tests && t.name == name && Unmet(t, log)
  {
    FailedAre(tests, JoinLines(BootLog(device)));
    var r := Simulated(device, source, tests);
    assert r.failed != [] ==> r.failed[0] in r.failed;
  }

  lemma {:induction false} FailedAre(tests: seq<TestCase>, log: string)
    ensures forall name :: name in FailedNames(tests, log) <==> exists t :: t in tests && t.name == name && Unmet(t, log)
    ensures FailedNames(tests, log) == [] <==> forall t | t in tests :: !Unmet(t, log)
  {
    if tests != [] {
      FailedAre(tests[1..], log);
      assert tests == [tests[0]] + tests[1..];
      UnmetMeansFailed(tests[0], log);
      assert Met(tests[0], log) <==> !Unmet(tests[0], log);
    }
  }

  /** Failed tests are named in the order of the tests. */
  lemma {:induction false} FailedInOrder(first: seq<TestCase>, rest: seq<TestCase>, log: string)
    ensures FailedNames(first + rest, log) == FailedNames(first, log) + FailedNames(rest, log)
  {
    if first == [] {
      assert first + rest == rest;
    } else {
      assert (first + rest)[0] == first[0] && (first + rest)[1..] == first[1..] + rest;
      FailedInOrder(first[1..], rest, log);
    }
  }

  lemma LogLineIsMet(device: VirtualDevice, test: TestCase, i: nat)
    requires i < |BootLog(device)| && test.expected == Some(BootLog(device)[i])
    ensures !Unmet(test, JoinLines(BootLog(device)))
  {
    LineIsInside(BootLog(device), i);
  }

  /** Tests that expect the start, the end or a peripheral's line of the boot log always pass. */
  lemma BootLinesPass(device: VirtualDevice, source: string, test: TestCase, k: nat)
    requires !Contains(source, "SIM_INFRA_TIMEOUT") && k < |device.peripherals|
    requires test.expected in {Some("[boot] virtual " + device.mcu + " device_id=" + device.id),
                               Some("[done] simulation complete"),
                               Some("[peripheral:" + device.peripherals[k] + "] initialized")}
    ensures Simulated(device, source, [test]).passed
  {
    var n := |device.peripherals|;
    BootLogLines(device);
    if test.expected == Some(BootLog(device)[0]) {
      LogLineIsMet(device, test, 0);
    } else if test.expected == Some(BootLog(device)[n + 1]) {
      LogLineIsMet(device, test, n + 1);
    } else {
      LogLineIsMet(device, test, k + 1);
    }
    SimulationSays(device, source, [test]);
  }

  // ---- what a patch writes ----

  predicate HasEntry(source: string) {
    Contains(source, "int main") || Contains(source, "void app_main")
  }

  function Balance(source: string): int {
    Count(source, '{') - Count(source, '}')
  }

  /** A source whose one flaw is that it has no entry point gets one in front, on a line of its own. */
  lemma EntryIsAdded(source: string)
    requires source != "" && !HasEntry(source) && !Contains(source, "#error") && Balance(source) == 0
    ensures Patch(source) == Patched("int main(void) { return 0; }" + "\n" + source)
  {
    StubInFront(source);
  }

  lemma StubInFront(source: string)
    requires !Contains(source, ERROR_MARK)
    ensures var t := STUB + "\n" + source;
            Cleaned(t) == t && !IsBlank(t) && Surplus(t) == Surplus(source)
  {
    WithStub(source);
    StubHasNoMark();
    StubIsOneLine();
    ContainsBeside(STUB, '\n', source, ERROR_MARK);
  }

  /** A source whose one flaw is error directives loses exactly the lines that hold one. */
  lemma DirectivesAreDropped(source: string)
    requires HasEntry(source) && Contains(source, "#error") && Balance(JoinLines(CleanLines(Lines(source)))) <= 0
    requires !IsBlank(JoinLines(CleanLines(Lines(source))))
    ensures Patch(source) == Patched(JoinLines(CleanLines(Lines(source))))
  {
  }

  /** The lines that are kept are those without the directive, in order. */
  lemma {:induction false} KeptLines(first: seq<string>, line: string)
    ensures CleanLines(first + [line]) == CleanLines(first) + if Contains(line, "#error") then [] else [line]
  {
    if first != [] {
      assert (first + [line])[0] == first[0] && (first + [line])[1..] == first[1..] + [line];
      KeptLines(first[1..], line);
    }
  }

  /** A source whose one flaw is open blocks gets the missing closing braces at its end; one with too many closing
      braces is left as it is. */
  lemma BracesAreClosed(source: string)
    requires HasEntry(source) && !Contains(source, "#error") && Balance(source) != 0 && !IsBlank(source)
    ensures Patch(source) == Patched(if Balance(source) > 0 then source + Repeat('}', Balance(source)) else source)
  {
    if Balance(source) > 0 {
      ClosedBlank(source);
    }
  }
}
