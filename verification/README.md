# Verified model of the network agent platform

This project models the decision-making core of the platform in Dafny and proves properties of it. Each group of
files follows one part of the code.

| files | part of the platform |
|---|---|
| `Graphs`, `Propagation`, `FaultTargets` | the digital twin's fault propagation: a network of devices and links, entry devices, and what one fault cuts off |
| `Rounding`, `Impact`, `ImpactScores` | the weighted, capped and rounded impact score of a propagation result, and what faults score on networks of a given size |
| `Firmware`, `FirmwareTexts`, `Validation`, `ValidationLoop`, `DefaultLoop`, `EmbeddedGraph` | firmware verification: the in-process compiler and simulator, the text patcher, the retry loop, and the same cycle as a workflow graph |
| `Spans`, `TraceStore`, `TraceTransactions`, `TraceHistories`, `TraceAuthors` | the trace span table, the sequential SQLite store, PostgreSQL transactions that interleave statement by statement, what their whole runs come to, and which request each row shows |
| `IdentityStores`, `IdentityService` | sessions and refresh rotation on the in-memory store and on Redis |
| `Policy`, `PolicyPlan` | policy rules, decisions, plan effects, and the gate that registration of capabilities applies |
| `Execution`, `Enterprise`, `EnterpriseRuns`, `EnterpriseWorkflow` | allowlisted execution, and the approval-gated graph with interrupts, resumes and re-run nodes: whose answers it obeys and what it reports |
| `GraphRuntime`, `QualityGraph`, `QualityRuns` | the retrieval and generation graph whose two loops share one counter |
| `Percentiles` | two percentile implementations and the latency summary's validator |
| `Documents`, `SetextHeadings`, `MarkdownFences`, `DocumentSplitting`, `CommandBlocks`, `FencedBlocks`, `FencedSegments`, `DocumentTexts` | splitting documents into sections and command blocks |
| `Sse`, `SseTexts` | the server-sent events printer and parser |
| `Outcomes`, `PyText` | optional results, raised exceptions, and the string operations the code uses |

Exceptions are `Err` values. Objects whose methods change fields are classes: the compiler backend, the state machine,
the artifact directory, the span store, both identity stores, the identity service, the executor and the enterprise
workflow; each method's new state is tied to a function on values, and the theorems are about those functions. Graph
workflows are step functions, with everything the environment decides (callbacks, clocks, resumed answers, failing
appends) as parameters that the theorems quantify over. Concurrent transactions are arbitrary sequences of single
statements; a statement that would block does not happen.

## What the proofs found

- A plan that is high-risk, critical or forced can run without any approval: a policy denial at RiskCheck clears the
  approval requirement, and if the graph stops between the two nodes and is recovered under an execution context whose
  roles the policy allows, Execute runs it. `Enterprise.RiskyRunIsExact` and `Enterprise.UnapprovedRiskyRun` show that
  this is the only way, and `Enterprise.SameRolesNeedApproval` that it does not happen within one invocation, which has
  one set of roles. The shipped approval endpoint does not recover such an incident: it answers 409 unless an approval is
  pending or given (src/network_agent_rag/packs/networkops/api/enterprise.py:524-552).
- Execution is at most once only as long as no audit or trace append fails after the handlers were called;
  `Enterprise.OnceExactly` makes this an if and only if.
- A closing fence directly followed by `---` or `===` is taken for an underlined heading, so that its block never ends
  and the headings after it are lost; `SetextHeadings.FencesSurvive` and `FencedSegments.SectionsKeepFences` give the
  exact condition, `FencedSegments.BlockStaysExactly` and `FencedSegments.BlockNeverEnds` what it means for a block.
- A session set back to active is usable in memory and unusable on Redis; `IdentityStores.OrderlyIsExact` says exactly
  which commands keep the stores alike. The identity service issues no others.
- A covering rule with a device cap of zero passes that gate although no context ever matches it, and a tool that passes
  the gate can still be denied in every context, for instance when its denying rule names all four roles
  (`PolicyPlan.DeniedToEveryRole`); `PolicyPlan.GateIsExact` and `PolicyPlan.DeniedForEverExactly` say when.
- A source whose only text is on error-directive lines, one of which names the entry point, makes the verification run
  raise instead of ending in PASSED or FAILED; `DefaultLoop.RaisesExactly` shows that no other source does. A source with
  more closing than opening braces outside its error-directive lines is patched until the budget is gone.
- When a device lists a service twice, the service ratio of the impact score can exceed one, and only the final cap then
  keeps the score at 100: `Impact.CoverageAboveHundred` is such an engine result, and `Impact.ListingsOutnumberServices`,
  `Impact.CapNeverBinds` and `Impact.CapBindsExactly` say when it happens.
- Device names with colons or dashes in the wrong places make the engine refuse its own results, or the analyzer refuse
  the state because two links share a text; `Propagation.RefusedExactly` and `Impact.EngineResultsAccepted` say when.
- The parser of server-sent events refuses an event without a name, where section 9.2.6 of the WHATWG HTML standard
  falls back to the name `message`, and does not end a line at a lone carriage return; the model follows the code.
- Fences may be indented by any amount and closing fences may carry text, unlike section 4.5 of CommonMark; the model
  follows the code.

## Model

| member | source | states |
|---|---|---|
| `Graphs.ConnectedComponent` | src/network_agent_rag/packs/networkops/digital_twin/propagation.py:142-147 | the worklist search returns exactly the nodes joined to the source by a walk |
| `Propagation.BuildGraph` | src/network_agent_rag/packs/networkops/digital_twin/propagation.py:104-119 | succeeds exactly when all link ends are devices and no two links join the same pair; then the graph has an edge where there is a link and nowhere else |
| `Propagation.CreateEngine` | src/network_agent_rag/packs/networkops/digital_twin/propagation.py:50-61 | an engine exists exactly for a consistent state with known, non-blank entries, at least one; without given entries they are the devices of the edge layer; its baseline is the set of devices some entry reaches; and why there is none otherwise |
| `Propagation.Analyze` | src/network_agent_rag/packs/networkops/digital_twin/propagation.py:63-95 | for every graph, entry set and fault: the affected devices are those that some entry reaches and from which every walk of every entry crosses the failed link (or passes the failed device, which is always affected itself); the affected links are those touching them, plus the failed one; unknown targets are refused, and so is a result that names a link whose text cannot be read back |
| `Propagation.RefusedExactly` | src/network_agent_rag/packs/networkops/digital_twin/propagation.py:40-43 | a fault of a known target is refused if and only if its report would name a link that cannot be read back |
| `Propagation.ReadableNames` | src/network_agent_rag/packs/networkops/digital_twin/propagation.py:40-43 | a link can be read back if and only if its two names, in order, are readable as a link text |
| `Propagation.ReadableNetworkReports` | src/network_agent_rag/packs/networkops/digital_twin/propagation.py:40-95 | when every link can be read back no result is refused for its links, and no two links share a text |
| `Propagation.LostByEdge` | src/network_agent_rag/packs/networkops/digital_twin/propagation.py:82-89 | searching again without the edge loses exactly the devices that the edge separates from all entries |
| `Propagation.LostByNode` | src/network_agent_rag/packs/networkops/digital_twin/propagation.py:73-81 | the same for a removed device |
| `Propagation.RingLinkCutsNothing` | src/network_agent_rag/packs/networkops/digital_twin/propagation.py:82-89 | a link whose ends stay connected without it affects no device |
| `Propagation.BridgeCut` | src/network_agent_rag/packs/networkops/digital_twin/propagation.py:82-89 | a bridge affects exactly the side without an entry when the other side has one, and nothing otherwise |
| `Propagation.LinkCut` | src/network_agent_rag/packs/networkops/digital_twin/propagation.py:82-89 | for every link, bridge or not, the walk definition and the two sides left by its removal give the same loss |
| `Propagation.LinkFaultReport` | src/network_agent_rag/packs/networkops/digital_twin/propagation.py:82-95 | the report of a link fault is that loss, every link touching it and the link itself, if its links can be read back |
| `Propagation.LinkCutInsideDeviceCut` | src/network_agent_rag/packs/networkops/digital_twin/propagation.py:73-89 | what a link fault cuts off, a device fault at either end cuts off too |
| `FaultTargets.LinkTextReadsBack` | src/network_agent_rag/packs/networkops/digital_twin/fault.py:74-86 | the text of a link is read back as the same two names if and only if both are non-empty, stripped, different, without colon, and no second pair of dashes arises in or beside them |
| `FaultTargets.ParsesExactly` | src/network_agent_rag/packs/networkops/digital_twin/fault.py:74-86 | a text is refused as a link exactly when it holds a colon or not exactly one pair of dashes, overlapping pairs included; otherwise it is cut there, and blank, unstripped or equal names are refused |
| `FaultTargets.CanonicalTextIsPair` | src/network_agent_rag/packs/networkops/digital_twin/propagation.py:166-167 | for such names two canonical references are equal exactly when they name the same unordered pair, which is why links are modelled as pairs |
| `FaultTargets.CanonicalOrder` | src/network_agent_rag/packs/networkops/digital_twin/propagation.py:166-167 | a canonical reference puts the name first that comes first in the order of texts |
| `FaultTargets.SharedText` | src/network_agent_rag/packs/networkops/digital_twin/propagation.py:166-167 | other names can share one canonical reference |
| `Impact.EngineResultsAccepted` | src/network_agent_rag/packs/networkops/digital_twin/impact.py:48-104 | the analyzer accepts a result of the engine if and only if no two links of the state share a text, and the score lies between 0 and 100 |
| `Impact.ReadableNetworkAccepted` | src/network_agent_rag/packs/networkops/digital_twin/impact.py:48-104 | when every link can be read back, faults of known targets are refused neither by the engine nor by the analyzer |
| `Impact.LinkFaultDominated` | src/network_agent_rag/packs/networkops/digital_twin/impact.py:71-118 | at one severity, a link fault is reported whenever a device fault at either end is, with no more affected devices, links or services, and no higher score or level |
| `Impact.ListingsOutnumberServices` | src/network_agent_rag/packs/networkops/digital_twin/impact.py:88-98 | for any set of affected devices, their service listings outnumber their services if and only if one of them lists a service twice |
| `Impact.WholeNetworkRatio` | src/network_agent_rag/packs/networkops/digital_twin/impact.py:92-98 | the service ratio of a whole network exceeds one if and only if some device lists a service twice |
| `Impact.CapNeverBinds` | src/network_agent_rag/packs/networkops/digital_twin/impact.py:88-104 | when no affected device lists a service twice, coverage never exceeds 100, so the cap has no effect |
| `Impact.CapBindsExactly` | src/network_agent_rag/packs/networkops/digital_twin/impact.py:88-104 | on every network with links and services that its only entry reaches as a whole, the cap binds for the critical loss of that entry if and only if some device lists a service twice |
| `Impact.CoverageAboveHundred` | src/network_agent_rag/packs/networkops/digital_twin/impact.py:88-104 | an engine result with a coverage of 110, which the cap takes to a score of 100 |
| `Impact.TotalOutageScore` | src/network_agent_rag/packs/networkops/digital_twin/impact.py:19-25 | when everything is affected and no device lists a service twice, the score is the full weight of the severity: 40, 60, 80 or 100, with the level to match |
| `ImpactScores.ReportLists` | src/network_agent_rag/packs/networkops/digital_twin/impact.py:76-90 | a report names the affected devices and their services, or the one service that failed |
| `ImpactScores.AnalyzerRefusals` | src/network_agent_rag/packs/networkops/digital_twin/impact.py:46-81 | which states, faults and results the analyzer refuses, for any result, and in which order |
| `ImpactScores.ScoreByShares` | src/network_agent_rag/packs/networkops/digital_twin/impact.py:92-98 | every score is the weighed sum of shares of fifty points for devices, thirty for services and twenty for links, at most 100, to two decimals |
| `ImpactScores.RingLinkScore` | src/network_agent_rag/packs/networkops/digital_twin/impact.py:92-98 | the fault of a readable link that is no bridge, on a network of m links, scores 20/m by weight: 0.4, 0.6, 0.8 or 1 |
| `ImpactScores.ServiceFaultScore` | src/network_agent_rag/packs/networkops/digital_twin/impact.py:92-98 | the fault of a service, on a network of n devices with k services in all, scores 50/n and 30/k by weight |
| `ImpactScores.LevelByScore` | src/network_agent_rag/packs/networkops/digital_twin/impact.py:111-118 | the level is low below 25, medium from 25, high from 50 and critical from 75 |
| `ImpactScores.LoneDeviceLoss` | src/network_agent_rag/packs/networkops/digital_twin/impact.py:92-118 | the loss of a lone device without services scores 50, 40, 30 or 20, and is high only when it is critical |
| `Rounding.NearestEven` | src/network_agent_rag/packs/networkops/digital_twin/impact.py:98 | rounding gives the nearest whole number, and the even one of two equally near |
| `Rounding.RoundingIsNearest` | src/network_agent_rag/packs/networkops/digital_twin/impact.py:98 | rounding to two or three decimals changes a value by at most half a unit of the last one |
| `Firmware.InProcessBackend.CompileFirmware` | src/network_agent_rag/packs/embeddedops/simulation/in_process.py:38-60 | the error list holds every error directive, a missing entry point and unbalanced braces, in this order, and is empty exactly for a source without error directives, with an entry point and with as many opening as closing braces |
| `Firmware.InProcessBackend.RunSimulation` | src/network_agent_rag/packs/embeddedops/simulation/in_process.py:69-118 | infrastructure marker first, then the failed test cases against the boot log; the log is stored under the device |
| `FirmwareTexts.CompilesExactly` | src/network_agent_rag/packs/embeddedops/simulation/in_process.py:38-60 | the texts that make an entry point and an error directive |
| `FirmwareTexts.SimulationSays` | src/network_agent_rag/packs/embeddedops/simulation/in_process.py:69-118 | a simulation fails for the infrastructure exactly on the timeout mark; otherwise it passes exactly when every expected text occurs in the boot log, and names the tests for which it does not |
| `FirmwareTexts.FailedInOrder` | src/network_agent_rag/packs/embeddedops/simulation/in_process.py:89-112 | failed tests are named in the order of the tests |
| `FirmwareTexts.BootLogLines` | src/network_agent_rag/packs/embeddedops/simulation/in_process.py:79-86 | the boot log: the device, each peripheral in order, the end |
| `FirmwareTexts.BootLinesPass` | src/network_agent_rag/packs/embeddedops/simulation/in_process.py:79-112 | a test that expects the line of the device, of a peripheral or of the end passes |
| `Firmware.PatchSource` | src/network_agent_rag/packs/embeddedops/agents/debug_agent.py:91-117 | the three edits in order; nothing is patched exactly on an empty or an accepted source, and a patch that leaves only white space raises |
| `FirmwareTexts.EntryIsAdded` | src/network_agent_rag/packs/embeddedops/agents/debug_agent.py:99-101 | a source that lacks nothing but an entry point gets one in front, on a line of its own |
| `FirmwareTexts.DirectivesAreDropped` | src/network_agent_rag/packs/embeddedops/agents/debug_agent.py:102-106 | a source with error directives, and nothing else to close, loses exactly the lines that hold one |
| `FirmwareTexts.KeptLines` | src/network_agent_rag/packs/embeddedops/agents/debug_agent.py:103-105 | the lines that are kept are those without a directive, in order |
| `FirmwareTexts.BracesAreClosed` | src/network_agent_rag/packs/embeddedops/agents/debug_agent.py:107-109 | a source with open blocks gets the missing closing braces at its end, and one with too many closing braces stays as it is |
| `Firmware.PatchStep` | src/network_agent_rag/packs/embeddedops/agents/debug_agent.py:91-117 | one patch moves a source one step along its fate: one patch nearer to acceptance, refused, or never accepted |
| `Firmware.Convergence` | src/network_agent_rag/packs/embeddedops/agents/debug_agent.py:91-117 | for every source and every number of patches, whether the result is accepted is decided by the source alone, and an accepted source needs at most two patches |
| `Firmware.ConvergesExactly` | src/network_agent_rag/packs/embeddedops/agents/debug_agent.py:91-117 | patching ever reaches an accepted source if and only if dropping the error directives leaves no more closing than opening braces and, unless the entry point is still to be added, text that is not white space |
| `Validation.StateMachine.Transition` | src/network_agent_rag/packs/embeddedops/agents/validation_loop.py:40-76 | moves only along the transition table and otherwise stays where it is and reports the illegal transition |
| `Validation.TableBackwards` | src/network_agent_rag/packs/embeddedops/agents/validation_loop.py:40-76 | the transition table read backwards: where each state can come from, so that nothing passes without a simulation and nothing follows PASSED or FAILED |
| `Validation.FileNameInjective` | src/network_agent_rag/packs/embeddedops/agents/validation_loop.py:163-194 | different attempts and kinds of log never share an artifact name |
| `ValidationLoop.Run` | src/network_agent_rag/packs/embeddedops/agents/validation_loop.py:143-225 | the loop follows its plan on every bench: result, fixes spent, candidates and saved names; it makes legal transitions only and is refused only when the directory already held one of its names, so never from an empty directory |
| `ValidationLoop.DebugCycle` | src/network_agent_rag/packs/embeddedops/agents/validation_loop.py:227-269 | the debug agent is asked; no patch or no budget left ends FAILED, otherwise one fix is spent and the machine is RETRYING |
| `ValidationLoop.PlanBounds` | src/network_agent_rag/packs/embeddedops/agents/validation_loop.py:143-225 | every run ends PASSED or FAILED unless diagnosis raises, with as many attempts as fixes plus one, and at most the budget plus one |
| `ValidationLoop.PlanTrace` | src/network_agent_rag/packs/embeddedops/agents/validation_loop.py:159-225 | the candidates are a chain of patches from the first firmware, each but the last failed; the run passes if and only if the last one passed its simulation, and raises if and only if its patch was refused |
| `ValidationLoop.SavedNames` | src/network_agent_rag/packs/embeddedops/agents/validation_loop.py:159-225 | a run saves a compile log for every candidate, a simulation log for every one that compiled, numbered by attempt, and a report unless diagnosis raises; these names and no others |
| `DefaultLoop.DefaultReaches` | src/network_agent_rag/packs/embeddedops/agents/validation_loop.py:143-269 | with the default compiler and patcher a source that needs k patches ends as its accepted form would after k fixes when the budget covers them, and otherwise FAILED with the whole budget spent |
| `DefaultLoop.DefaultNever` | src/network_agent_rag/packs/embeddedops/agents/validation_loop.py:143-269 | a source with more closing than opening braces after its error-directive lines are dropped ends FAILED with exactly the whole budget spent |
| `DefaultLoop.DefaultRefused` | src/network_agent_rag/packs/embeddedops/agents/debug_agent.py:91-117 | a source whose patch would be white space raises before any fix is spent |
| `DefaultLoop.RaisesExactly` | src/network_agent_rag/packs/embeddedops/agents/validation_loop.py:143-269 | with the default compiler and patcher a run raises if and only if the source names an entry point and has no text outside the lines with error directives; otherwise it ends PASSED or FAILED |
| `DefaultLoop.DirectiveRaises` | src/network_agent_rag/packs/embeddedops/agents/debug_agent.py:91-117 | the single line of an error directive that names the entry point is such a source |
| `DefaultLoop.DefaultEnding` | src/network_agent_rag/packs/embeddedops/agents/validation_loop.py:143-269 | how every source ends with the in-process backend: raised at once, FAILED with the budget spent, or simulated once in its accepted form after as many fixes as it needs, PASSED exactly when that simulation passes |
| `EmbeddedGraph.GraphAgreesWithLoop` | src/network_agent_rag/packs/embeddedops/agents/workflow.py:193-287 | for any backend and any patch depending on the firmware and the attempt alone, the approved graph and the loop try the same candidates in the same order, spend the same fixes and end alike, infrastructure exit and raised diagnosis included |
| `EmbeddedGraph.UnapprovedRunTriesNothing` | src/network_agent_rag/packs/embeddedops/agents/workflow.py:193-246 | without approval or the compile capability nothing is compiled and the run ends FAILED |
| `EmbeddedGraph.RunHasReason` | src/network_agent_rag/packs/embeddedops/agents/workflow.py:193-287 | every run ends with its reason on record: approval, capability, infrastructure, no patch, or no fix left for one, by how the last candidate came out |
| `TraceStore.SQLiteTraceStore.StartSpan` | src/network_agent_rag/observability/store.py:67-139 | answers and changes the table exactly as the start specification says: same row for a used key, refused parent, next attempt number |
| `TraceStore.SQLiteTraceStore.FinishSpan` | src/network_agent_rag/observability/store.py:141-186 | a running span is finished once; a finished one is returned unchanged; an end before the start is refused |
| `TraceStore.StartWrites` | src/network_agent_rag/observability/store.py:82-139 | what every start answers and writes: the row of a used key, the refusals, or one new row that shows the stripped request, running, with the next number among the rows of its incident, run, kind and name |
| `TraceStore.FinishWrites` | src/network_agent_rag/observability/store.py:141-186 | what every finish answers and writes: the row as it is when finished already, the refusals, or the requested status, end, error and attributes, the latter over those of the start, on its row, whose identity stays, and on no other |
| `TraceStore.UnknownSpanIsRefused` | src/network_agent_rag/observability/store.py:155-163 | a finish of a row that is not there writes nothing |
| `TraceStore.ReachableSound` | src/network_agent_rag/observability/store.py:67-186 | every reachable table is a forest whose parents come earlier and share trace, run and incident; attempts are numbered per series; keys are unique; finished spans end after they start |
| `Spans.AttemptsAreConsecutive` | src/network_agent_rag/observability/store.py:108-117 | in a sound table the attempts of each series are 1 to n in insertion order |
| `Spans.RootShares` | src/network_agent_rag/observability/store.py:97-107 | every span shares trace, run and incident with the root of its tree |
| `TraceStore.RowsPersist` | src/network_agent_rag/observability/store.py:155-186 | rows are never lost, moved or renumbered, and a finished span never changes again |
| `TraceStore.RepeatedKey` | src/network_agent_rag/observability/store.py:89-96 | starting again with a used key returns that span and changes nothing, whatever happened in between |
| `TraceTransactions.StepKeepsInv` | src/network_agent_rag/storage/postgres.py:219-366 | every statement of every concurrent transaction, aborts included, keeps the invariant, for any advisory-lock hash and so with collisions |
| `TraceTransactions.InterleavingsAreSound` | src/network_agent_rag/storage/postgres.py:219-310 | in every interleaving the committed table is sound, attempts per series are 1 to n without gaps or repeats, and the missing-record error never occurs |
| `TraceTransactions.OneKeyOneSpan` | src/network_agent_rag/storage/postgres.py:229-310 | all callers that used one key for one incident are given the same span |
| `TraceAuthors.StartCommits` | src/network_agent_rag/storage/postgres.py:273-310 | a start that commits its insert adds one row that shows its request, and gives it to its caller |
| `TraceAuthors.FinishCommitsResult` | src/network_agent_rag/storage/postgres.py:336-366 | a finish that commits its update writes the requested result to its row and to no other, and gives its caller the row as written |
| `TraceAuthors.EveryRowHasAuthors` | src/network_agent_rag/storage/postgres.py:219-366 | in every interleaving each row shows the request of the transaction that started it, and each finished row that of the one that finished it and answered with it, unless they were there before |
| `TraceHistories.SomeoneCanStep` | src/network_agent_rag/storage/postgres.py:256-310 | while a transaction is unfinished some transaction can take its next step: the locks never deadlock |
| `TraceHistories.StepsAreBounded` | src/network_agent_rag/storage/postgres.py:219-366 | no schedule takes more steps, waits aside, than its transactions have statements left in all, and what it leaves is bounded by the rest |
| `TraceHistories.StuckMeansEnded` | src/network_agent_rag/storage/postgres.py:219-366 | in every reachable state no transaction can take its next statement if and only if all have ended: no transactions are left waiting for each other until one is aborted |
| `TraceHistories.EveryoneCanEnd` | src/network_agent_rag/storage/postgres.py:219-366 | from every reachable state some schedule without an abort ends every transaction within that bound |
| `TraceHistories.Linearizable` | src/network_agent_rag/storage/postgres.py:197-366 | every interleaving is explained by the sequential store serving the answered calls one after the other, refusals included, with the same answers and the same final table |
| `TraceHistories.EveryAnswerLogged` | src/network_agent_rag/storage/postgres.py:197-366 | in that explanation each transaction stands exactly once when it answered its caller, with its own call and answer, and otherwise not at all |
| `TraceHistories.RealTimeOrder` | src/network_agent_rag/storage/postgres.py:197-366 | in that explanation a call that has ended before another takes its first statement stands before it |
| `IdentityStores.InMemoryIdentityStore.RotateRefresh` | src/network_agent_rag/auth/identity.py:138-160 | rotation replaces the digest of an active session, revokes the session on a wrong one, and is false on an inactive session |
| `IdentityStores.RedisIdentityStore.RotateRefresh` | src/network_agent_rag/auth/identity.py:210-267 | the script as one atomic step on the session fields and the refresh key |
| `IdentityStores.ReadsBack` | src/network_agent_rag/auth/identity.py:123-173 | after any command a session reads as that command left it: created, with another status, with a later end, revoked by a wrong digest, or as before |
| `IdentityStores.RotatesForTheLast` | src/network_agent_rag/auth/identity.py:138-160 | a session rotates exactly for the digest it was created with or last rotated to, while it is active |
| `IdentityStores.StoresAgree` | src/network_agent_rag/auth/identity.py:116-278 | on every orderly sequence of commands both stores give the same answers |
| `IdentityStores.OrderlyIsExact` | src/network_agent_rag/auth/identity.py:162-173 | a command keeps the stores alike for every orderly continuation if and only if it is orderly; otherwise at most two further commands tell them apart |
| `IdentityStores.ReactivationTold` | src/network_agent_rag/auth/identity.py:269-278 | a session set back to active works again in memory but not in Redis, where its digest was deleted |
| `IdentityService.EnterpriseIdentityService.IssueSession` | src/network_agent_rag/auth/identity.py:354-364 | issues a pair of tokens under a new session and stores the digest of its refresh token |
| `IdentityService.EnterpriseIdentityService.RefreshSession` | src/network_agent_rag/auth/identity.py:366-393 | verifies, issues the replacement pair and rotates; refused without a new pair when the rotation is |
| `IdentityService.EnterpriseIdentityService.AuthenticateAccessToken` | src/network_agent_rag/auth/identity.py:395-409 | verifies the token, expires an overdue session, and answers only for an active session of the same identity |
| `IdentityService.EnterpriseIdentityService.DeactivateSession` | src/network_agent_rag/auth/identity.py:411-427 | revokes the session, or denies when there is none |
| `IdentityService.NewServiceKeepsInv` | src/network_agent_rag/auth/identity.py:336-427 | every state that a new service reaches keeps tokens and sessions consistent, which the rows below start from |
| `IdentityService.AcceptedExactly` | src/network_agent_rag/auth/identity.py:366-393 | a refresh token is accepted exactly while it is valid and the one that its active session expects |
| `IdentityService.IssuedPairWorks` | src/network_agent_rag/auth/identity.py:354-364 | the pair of a new session is usable: a new refresh token that is accepted, and an access token that authenticates its identity, each throughout its validity; and the session that is stored |
| `IdentityService.RefreshedPairWorks` | src/network_agent_rag/auth/identity.py:366-393 | so is the pair of every accepted refresh, whose refresh token differs from the one presented and belongs to the same session and identity |
| `IdentityService.RefreshingInTimeNeverFails` | src/network_agent_rag/auth/identity.py:366-393 | a client that refreshes in time, always with the token it was last given, is never refused |
| `IdentityService.AuthenticatedExactly` | src/network_agent_rag/auth/identity.py:395-409 | an access token authenticates its own identity exactly while it is valid and its session is active and not overdue |
| `IdentityService.BadLifetimesExactly` | src/network_agent_rag/auth/identity.py:354-393 | nothing is handed out or changed exactly when access tokens would outlive refresh tokens |
| `IdentityService.LogoutIsFinal` | src/network_agent_rag/auth/identity.py:411-427 | a logout of a known session revokes it, ends it for every token and continuation, and leaves all others alone |
| `IdentityService.OverdueIsFinal` | src/network_agent_rag/auth/identity.py:401-409 | presenting an access token of an overdue session is refused and ends the session |
| `IdentityService.LateExpiryIsFinal` | src/network_agent_rag/auth/identity.py:401-409 | so does an expiry that is written late |
| `IdentityService.AcceptedOnce` | src/network_agent_rag/auth/identity.py:366-393 | in every run a refresh token is accepted at most once |
| `IdentityService.OneAcceptable` | src/network_agent_rag/auth/identity.py:366-393 | at any moment at most one token of a session is acceptable |
| `IdentityService.ReuseRevokes` | src/network_agent_rag/auth/identity.py:138-160 | presenting any other valid token of an active session is refused and revokes the session (section 5.2.2.3 of RFC 6819) |
| `IdentityService.InactiveForEver` | src/network_agent_rag/auth/identity.py:366-427 | once a session is not active no later refresh or access authentication for it succeeds |
| `IdentityService.StoresInterchangeable` | src/network_agent_rag/auth/identity.py:336-427 | every run of the service gets the same replies from the in-memory store and from Redis |
| `IdentityService.NewServicesAgree` | src/network_agent_rag/auth/identity.py:336-427 | so does every run of a new service |
| `Policy.CreateRegistry` | src/network_agent_rag/policy/registry.py:17-45 | a registry is built exactly from rules with distinct identifiers and acceptable tools; its rules are the given ones in ascending order, its tools the given ones under their stripped names; otherwise the first refused rule or tool decides the error |
| `Policy.OrderIrrelevant` | src/network_agent_rag/policy/registry.py:36-45 | registries built from any reordering of the same rules and tools are equal |
| `Policy.DecisionByMatches` | src/network_agent_rag/policy/engine.py:32-40 | a decision read off the matching rules: denied if none matches or one denies, otherwise approval if one requires it |
| `Policy.AddingARule` | src/network_agent_rag/policy/engine.py:32-40 | adding a rule changes a decision only where it matches, to the stronger effect, or from the default denial to its own effect |
| `Policy.AddingNeverLoosens` | src/network_agent_rag/policy/engine.py:32-40 | where something already matched, adding a rule never loosens the decision |
| `PolicyPlan.EvaluateActions` | src/network_agent_rag/policy/evaluator.py:34-76 | one evaluation per action, and what each says: the stripped identifier, the operation of the stripped tool or unknown, the execution permission, the given roles and risk, all stripped non-blank targets of the plan, and the decision of the matching rules; which plans raise, at which action first and why, names of more than 128 characters included |
| `PolicyPlan.PlanEffectByActions` | src/network_agent_rag/policy/evaluator.py:34-85 | a plan is denied when one of its actions is, and otherwise needs approval when one does; it has no effect exactly when its evaluation raises, names of more than 128 characters included |
| `PolicyPlan.PlanEffectUnordered` | src/network_agent_rag/policy/evaluator.py:34-85 | neither the order of the actions nor repeating one changes the effect of a plan |
| `PolicyPlan.PlanDeniedExactly` | src/network_agent_rag/policy/evaluator.py:34-85 | read off the rules and tools that a registry was built from: a plan is denied exactly when some action, as what its tool is classified as, on all devices of the plan, is matched by no rule or by one that denies |
| `PolicyPlan.UnclassifiedIsDenied` | src/network_agent_rag/policy/registry.py:58-61 | when no rule admits unknown operations, a plan with a tool that is none of the given ones is denied |
| `PolicyPlan.RolesDecide` | src/network_agent_rag/policy/engine.py:59-74 | one plan under one registry can be denied for some roles and allowed for others, which the finding about unapproved plans rests on |
| `PolicyPlan.FindUncovered` | src/network_agent_rag/packs/registry.py:162-189 | the gate refuses exactly when a classified capability is covered by no rule, and names the first |
| `PolicyPlan.ClassifiedFromTools` | src/network_agent_rag/packs/registry.py:162-171 | what the gate looks at: the capabilities whose name is that of a given tool, with the operation given for it |
| `PolicyPlan.UncoveredIsDenied` | src/network_agent_rag/packs/registry.py:169-189 | an uncovered capability is denied in every context with its operation and permission |
| `PolicyPlan.GateIsExact` | src/network_agent_rag/packs/registry.py:172-181 | some context of an operation and permission is matched if and only if a covering rule allows at least one device; a covering rule with a device cap of zero passes the gate and never matches |
| `PolicyPlan.DeniedForEverExactly` | src/network_agent_rag/packs/registry.py:172-189 | an operation and permission are denied in every context unless a covering rule that does not deny admits a request of one of the four roles, at one risk level, for one of finitely many device counts, that no covering rule that denies admits; if and only if |
| `PolicyPlan.DeniedToEveryRole` | src/network_agent_rag/packs/registry.py:184-189 | an operation that one rule allows and another denies to all four roles passes the gate and is denied in every context |
| `PolicyPlan.CoveredYetDenied` | src/network_agent_rag/packs/registry.py:184-189 | a covered operation that is denied in every context |
| `Execution.AllowlistedExecutor.Execute` | src/network_agent_rag/packs/networkops/agents/enterprise/execution.py:22-39 | a tool without a handler is refused without a call; a handler is called once and its answer checked |
| `Execution.ExecuteActions` | src/network_agent_rag/packs/networkops/agents/enterprise/execution.py:42-109 | the four refusals, exactly when each is given, and otherwise the trail of attempts and exactly the handler calls it stands for |
| `Execution.CallsSucceedInOrder` | src/network_agent_rag/packs/networkops/agents/enterprise/execution.py:78-103 | the calls are a prefix of the plan, all allowlisted, each but the last successful, and they stop only at an action that did not succeed |
| `Execution.SucceedsWhenAllDo` | src/network_agent_rag/packs/networkops/agents/enterprise/execution.py:104-109 | a plan counts as executed exactly when every action was called and succeeded |
| `EnterpriseGraph.EnterpriseWorkflow.CheckRisk` | src/network_agent_rag/packs/networkops/agents/enterprise/workflow.py:319-370 | one step of the machine at RiskCheck; it moves on exactly when the node does not raise |
| `EnterpriseGraph.EnterpriseWorkflow.AwaitApproval` | src/network_agent_rag/packs/networkops/agents/enterprise/workflow.py:398-453 | one step at Approval: interrupt, resume, refusals and the stored answer |
| `EnterpriseGraph.EnterpriseWorkflow.Execute` | src/network_agent_rag/packs/networkops/agents/enterprise/workflow.py:455-558 | one step at Execute: policy evaluated again, handlers called, and the update lost but not the calls when an append fails afterwards |
| `Enterprise.StepKeepsInv` | src/network_agent_rag/packs/networkops/agents/enterprise/workflow.py:588-624 | every step keeps the recorded risk decision and the stored approval bound to these actions |
| `EnterpriseRuns.RiskCheckExactly` | src/network_agent_rag/packs/networkops/agents/enterprise/workflow.py:319-370 | when RiskCheck moves on, what it records, dated by the turn, and when it asks for approval: the policy requires it, or the plan is high-risk, critical or forced and not denied |
| `EnterpriseRuns.AnswersExactly` | src/network_agent_rag/packs/networkops/agents/enterprise/approval.py:70-105 | which answers of a human are accepted, and that an approval leads to Execute and a rejection to the report |
| `EnterpriseRuns.StoredAnswerWasGiven` | src/network_agent_rag/packs/networkops/agents/enterprise/approval.py:99-105 | in every run a stored approval or rejection is the answer that some permitted turn gave at the approval node: its decision, digest, stripped actor and comment, and time |
| `EnterpriseRuns.CallsHaveConsent` | src/network_agent_rag/packs/networkops/agents/enterprise/workflow.py:455-527 | no handler of a plan that asked for approval is called unless a permitted turn approved exactly these actions, at most the approval window after the turn that checked the risk |
| `EnterpriseRuns.RejectingEndsThePlan` | src/network_agent_rag/packs/networkops/agents/enterprise/workflow.py:617-621 | an accepted rejection goes to the report, and no continuation calls a handler |
| `EnterpriseRuns.RunsExactly` | src/network_agent_rag/packs/networkops/agents/enterprise/workflow.py:455-527 | when the actions run at Execute, in every run |
| `EnterpriseRuns.ReportSaysWhatHappened` | src/network_agent_rag/packs/networkops/agents/enterprise/workflow.py:477-558 | what the report of every run says, for good: why nothing was attempted, or how each attempt came out in order, a success exactly when every action was called and succeeded |
| `Enterprise.OnlyClearedPlansRun` | src/network_agent_rag/packs/networkops/agents/enterprise/workflow.py:455-527 | in every run, with resumes and re-runs, a handler is called only at Execute, authorised, with approval not required or given in time and bound to the digest of exactly these actions, and with a policy neither denying nor lacking its approval |
| `Enterprise.RejectionIsFinal` | src/network_agent_rag/packs/networkops/agents/enterprise/workflow.py:617-621 | once a plan is rejected no handler is ever called |
| `Enterprise.AtMostOnce` | src/network_agent_rag/packs/networkops/agents/enterprise/execution.py:78-109 | if no append fails after the work of a node, the calls of the whole run come from one turn and are a prefix of the plan |
| `Enterprise.AttemptsAreLost` | src/network_agent_rag/packs/networkops/agents/enterprise/workflow.py:529-558 | in every run actions are attempted at most once more than attempts are lost to failing appends |
| `Enterprise.LostUpdateRepeats` | src/network_agent_rag/packs/networkops/agents/enterprise/workflow.py:529-549 | wherever a turn runs the actions, losing its update makes the next run call the same handlers again from the first action |
| `Enterprise.OnceExactly` | src/network_agent_rag/packs/networkops/agents/enterprise/workflow.py:529-558 | after a turn that calls a handler, every continuation attempts the actions at most once in all if and only if no append failed after that turn's work |
| `Enterprise.UnapprovedRiskyRun` | src/network_agent_rag/packs/networkops/agents/enterprise/workflow.py:344-350 | a high-risk, critical or forced plan runs unapproved only when the policy denied it at RiskCheck and allows it at Execute, under other roles |
| `Enterprise.RiskyRunIsExact` | src/network_agent_rag/packs/networkops/agents/enterprise/workflow.py:344-350 | for turns that nothing else stops this is an if and only if |
| `Enterprise.SameRolesNeedApproval` | src/network_agent_rag/packs/networkops/agents/enterprise/workflow.py:344-350 | turns that all have the same roles, such as those of one invocation, never run a risky plan without an approval |
| `QualityGraph.Invoke` | src/network_agent_rag/packs/networkops/agents/workflow.py:113-328 | whatever the callbacks do, the graph ends within four steps per iteration and two more, the iteration count stays within the limit, retrievals plus generations within the limit plus one, it ends without error exactly when the checker approved the answer it returns, and graded answers come from evidence that reached the threshold |
| `QualityGraph.BudgetAlong` | src/network_agent_rag/packs/networkops/agents/workflow.py:141-253 | at every moment the completed retrievals and generations are the iterations spent, plus one for the free first generation after a retrieval |
| `QualityGraph.BoundIsReached` | src/network_agent_rag/packs/networkops/agents/workflow.py:243-280 | under every configuration some run ends approved after exactly one retrieval or generation more than the limit |
| `QualityRuns.StateRemembers` | src/network_agent_rag/packs/networkops/agents/workflow.py:113-253 | until it ends, a run works with the intent, query, score, answer and rejection that its callbacks gave last |
| `QualityRuns.StepFollowsEdges` | src/network_agent_rag/packs/networkops/agents/workflow.py:85-328 | a callback answer that its node refuses ends the run with that node on record and the last answer or an apology; every other follows the edges of the graph |
| `QualityRuns.EndsBecause` | src/network_agent_rag/packs/networkops/agents/workflow.py:85-280 | how every run ends: an approval of the last answer, a low score or a rejection with no iteration left, or a refused answer, and what it then returns |
| `Percentiles.ImplementationsAgree` | src/network_agent_rag/evaluation/metrics.py:87-94 | the clamped linear percentile and the floor/ceiling percentile are the same function on every non-empty list |
| `Percentiles.PercentileMonotone` | src/network_agent_rag/observability/metrics.py:242-249 | percentiles of sorted samples are monotone in the fraction and stay between the least and the greatest |
| `Percentiles.PercentileValue` | src/network_agent_rag/observability/metrics.py:242-252 | a percentile whose rank is a whole number is that sample, and otherwise lies on the line between its neighbours |
| `Percentiles.Median` | src/network_agent_rag/observability/metrics.py:237 | the 50th percentile is the middle sample or the point halfway between the two in the middle |
| `Percentiles.SummaryValid` | src/network_agent_rag/observability/metrics.py:36-45 | for any monotone rounding the percentile and average checks of the validator never fire |
| `Percentiles.DurationsAccepted` | src/network_agent_rag/observability/metrics.py:223-239 | a summary of non-negative samples is always accepted |
| `Percentiles.SummarySays` | src/network_agent_rag/observability/metrics.py:233-239 | a summary holds the number of samples, their mean, their median and the last of them |
| `Percentiles.SummarySaysLate` | src/network_agent_rag/observability/metrics.py:237 | the 95th percentile of 20m + 1 samples is the one that m others follow |
| `Percentiles.NothingSummarized` | src/network_agent_rag/observability/metrics.py:225-232 | without samples everything is nought |
| `Percentiles.ValidatesExactly` | src/network_agent_rag/observability/metrics.py:28-46 | what the validator refuses, and in which order |
| `Percentiles.Summarize` | src/network_agent_rag/observability/metrics.py:223-239 | validates the summary of the samples in ascending order, and never rejects non-negative samples |
| `Percentiles.LatencySummaryOf` | src/network_agent_rag/observability/metrics.py:223-239 | the same at the three decimals the service reports |
| `Documents.CutSections` | src/network_agent_rag/rag/documents.py:203-239 | the loop gives the sections of the chapters of its lines, without those whose body is white space, and the last title path |
| `Documents.ChaptersAreCut` | src/network_agent_rag/rag/documents.py:218-238 | the chapters, flattened, are the lines; they are cut at every heading outside a fenced block and nowhere else, no fenced block spans two, and each path follows from the one before |
| `Documents.OneWayToCut` | src/network_agent_rag/rag/documents.py:218-238 | no other chapters are cut like that, so the cut does not depend on how the loop is written |
| `DocumentTexts.TitlePath` | src/network_agent_rag/rag/documents.py:234 | a heading of level n keeps n - 1 titles above its own, or as many as there are |
| `DocumentTexts.KeptInOrder` | src/network_agent_rag/rag/documents.py:213-216 | the sections are the chapters whose body is not white space, in order |
| `DocumentSplitting.SplitSections` | src/network_agent_rag/rag/documents.py:203-239 | the same for a text: its sections are those of its normalized lines, so headings and bodies are the normalized lines in order |
| `CommandBlocks.CutBlocks` | src/network_agent_rag/rag/documents.py:273-321 | the loop gives the segments of the blocks of its lines |
| `CommandBlocks.BlocksAreCut` | src/network_agent_rag/rag/documents.py:290-321 | the blocks hold the lines in order; each is a maximal run of prose, a maximal run of commands, or one whole fenced block |
| `CommandBlocks.OneWayToCut` | src/network_agent_rag/rag/documents.py:290-321 | no other blocks are cut like that |
| `DocumentTexts.SegmentKinds` | src/network_agent_rag/rag/documents.py:273-321 | a segment is one of commands exactly when its block starts with a fence or a command, and its text is the lines of the block |
| `FencedBlocks.SplitCliBlocks` | src/network_agent_rag/rag/documents.py:273-321 | joined, the segments are the text |
| `FencedBlocks.NoBlockIsCut` | src/network_agent_rag/rag/documents.py:291-308 | wherever a fenced block lies in some lines, it is one block of their cut |
| `FencedBlocks.NoBlockSpansSections` | src/network_agent_rag/rag/documents.py:218-236 | wherever a fenced block lies in the lines of separate chapters, it lies in the body of one of them, where nothing is open |
| `FencedSegments.BlockBecomesSegment` | src/network_agent_rag/rag/documents.py:203-321 | wherever a fenced block lies in the normalized lines of a text, it is one command segment of one of the sections of the text |
| `FencedSegments.FencedBlockIsOneSegment` | src/network_agent_rag/rag/documents.py:203-321 | the same for the lines of the text itself, when no underline follows the block's closing fence and the fence lines that survive before it leave no block open |
| `SetextHeadings.SurvivorsAre` | src/network_agent_rag/rag/documents.py:242-270 | the fence lines of the normalized lines are exactly those of the given lines, in order, without the closing fences that an underline follows directly |
| `SetextHeadings.SurvivorsDecide` | src/network_agent_rag/rag/documents.py:242-270 | the block that normalized lines leave open is the one that these surviving fence lines leave open |
| `SetextHeadings.FencesSurvive` | src/network_agent_rag/rag/documents.py:242-270 | normalizing keeps every fence line, in order, if and only if no closing fence is directly followed by an underline |
| `FencedSegments.BlockStaysExactly` | src/network_agent_rag/rag/documents.py:242-270 | a fenced block of a text is a block of the normalized lines, between what its surroundings become, if and only if the fence lines before it, without the closing fences that underlines turn into headings, leave no block open and no underline follows its own closing fence |
| `FencedSegments.BlockNeverEnds` | src/network_agent_rag/rag/documents.py:258-265 | every block whose closing fence an underline follows loses that fence to a heading, and when the surviving fence lines before the block leave none open it is still open after the heading |
| `SetextHeadings.SameBlocks` | src/network_agent_rag/rag/documents.py:242-270 | lines in which no closing fence is directly followed by an underline leave open the same block after normalizing as before, so nothing when they end outside every block |
| `FencedSegments.SectionsKeepFences` | src/network_agent_rag/rag/documents.py:203-270 | the sections of a text hold all its fence lines, in order, if and only if no closing fence of it is directly followed by an underline |
| `MarkdownFences.MarkdownIsPlain` | src/network_agent_rag/rag/documents.py:15-16 | neither underlines nor rewritten headings are fences |
| `DocumentTexts.FenceExactly` | src/network_agent_rag/rag/documents.py:16 | a line is a fence exactly when, after white space, it starts with three or more back quotes or tildes; how many they are is its length |
| `DocumentTexts.UnderlineExactly` | src/network_agent_rag/rag/documents.py:15 | a line is an underline exactly when it is nothing but equals signs, or nothing but hyphens, between white space; which of them decides the level |
| `DocumentTexts.UnderlinedPair` | src/network_agent_rag/rag/documents.py:258-265 | a title and its underline become one hash heading with the same line ending |
| `DocumentTexts.BlockLines` | src/network_agent_rag/rag/documents.py:219-227 | a fenced block starts with its fence, and no line between its first and its last has the same mark at least as often |
| `DocumentTexts.BlockIsClosed` | src/network_agent_rag/rag/documents.py:219-227 | it is closed exactly when its last line, other than its first, has |
| `DocumentSplitting.SplitAgain` | src/network_agent_rag/rag/documents.py:218 | joining lines and splitting again gives the same lines |
| `Sse.Parse` | src/network_agent_rag/packs/networkops/frontend/client.py:182-227 | the loop reads events, and stops with an error, as the parser specification says |
| `Sse.RoundTrip` | src/network_agent_rag/packs/networkops/api/router.py:145-150 | parsing the lines of any concatenation of printed events gives exactly those events |
| `Sse.RoundTripIsExact` | src/network_agent_rag/packs/networkops/frontend/client.py:182-227 | it does so if and only if every name is non-empty, without a line feed, and does not end in a carriage return |
| `SseTexts.PrintedText` | src/network_agent_rag/packs/networkops/api/router.py:145-150 | the text of a printed event |
| `SseTexts.FieldRead` | src/network_agent_rag/packs/networkops/frontend/client.py:209-215 | how a line is read as a field and its value |
| `SseTexts.BlockIsOneEvent` | src/network_agent_rag/packs/networkops/frontend/client.py:182-227 | any lines up to a blank one are read as one event, with the last name and all data joined, or refused for what they lack; the lines behind as they would be alone |
| `SseTexts.LastBlock` | src/network_agent_rag/packs/networkops/frontend/client.py:222-227 | so are the last lines, without a blank one behind them |
| `PyText.FirstLine` | src/network_agent_rag/rag/documents.py:242-243 | a text is cut behind the terminator of its first line, a carriage return with its line feed being one |
| `PyText.BreakCodes` | src/network_agent_rag/rag/documents.py:242-243 | the characters that end lines |
| `PyText.SpaceCodes` | src/network_agent_rag/policy/registry.py:30 | the characters that are stripped |
| `PyText.BeforeMeans` | src/network_agent_rag/policy/registry.py:36-41 | the order of texts: the first difference decides, and a prefix comes first |
| `PyText.DecimalReads` | src/network_agent_rag/packs/embeddedops/agents/validation_loop.py:163-194 | decimal numerals stand for their numbers, without leading zeros |

## Left out

- The runtimes below the code: NetworkX (replaced by a verified search), LangGraph (a step relation), psycopg and the
  database (statements over sequences of rows), the Redis client and its script engine (one atomic step), PyJWT,
  pydantic and JSON.
- Hashes, digests and identifiers: plan digests are an arbitrary function, token digests are injective, span and session
  identifiers are fresh; redaction and summaries of recorded attributes are not modelled.
- Floating point: scores, percentiles and averages are exact reals with rounding ties to even, or any monotone rounding.
- Clocks are integers or reals given as parameters; time-zone checks are not modelled, and the token manager reads one
  time per call.
- The text form of fault targets: faults carry the parsed names. The text form of links is modelled where results and
  states are validated; services are pairs of a device and a name, so that two of them never share a text.
- Sorted lists of affected devices, links and services in results: they are sets.
- Actor names of more than 128 characters, which a policy context refuses. Device names of contexts, unlike those of
  plans, are not bounded: a rule that demands more devices than there are names of 128 characters counts as matchable.
- Expiry of Redis keys and its truncation to whole seconds, API keys, and the validation of blank identity fields.
- Audit records as data, their idempotency keys and their contents: only whether an append fails is modelled. A process
  that dies in the middle of the actions, rather than at an append, is not modelled.
- The nodes of the enterprise graph before RiskCheck, the validation of the plan they produce, and a policy registry
  that changes during one incident. The contents of the final report.
- The approval node of the embedded graph, its artifact names and its diagnosis text; the stored simulation that a
  later compile failure leaves behind only influences that text. The graph keeps the last refused patch as its firmware,
  which is modelled but not compared with the loop.
- The `diagnose` callback enters as the outcome of a patch; the default diagnosis category is not modelled.
- Retries of a node on connection errors happen inside one step: a callback that is retried counts as one.
- Span names, run and trace identifiers of blank text are refused as in the code, but listing and filtering spans is
  not modelled. SQLite access from several processes is not modelled; its lock makes calls sequential.
- PostgreSQL failures other than an abort at a statement, and isolation levels other than read committed.
- Heading and command patterns are arbitrary functions on lines, fence and underline patterns are written out. Chunking
  by size, PDF extraction and the numbered headings of text files are not modelled.
- UTF-8 decoding of the event stream, and how JSON text is written: payload texts are assumed to have no line feed and
  not to end in a carriage return.
- FastAPI routes, the web frontends, retrieval, report texts, role tables, the evaluation benchmark and the pagination
  of incidents.
