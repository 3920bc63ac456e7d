/** The approval-gated part of the enterprise graph: RiskCheck, Approval, Execute and ReportAgent as steps that
    can be interrupted, resumed, made to fail by the environment and run again. */
module Enterprise {
  import opened Outcomes
  import PyText
  import opened Policy
  import opened PolicyPlan
  import opened Execution

  datatype Node = AtRiskCheck | AtApproval | AtExecute | AtReport | Finished

  /** What a policy says to a plan: its effect, or nothing when the evaluation raises. */
  type Judge = (set<Role>, seq<Action>, Risk) -> Option<Effect>

  /** What the deployment fixes: the approval window, the plan digest, the optional policy, the optional executor. */
  datatype Config = Config(
    window: int,
    digest: seq<Action> -> string,
    policy: Option<Judge>,
    tools: Option<set<string>>,
    reply: Handlers)

  datatype RepairPlan = RepairPlan(risk: Risk, forced: bool)

  datatype RiskDecision = RiskDecision(risk: Risk, required: bool, deniedByPolicy: bool, digest: string, expiresAt: int)

  datatype Payload = Payload(decision: Option<Decision>, actor: string, digest: string, comment: Option<string>)

  datatype Approval = Approval(decision: Decision, actor: string, digest: string, comment: Option<string>, decidedAt: int)

  datatype ApprovalError = AlreadyDecided | NoRiskDecision | BadDecision | BlankActor | DigestMismatch | Expired | BlankComment

  /** The checkpointed state of one incident, from the end of the repair agent on. */
  datatype Incident = Incident(
    node: Node,
    plan: RepairPlan,
    actions: seq<Action>,
    risk: Option<RiskDecision>,
    approval: Option<Approval>,
    result: Option<ExecutionResult>)

  /** Where an audit or trace append fails during a node: never, before the node's own work, or after it. */
  datatype Fault = NoFault | FaultBefore | FaultAfter

  /** One node's run as its environment decides it. `roles` are those of the execution context when it holds the
      execution permission; `resume` is the human's answer, if there is one. An invocation of the graph runs several
      nodes under one set of roles; a graph that stopped between two nodes can be recovered under another. */
  datatype Turn = Turn(allowed: bool, roles: Option<set<Role>>, now: int, resume: Option<Payload>, fault: Fault)

  /** The incident, the handler calls made for it so far, and the roles under which its risk was checked. */
  datatype World = World(incident: Incident, calls: seq<Action>, checkedBy: Option<set<Role>>)

  // ---- risk and approval ----

  predicate Risky(plan: RepairPlan) {
    plan.risk == HighRisk || plan.risk == CriticalRisk || plan.forced
  }

  function EffectFor(c: Config, roles: Option<set<Role>>, actions: seq<Action>, risk: Risk): Option<Effect> {
    if c.policy.None? || roles.None? then None else c.policy.value(roles.value, actions, risk)
  }

  lemma EffectIsOneOf(c: Config, roles: Option<set<Role>>, actions: seq<Action>, risk: Risk)
    ensures EffectFor(c, roles, actions, risk) in {None, Some(Allow), Some(RequireApproval), Some(Deny)}
  {
    var effect := EffectFor(c, roles, actions, risk);
    if effect.Some? {
      match effect.value
      case Allow =>
      case RequireApproval =>
      case Deny =>
    }
  }

  /** There is no policy, or its evaluation does not raise. */
  predicate Judged(c: Config, roles: Option<set<Role>>, actions: seq<Action>, risk: Risk) {
    c.policy.None? || EffectFor(c, roles, actions, risk).Some?
  }

  function EvaluateRisk(c: Config, plan: RepairPlan, actions: seq<Action>, now: int): RiskDecision {
    RiskDecision(plan.risk, Risky(plan), false, c.digest(actions), now + c.window)
  }

  /** How a policy effect changes a risk decision. */
  function Adjusted(d: RiskDecision, effect: Effect): RiskDecision {
    match effect
    case Deny => d.(required := false, deniedByPolicy := true)
    case RequireApproval => d.(required := true)
    case Allow => d
  }

  function ValidateApproval(s: Incident, p: Payload, now: int): Result<Approval, ApprovalError> {
    if s.approval.Some? then Err(AlreadyDecided)
    else if s.risk.None? then Err(NoRiskDecision)
    else if p.decision.None? then Err(BadDecision)
    else if PyText.IsBlank(p.actor) then Err(BlankActor)
    else if p.digest != s.risk.value.digest then Err(DigestMismatch)
    else if p.decision.value == Approve && now > s.risk.value.expiresAt then Err(Expired)
    else if p.comment.Some? && PyText.IsBlank(p.comment.value) then Err(BlankComment)
    else Ok(Approval(p.decision.value, PyText.Strip(p.actor), p.digest,
                     if p.comment.Some? then Some(PyText.Strip(p.comment.value)) else None, now))
  }

  // ---- the nodes ----

  function RiskCheck(c: Config, w: World, t: Turn): World {
    var s := w.incident;
    if t.fault != NoFault || !Judged(c, t.roles, s.actions, s.plan.risk) then w
    else
      var plain := EvaluateRisk(c, s.plan, s.actions, t.now);
      var decision := if c.policy.None? then plain
                      else Adjusted(plain, EffectFor(c, t.roles, s.actions, s.plan.risk).value);
      w.(incident := s.(risk := Some(decision), node := if decision.required then AtApproval else AtExecute),
         checkedBy := t.roles)
  }

  function ApprovalNode(w: World, t: Turn): World {
    var s := w.incident;
    if t.fault != NoFault || t.resume.None? || !t.allowed then w
    else
      var answer := ValidateApproval(s, t.resume.value, t.now);
      if answer.Err? then w
      else w.(incident := s.(approval := Some(answer.value),
                             node := if answer.value.decision == Approve then AtExecute else AtReport))
  }

  predicate Approved(s: Incident) {
    s.approval.Some? && s.approval.value.decision == Approve
  }

  function BlockedBy(code: Code): ExecutionResult {
    ExecutionResult(Blocked, [], Some(code))
  }

  /** What the policy says at Execute: a blocking result, or nothing. */
  function PolicyBlock(c: Config, s: Incident, t: Turn): Option<ExecutionResult>
    requires s.risk.Some?
  {
    var effect := EffectFor(c, t.roles, s.actions, s.risk.value.risk);
    if effect == Some(Deny) then Some(BlockedBy(PolicyDenied))
    else if effect == Some(RequireApproval) && !Approved(s) then Some(BlockedBy(PolicyApprovalRequired))
    else None
  }

  predicate ExecuteStarts(c: Config, s: Incident, t: Turn) {
    t.fault != FaultBefore && t.allowed && s.risk.Some? && Judged(c, t.roles, s.actions, s.risk.value.risk)
  }

  function RefusalFor(c: Config, s: Incident): Option<ExecutionResult>
    requires s.risk.Some?
  {
    Refusal(if s.approval.Some? then Some(s.approval.value.decision) else None, s.risk.value.required, c.tools.Some?, s.actions)
  }

  /** Whether this turn gets as far as running the actions. */
  predicate RunsActions(c: Config, s: Incident, t: Turn) {
    && s.node == AtExecute && ExecuteStarts(c, s, t)
    && PolicyBlock(c, s, t).None? && RefusalFor(c, s).None?
  }

  function CallsOf(c: Config, w: World, t: Turn): seq<Action> {
    if RunsActions(c, w.incident, t) then Called(c.tools.value, c.reply, w.incident.actions, |w.calls|) else []
  }

  function ResultFor(c: Config, w: World, t: Turn): ExecutionResult
    requires ExecuteStarts(c, w.incident, t)
  {
    var block := PolicyBlock(c, w.incident, t);
    var refusal := RefusalFor(c, w.incident);
    if block.Some? then block.value
    else if refusal.Some? then refusal.value
    else ResultOf(Trail(c.tools.value, c.reply, w.incident.actions, |w.calls|))
  }

  /** A failing append after the actions loses the node's update but not the calls. */
  function ExecuteNode(c: Config, w: World, t: Turn): World {
    if !ExecuteStarts(c, w.incident, t) then w
    else
      var after := w.(calls := w.calls + CallsOf(c, w, t));
      if t.fault == FaultAfter then after
      else after.(incident := w.incident.(result := Some(ResultFor(c, w, t)), node := AtReport))
  }

  function Step(c: Config, w: World, t: Turn): World {
    match w.incident.node
    case AtRiskCheck => RiskCheck(c, w, t)
    case AtApproval => ApprovalNode(w, t)
    case AtExecute => ExecuteNode(c, w, t)
    case AtReport => if t.fault == NoFault then w.(incident := w.incident.(node := Finished)) else w
    case Finished => w
  }

  function Run(c: Config, w: World, turns: seq<Turn>): World
    decreases |turns|
  {
    if turns == [] then w else Run(c, Step(c, w, turns[0]), turns[1..])
  }

  predicate Start(w: World) {
    && w.incident.node == AtRiskCheck && w.incident.risk.None? && w.incident.approval.None?
    && w.incident.result.None? && w.calls == [] && w.checkedBy.None?
  }

  // ---- what every run keeps ----

  /** The risk decision on record is the one its roles, plan and policy give. */
  predicate RecordedRisk(c: Config, w: World) {
    && w.incident.risk.Some?
    && var s, d := w.incident, w.incident.risk.value;
       && d.risk == s.plan.risk && d.digest == c.digest(s.actions)
       && if c.policy.None? then d.required == Risky(s.plan) && !d.deniedByPolicy
          else
            var effect := EffectFor(c, w.checkedBy, s.actions, s.plan.risk);
            && effect.Some?
            && (d.deniedByPolicy <==> effect == Some(Deny))
            && (d.required <==> effect == Some(RequireApproval) || (effect == Some(Allow) && Risky(s.plan)))
  }

  /** The stored approval is bound to exactly these actions and, when it approves, was made in time. */
  predicate BoundApproval(c: Config, s: Incident) {
    && s.approval.Some? && s.risk.Some?
    && s.approval.value.digest == c.digest(s.actions)
    && (s.approval.value.decision == Approve ==> s.approval.value.decidedAt <= s.risk.value.expiresAt)
  }

  predicate Inv(c: Config, w: World) {
    var s := w.incident;
    match s.node
    case AtRiskCheck => s.risk.None? && s.approval.None? && w.calls == []
    case AtApproval => RecordedRisk(c, w) && s.risk.value.required && s.approval.None? && w.calls == []
    case AtExecute =>
      && RecordedRisk(c, w) && (s.approval.Some? ==> s.risk.value.required && BoundApproval(c, s) && Approved(s))
      && (s.approval.None? ==> !s.risk.value.required)
    case _ =>
      && RecordedRisk(c, w) && (s.approval.Some? ==> s.risk.value.required && BoundApproval(c, s))
      && (s.approval.Some? && !Approved(s) ==> w.calls == [])
  }

  lemma RiskCheckKeepsInv(c: Config, w: World, t: Turn)
    requires Inv(c, w) && w.incident.node == AtRiskCheck
    ensures Inv(c, RiskCheck(c, w, t))
  {
  }

  lemma ApprovalKeepsInv(c: Config, w: World, t: Turn)
    requires Inv(c, w) && w.incident.node == AtApproval
    ensures Inv(c, ApprovalNode(w, t))
  {
  }

  lemma ExecuteKeepsInv(c: Config, w: World, t: Turn)
    requires Inv(c, w) && w.incident.node == AtExecute
    ensures Inv(c, ExecuteNode(c, w, t))
  {
  }

  lemma StepKeepsInv(c: Config, w: World, t: Turn)
    requires Inv(c, w)
    ensures Inv(c, Step(c, w, t))
    ensures Step(c, w, t).incident.plan == w.incident.plan && Step(c, w, t).incident.actions == w.incident.actions
  {
    match w.incident.node
    case AtRiskCheck => RiskCheckKeepsInv(c, w, t);
    case AtApproval => ApprovalKeepsInv(c, w, t);
    case AtExecute => ExecuteKeepsInv(c, w, t);
    case _ =>
  }

  /** What every step keeps, every run keeps. */
  lemma {:induction false} RunKeeps(c: Config, w: World, turns: seq<Turn>, P: World -> bool)
    requires P(w) && forall v, t | P(v) :: P(Step(c, v, t))
    ensures P(Run(c, w, turns))
    decreases |turns|
  {
    if turns != [] {
      RunKeeps(c, Step(c, w, turns[0]), turns[1..], P);
    }
  }

  /** The invariant, for the plan and the actions an incident started with. */
  function Keeping(c: Config, start: World): World -> bool {
    v => Inv(c, v) && v.incident.plan == start.incident.plan && v.incident.actions == start.incident.actions
  }

  lemma RunKeepsInv(c: Config, w: World, turns: seq<Turn>)
    requires Inv(c, w)
    ensures Keeping(c, w)(Run(c, w, turns))
  {
    forall v, t | Keeping(c, w)(v)
      ensures Keeping(c, w)(Step(c, v, t))
    {
      StepKeepsInv(c, v, t);
    }
    RunKeeps(c, w, turns, Keeping(c, w));
  }

  lemma {:induction false} RunExtends(c: Config, w: World, turns: seq<Turn>, t: Turn)
    ensures Run(c, w, turns + [t]) == Step(c, Run(c, w, turns), t)
    decreases |turns|
  {
    if turns == [] {
      assert (turns + [t])[1..] == [];
    } else {
      assert (turns + [t])[1..] == turns[1..] + [t];
      RunExtends(c, Step(c, w, turns[0]), turns[1..], t);
    }
  }

  /** The conditions the approval gate is there for. */
  predicate Cleared(c: Config, s: Incident, t: Turn) {
    && t.allowed && s.risk.Some? && s.risk.value.digest == c.digest(s.actions)
    && (s.risk.value.required ==> Approved(s) && BoundApproval(c, s))
    && (c.policy.Some? ==>
          var effect := EffectFor(c, t.roles, s.actions, s.plan.risk);
          effect == Some(Allow) || (effect == Some(RequireApproval) && Approved(s) && BoundApproval(c, s)))
  }

  /** Safety of every run: a turn that calls a handler is at Execute and cleared, and what it calls is a prefix of
      exactly the actions the digest is of, all allowlisted. Nothing is ever taken back from the calls. */
  lemma OnlyClearedPlansRun(c: Config, start: World, turns: seq<Turn>, t: Turn)
    requires Start(start)
    ensures var w := Run(c, start, turns);
            var calls := CallsOf(c, w, t);
            && Run(c, start, turns + [t]).calls == w.calls + calls
            && calls <= start.incident.actions
            && (calls != [] ==> w.incident.node == AtExecute && w.incident.actions == start.incident.actions
                                && Cleared(c, w.incident, t))
            && (forall a | a in calls :: c.tools.Some? && a.tool in c.tools.value)
  {
    RunKeepsInv(c, start, turns);
    RunExtends(c, start, turns, t);
    var w := Run(c, start, turns);
    EffectIsOneOf(c, t.roles, w.incident.actions, w.incident.plan.risk);
    if RunsActions(c, w.incident, t) {
      CallsSucceedInOrder(c.tools.value, c.reply, w.incident.actions, |w.calls|);
    }
  }

  predicate Past(w: World) {
    w.incident.node == AtReport || w.incident.node == Finished
  }

  /** A rejected plan never reaches a handler. */
  lemma RejectionIsFinal(c: Config, start: World, turns: seq<Turn>, more: seq<Turn>)
    requires Start(start)
    requires var s := Run(c, start, turns).incident; s.approval.Some? && s.approval.value.decision == Reject
    ensures Run(c, Run(c, start, turns), more).calls == []
  {
    RunKeepsInv(c, start, turns);
    NothingRunsPastExecute(c, Run(c, start, turns), more);
  }

  lemma NothingRunsPastExecute(c: Config, w: World, more: seq<Turn>)
    requires Past(w)
    ensures var end := Run(c, w, more); Past(end) && (end.calls, end.incident.actions) == (w.calls, w.incident.actions)
  {
    RunKeeps(c, w, more, v => Past(v) && v.calls == w.calls && v.incident.actions == w.incident.actions);
  }

  // ---- how often actions are attempted ----

  /** Turns that call at least one handler. */
  function Attempts(c: Config, w: World, turns: seq<Turn>): nat
    decreases |turns|
  {
    if turns == [] then 0
    else (if CallsOf(c, w, turns[0]) != [] then 1 else 0) + Attempts(c, Step(c, w, turns[0]), turns[1..])
  }

  /** Those of them that lose their update to a failing append. */
  function LostAttempts(c: Config, w: World, turns: seq<Turn>): (n: nat)
    ensures (forall i | 0 <= i < |turns| :: turns[i].fault != FaultAfter) ==> n == 0
    decreases |turns|
  {
    if turns == [] then 0
    else (if CallsOf(c, w, turns[0]) != [] && turns[0].fault == FaultAfter then 1 else 0)
         + LostAttempts(c, Step(c, w, turns[0]), turns[1..])
  }

  /** Actions are attempted at most once more than attempts are lost. */
  lemma {:induction false} AttemptsAreLost(c: Config, w: World, turns: seq<Turn>)
    ensures Attempts(c, w, turns) <= LostAttempts(c, w, turns) + if Past(w) then 0 else 1
    decreases |turns|
  {
    if turns != [] {
      AttemptsAreLost(c, Step(c, w, turns[0]), turns[1..]);
    }
  }

  /** If no append fails after the work of a node, handlers are called in at most one turn of an incident, and
      the calls of the whole run are a prefix of the plan: no action runs twice. */
  lemma AtMostOnce(c: Config, start: World, turns: seq<Turn>)
    requires Start(start)
    requires forall i | 0 <= i < |turns| :: turns[i].fault != FaultAfter
    ensures Attempts(c, start, turns) <= 1
    ensures Run(c, start, turns).calls <= start.incident.actions
  {
    AttemptsAreLost(c, start, turns);
    CallsArePrefix(c, start, turns);
  }

  /** A turn that keeps its update calls nothing, or moves the incident past Execute. */
  lemma FirstCalls(c: Config, w: World, t: Turn)
    requires w.calls == [] && t.fault != FaultAfter
    ensures var next := Step(c, w, t);
            && next.incident.actions == w.incident.actions
            && next.calls <= w.incident.actions
            && (Past(next) || next.calls == [])
  {
  }

  lemma {:induction false} CallsArePrefix(c: Config, w: World, turns: seq<Turn>)
    requires w.calls == []
    requires forall i | 0 <= i < |turns| :: turns[i].fault != FaultAfter
    ensures Run(c, w, turns).calls <= w.incident.actions
    decreases |turns|
  {
    if turns != [] {
      var next := Step(c, w, turns[0]);
      FirstCalls(c, w, turns[0]);
      if Past(next) {
        NothingRunsPastExecute(c, next, turns[1..]);
      } else {
        CallsArePrefix(c, next, turns[1..]);
      }
    }
  }

  lemma LosingTheUpdate(c: Config, w: World, t: Turn)
    requires RunsActions(c, w.incident, t)
    ensures var lost := t.(fault := FaultAfter);
            RunsActions(c, w.incident, lost) && CallsOf(c, w, lost) == CallsOf(c, w, t)
    ensures Step(c, w, t.(fault := FaultAfter)) == w.(calls := w.calls + CallsOf(c, w, t))
    ensures Step(c, w, t).calls == w.calls + CallsOf(c, w, t)
  {
    var lost := t.(fault := FaultAfter);
    assert PolicyBlock(c, w.incident, lost) == PolicyBlock(c, w.incident, t);
  }

  /** The condition is needed: wherever a turn runs the actions, losing its update and running the node again
      makes the calls a second time. */
  lemma LostUpdateRepeats(c: Config, w: World, t: Turn)
    requires RunsActions(c, w.incident, t)
    ensures var once := Step(c, w, t.(fault := FaultAfter));
            && once == w.(calls := w.calls + CallsOf(c, w, t))
            && Step(c, once, t).calls == w.calls + CallsOf(c, w, t) + CallsOf(c, once, t)
            && (CallsOf(c, w, t) != [] ==> CallsOf(c, once, t) != [] && CallsOf(c, once, t)[0] == CallsOf(c, w, t)[0])
  {
    LosingTheUpdate(c, w, t);
    var once := Step(c, w, t.(fault := FaultAfter));
    LosingTheUpdate(c, once, t);
    CalledStarts(c.tools.value, c.reply, w.incident.actions, |w.calls|);
    CalledStarts(c.tools.value, c.reply, w.incident.actions, |once.calls|);
  }

  /** Attempts after a turn that calls handlers: none, unless its update was lost; then there can be another. */
  lemma OnceExactly(c: Config, w: World, t: Turn)
    requires CallsOf(c, w, t) != []
    ensures (forall turns :: Attempts(c, w, [t] + turns) <= 1) <==> t.fault != FaultAfter
  {
    if t.fault == FaultAfter {
      var again := t.(fault := NoFault);
      LostUpdateRepeats(c, w, again);
      assert t == again.(fault := FaultAfter) && CallsOf(c, w, again) == CallsOf(c, w, t);
      AttemptsOfTwo(c, w, t, again);
      assert Attempts(c, w, [t] + [again]) == 2;
    } else {
      forall turns
        ensures Attempts(c, w, [t] + turns) <= 1
      {
        AttemptsOfFirst(c, w, t, turns);
        NoMoreAttempts(c, Step(c, w, t), turns);
      }
    }
  }

  lemma AttemptsOfFirst(c: Config, w: World, t: Turn, turns: seq<Turn>)
    ensures Attempts(c, w, [t] + turns) == (if CallsOf(c, w, t) != [] then 1 else 0) + Attempts(c, Step(c, w, t), turns)
  {
    assert ([t] + turns)[0] == t && ([t] + turns)[1..] == turns;
  }

  lemma AttemptsOfTwo(c: Config, w: World, t: Turn, u: Turn)
    requires CallsOf(c, w, t) != [] && CallsOf(c, Step(c, w, t), u) != []
    ensures Attempts(c, w, [t] + [u]) == 2
  {
    AttemptsOfFirst(c, w, t, [u]);
    assert [u] == [u] + [];
    AttemptsOfFirst(c, Step(c, w, t), u, []);
  }

  lemma {:induction false} NoMoreAttempts(c: Config, w: World, turns: seq<Turn>)
    requires Past(w)
    ensures Attempts(c, w, turns) == 0
    decreases |turns|
  {
    if turns != [] {
      NoMoreAttempts(c, Step(c, w, turns[0]), turns[1..]);
    }
  }

  // ---- a plan that demands approval ----

  /** In every run, a plan that is high-risk, critical or forced runs without an approval only when a policy denied
      it at RiskCheck and allows it at Execute, which takes different roles at the two. */
  lemma UnapprovedRiskyRun(c: Config, start: World, turns: seq<Turn>, t: Turn)
    requires Start(start) && Risky(start.incident.plan)
    requires var w := Run(c, start, turns); RunsActions(c, w.incident, t) && !Approved(w.incident)
    ensures var w := Run(c, start, turns);
            && EffectFor(c, w.checkedBy, w.incident.actions, w.incident.plan.risk) == Some(Deny)
            && EffectFor(c, t.roles, w.incident.actions, w.incident.plan.risk) == Some(Allow)
            && w.checkedBy != t.roles
  {
    RunKeepsInv(c, start, turns);
    var w := Run(c, start, turns);
    EffectIsOneOf(c, w.checkedBy, w.incident.actions, w.incident.plan.risk);
    EffectIsOneOf(c, t.roles, w.incident.actions, w.incident.plan.risk);
  }

  /** And that is exactly when it happens: for turns that nothing else stops, RiskCheck followed by Execute runs a
      risky plan without any approval if and only if the policy denies it first and allows it then. */
  lemma RiskyRunIsExact(c: Config, w: World, check: Turn, execute: Turn)
    requires Start(w) && Risky(w.incident.plan) && c.tools.Some? && w.incident.actions != []
    requires check.fault == NoFault && execute.fault == NoFault && execute.allowed
    requires Judged(c, check.roles, w.incident.actions, w.incident.plan.risk)
    ensures RunsActions(c, Step(c, w, check).incident, execute) <==>
            && EffectFor(c, check.roles, w.incident.actions, w.incident.plan.risk) == Some(Deny)
            && EffectFor(c, execute.roles, w.incident.actions, w.incident.plan.risk) == Some(Allow)
  {
    EffectIsOneOf(c, check.roles, w.incident.actions, w.incident.plan.risk);
    EffectIsOneOf(c, execute.roles, w.incident.actions, w.incident.plan.risk);
  }

  lemma {:induction false} CheckedByATurn(c: Config, w: World, turns: seq<Turn>, roles: Option<set<Role>>)
    requires w.checkedBy.None? || w.checkedBy == roles
    requires forall i | 0 <= i < |turns| :: turns[i].roles == roles
    ensures var checkedBy := Run(c, w, turns).checkedBy; checkedBy.None? || checkedBy == roles
    decreases |turns|
  {
    if turns != [] {
      CheckedByATurn(c, Step(c, w, turns[0]), turns[1..], roles);
    }
  }

  /** So within one invocation, whose turns all have the same roles, no risky plan runs without an approval. */
  lemma SameRolesNeedApproval(c: Config, start: World, turns: seq<Turn>, t: Turn)
    requires Start(start) && Risky(start.incident.plan)
    requires forall i | 0 <= i < |turns| :: turns[i].roles == t.roles
    ensures var s := Run(c, start, turns).incident; RunsActions(c, s, t) ==> Approved(s)
  {
    CheckedByATurn(c, start, turns, t.roles);
    var w := Run(c, start, turns);
    if RunsActions(c, w.incident, t) && !Approved(w.incident) {
      UnapprovedRiskyRun(c, start, turns, t);
      assert false;
    }
  }
}
