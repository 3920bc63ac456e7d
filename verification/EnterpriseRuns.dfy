/** What the runs of the enterprise graph mean to the people around it: whose answer an approval is, when a plan runs,
    and what the report says about it. */
module EnterpriseRuns {
  import opened Outcomes
  import PyText
  import opened Policy
  import opened PolicyPlan
  import opened Execution
  import opened Enterprise

  // ---- the risk decision ----

  /** RiskCheck moves on exactly when nothing fails and the policy, if there is one, can judge the plan. It asks for
      approval when the policy requires it, and otherwise for high-risk, critical and forced plans that the policy does
      not deny. The decision is dated by the turn. */
  lemma RiskCheckExactly(c: Config, w: World, t: Turn)
    requires w.incident.node == AtRiskCheck
    ensures var next := Step(c, w, t);
            var plan, effect := w.incident.plan, EffectFor(c, t.roles, w.incident.actions, w.incident.plan.risk);
            var asked := effect == Some(RequireApproval)
                         || (effect != Some(Deny) && (plan.risk == HighRisk || plan.risk == CriticalRisk || plan.forced));
            if t.fault == NoFault && (c.policy.None? || effect.Some?) then
              next == w.(incident := w.incident.(
                           risk := Some(RiskDecision(plan.risk, asked, effect == Some(Deny), c.digest(w.incident.actions), t.now + c.window)),
                           node := if asked then AtApproval else AtExecute),
                         checkedBy := t.roles)
            else next == w
  {
    EffectIsOneOf(c, t.roles, w.incident.actions, w.incident.plan.risk);
  }

  // ---- the human's answer ----

  /** A text is stored without surrounding white space. */
  predicate StoredText(given: Option<string>, stored: Option<string>) {
    if given.None? then stored.None? else stored == Some(PyText.Strip(given.value)) && stored.value != ""
  }

  /** Turn `k` of a run resumed the approval node with the answer that `a` stores. */
  ghost predicate AnsweredAt(c: Config, start: World, turns: seq<Turn>, k: nat, a: Approval) {
    && k < |turns| && Run(c, start, turns[..k]).incident.node == AtApproval
    && turns[k].allowed && turns[k].resume.Some?
    && var p := turns[k].resume.value;
       && p.decision == Some(a.decision) && p.digest == a.digest && turns[k].now == a.decidedAt
       && StoredText(Some(p.actor), Some(a.actor)) && StoredText(p.comment, a.comment)
  }

  lemma AnswerStored(c: Config, w: World, t: Turn)
    requires w.incident.node == AtApproval && Step(c, w, t).incident.approval != w.incident.approval
    ensures var a := Step(c, w, t).incident.approval;
            && t.allowed && t.resume.Some? && a.Some?
            && var p := t.resume.value;
               && p.decision == Some(a.value.decision) && p.digest == a.value.digest && t.now == a.value.decidedAt
               && StoredText(Some(p.actor), Some(a.value.actor)) && StoredText(p.comment, a.value.comment)
  {
  }

  lemma OnlyApprovalStores(c: Config, w: World, t: Turn)
    requires Inv(c, w) && Step(c, w, t).incident.approval != w.incident.approval
    ensures w.incident.node == AtApproval && w.incident.approval.None?
  {
  }

  lemma LongerRun(c: Config, start: World, turns: seq<Turn>, k: nat, a: Approval)
    requires turns != [] && AnsweredAt(c, start, turns[..|turns| - 1], k, a)
    ensures AnsweredAt(c, start, turns, k, a)
  {
    assert turns[..|turns| - 1][..k] == turns[..k];
  }

  lemma LastTurn(c: Config, start: World, turns: seq<Turn>)
    requires turns != []
    ensures var n := |turns| - 1; Run(c, start, turns) == Step(c, Run(c, start, turns[..n]), turns[n])
  {
    var n := |turns| - 1;
    assert turns == turns[..n] + [turns[n]];
    RunExtends(c, start, turns[..n], turns[n]);
  }

  /** A stored approval or rejection is the answer that some turn of the run gave at the approval node: its decision,
      its digest, its stripped actor and comment, and its time. */
  lemma {:induction false} StoredAnswerWasGiven(c: Config, start: World, turns: seq<Turn>)
    requires Start(start)
    ensures var a := Run(c, start, turns).incident.approval;
            a.Some? ==> exists k :: AnsweredAt(c, start, turns, k, a.value)
    decreases |turns|
  {
    if turns != [] && Run(c, start, turns).incident.approval.Some? {
      var n := |turns| - 1;
      var before, a := Run(c, start, turns[..n]), Run(c, start, turns).incident.approval;
      LastTurn(c, start, turns);
      RunKeepsInv(c, start, turns[..n]);
      if before.incident.approval == a {
        StoredAnswerWasGiven(c, start, turns[..n]);
        var k :| AnsweredAt(c, start, turns[..n], k, a.value);
        LongerRun(c, start, turns, k, a.value);
      } else {
        OnlyApprovalStores(c, before, turns[n]);
        AnswerStored(c, before, turns[n]);
        assert AnsweredAt(c, start, turns, n, a.value);
      }
    }
  }

  /** Turn `j` of a run checked the risk that the run still has on record. */
  ghost predicate CheckedAt(c: Config, start: World, turns: seq<Turn>, j: nat, d: RiskDecision) {
    && j < |turns| && Run(c, start, turns[..j]).incident.node == AtRiskCheck
    && d.expiresAt == turns[j].now + c.window
  }

  lemma LongerCheck(c: Config, start: World, turns: seq<Turn>, n: nat, j: nat, d: RiskDecision)
    requires n <= |turns| && CheckedAt(c, start, turns[..n], j, d)
    ensures CheckedAt(c, start, turns, j, d)
  {
    assert turns[..n][..j] == turns[..j];
  }

  lemma {:induction false} RiskWasChecked(c: Config, start: World, turns: seq<Turn>)
    requires Start(start)
    ensures var d := Run(c, start, turns).incident.risk;
            d.Some? ==> exists j :: CheckedAt(c, start, turns, j, d.value)
    decreases |turns|
  {
    if turns != [] && Run(c, start, turns).incident.risk.Some? {
      var n := |turns| - 1;
      var before, d := Run(c, start, turns[..n]), Run(c, start, turns).incident.risk;
      LastTurn(c, start, turns);
      if before.incident.node == AtRiskCheck && d != before.incident.risk {
        assert CheckedAt(c, start, turns, n, d.value);
      } else {
        RiskWasChecked(c, start, turns[..n]);
        var j :| CheckedAt(c, start, turns[..n], j, d.value);
        LongerCheck(c, start, turns, n, j, d.value);
      }
    }
  }

  /** Turn `k` approved the plan within the window of the check at turn `j`. */
  ghost predicate ConsentAt(c: Config, start: World, turns: seq<Turn>, j: nat, k: nat) {
    && k < |turns| && j < |turns| && turns[k].allowed && turns[k].resume.Some?
    && Run(c, start, turns[..j]).incident.node == AtRiskCheck && Run(c, start, turns[..k]).incident.node == AtApproval
    && turns[k].resume.value.decision == Some(Approve) && turns[k].resume.value.digest == c.digest(start.incident.actions)
    && turns[k].now <= turns[j].now + c.window
  }

  /** No handler of a plan that asked for approval is called unless a permitted person approved exactly these actions
      in time. */
  lemma CallsHaveConsent(c: Config, start: World, turns: seq<Turn>, t: Turn)
    requires Start(start)
    requires var w := Run(c, start, turns); CallsOf(c, w, t) != [] && w.incident.risk.Some? && w.incident.risk.value.required
    ensures exists j, k :: ConsentAt(c, start, turns, j, k)
  {
    var w := Run(c, start, turns);
    OnlyClearedPlansRun(c, start, turns, t);
    StoredAnswerWasGiven(c, start, turns);
    RiskWasChecked(c, start, turns);
    var a, d := w.incident.approval.value, w.incident.risk.value;
    var k :| AnsweredAt(c, start, turns, k, a);
    var j :| CheckedAt(c, start, turns, j, d);
    assert ConsentAt(c, start, turns, j, k);
  }

  /** Which answers are accepted, and where they lead. */
  lemma AnswersExactly(c: Config, w: World, t: Turn)
    requires Inv(c, w) && w.incident.node == AtApproval
    ensures var next := Step(c, w, t).incident.node;
            var accepted := && t.fault == NoFault && t.allowed && t.resume.Some?
                            && var p := t.resume.value;
                               && p.decision.Some? && !PyText.IsBlank(p.actor) && p.digest == c.digest(w.incident.actions)
                               && (p.comment.Some? ==> !PyText.IsBlank(p.comment.value))
                               && (p.decision == Some(Approve) ==> t.now <= w.incident.risk.value.expiresAt);
            if accepted then next == if t.resume.value.decision == Some(Approve) then AtExecute else AtReport
            else Step(c, w, t) == w
  {
  }

  /** A rejection that is accepted ends the plan: it goes to the report, and no continuation calls a handler. */
  lemma RejectingEndsThePlan(c: Config, start: World, turns: seq<Turn>, t: Turn, more: seq<Turn>)
    requires Start(start) && t.resume.Some? && t.resume.value.decision == Some(Reject)
    requires var w := Run(c, start, turns); w.incident.node == AtApproval && Step(c, w, t) != w
    ensures var rejected := Step(c, Run(c, start, turns), t);
            && rejected.incident.node == AtReport && Run(c, rejected, more).calls == []
            && Run(c, rejected, more).incident.result.None?
  {
    var w := Run(c, start, turns);
    RunKeepsInv(c, start, turns);
    NoResultYet(c, start, turns);
    AnswersExactly(c, w, t);
    NothingRunsPastExecute(c, Step(c, w, t), more);
    ReportStays(c, Step(c, w, t), more);
  }

  predicate ResultOnlyAtReport(w: World) {
    Past(w) || w.incident.result.None?
  }

  lemma NoResultYet(c: Config, start: World, turns: seq<Turn>)
    requires Start(start)
    ensures ResultOnlyAtReport(Run(c, start, turns))
  {
    RunKeeps(c, start, turns, ResultOnlyAtReport);
  }

  lemma {:induction false} ReportStays(c: Config, w: World, more: seq<Turn>)
    requires Past(w)
    ensures Run(c, w, more).incident.result == w.incident.result
    decreases |more|
  {
    if more != [] {
      ReportStays(c, Step(c, w, more[0]), more[1..]);
    }
  }

  // ---- when a plan runs, and what is reported ----

  /** At Execute a plan runs exactly when the turn is allowed and does not fail first, the policy allows it or requires
      an approval that is there, and there is an executor and something to execute. */
  lemma RunsExactly(c: Config, start: World, turns: seq<Turn>, t: Turn)
    requires Start(start) && Run(c, start, turns).incident.node == AtExecute
    ensures var s := Run(c, start, turns).incident;
            var effect := EffectFor(c, t.roles, s.actions, s.plan.risk);
            RunsActions(c, s, t) <==>
              && t.fault != FaultBefore && t.allowed && c.tools.Some? && s.actions != []
              && (c.policy.None? || effect == Some(Allow)
                  || (effect == Some(RequireApproval) && s.approval.Some? && s.approval.value.decision == Approve))
  {
    RunKeepsInv(c, start, turns);
    var s := Run(c, start, turns).incident;
    EffectIsOneOf(c, t.roles, s.actions, s.plan.risk);
  }

  /** The plan was stopped before its first action, for this reason. */
  function StoppedFor(c: Config, s: Incident, effect: Option<Effect>): Option<Code> {
    if effect == Some(Deny) then Some(PolicyDenied)
    else if effect == Some(RequireApproval) && s.approval.None? then Some(PolicyApprovalRequired)
    else if c.tools.None? then Some(ExecutorNotConfigured)
    else if s.actions == [] then Some(NoExecutableActions)
    else None
  }

  /** The results that the report lists say of each attempted action, in the order of the plan, whether its handler was
      called and succeeded. */
  predicate Reports(c: Config, actions: seq<Action>, past: nat, results: seq<ActionResult>)
    requires c.tools.Some?
  {
    && 0 < |results| <= |actions|
    && (forall i | 0 <= i < |results| :: results[i].id == actions[i].id)
    && (forall i | 0 <= i < |results| ::
          results[i].succeeded <==> actions[i].tool in c.tools.value && c.reply(actions[i], past + i) == Succeeds)
    && (forall i | 0 <= i < |results| - 1 :: results[i].succeeded)
    && (|results| < |actions| ==> !results[|results| - 1].succeeded)
  }

  lemma TrailReports(c: Config, actions: seq<Action>, past: nat)
    requires c.tools.Some? && actions != []
    ensures Reports(c, actions, past, Trail(c.tools.value, c.reply, actions, past))
  {
    var trail := Trail(c.tools.value, c.reply, actions, past);
    forall i: nat | i + 1 < |trail|
      ensures trail[i].succeeded
    {
      AttemptedStops(c.tools.value, c.reply, actions, 0, past, i);
    }
    AttemptedStops(c.tools.value, c.reply, actions, 0, past, 0);
  }

  /** A success exactly when every action is listed as succeeded. */
  predicate Honest(actions: seq<Action>, r: ExecutionResult) {
    var all := |r.actions| == |actions| && forall i | 0 <= i < |r.actions| :: r.actions[i].succeeded;
    if all then r.status == Succeeded && r.code.None? else r.status == Failed && r.code == Some(ActionExecutionFailed)
  }

  /** A result that says what a turn at Execute did: why nothing was attempted, or how each attempt came out. */
  predicate SaysWhatHappened(c: Config, w: World, t: Turn, result: Option<ExecutionResult>) {
    && result.Some?
    && var stop := StoppedFor(c, w.incident, EffectFor(c, t.roles, w.incident.actions, w.incident.plan.risk));
       if stop.Some? then result == Some(ExecutionResult(Blocked, [], stop))
       else c.tools.Some? && Reports(c, w.incident.actions, |w.calls|, result.value.actions) && Honest(w.incident.actions, result.value)
  }

  lemma RanThrough(c: Config, w: World)
    requires c.tools.Some? && w.incident.actions != []
    ensures var trail := Trail(c.tools.value, c.reply, w.incident.actions, |w.calls|);
            Reports(c, w.incident.actions, |w.calls|, trail) && Honest(w.incident.actions, ResultOf(trail))
  {
    TrailReports(c, w.incident.actions, |w.calls|);
  }

  lemma ExecuteReports(c: Config, w: World, t: Turn)
    requires Inv(c, w) && w.incident.node == AtExecute && Step(c, w, t).incident.node != AtExecute
    ensures SaysWhatHappened(c, w, t, Step(c, w, t).incident.result)
  {
    EffectIsOneOf(c, t.roles, w.incident.actions, w.incident.plan.risk);
    if c.tools.Some? && w.incident.actions != [] {
      RanThrough(c, w);
    }
  }

  /** The report of every turn that gets through Execute says what happened, and no later turn changes it. */
  lemma ReportSaysWhatHappened(c: Config, start: World, turns: seq<Turn>, t: Turn, more: seq<Turn>)
    requires Start(start)
    requires var w := Run(c, start, turns); w.incident.node == AtExecute && Step(c, w, t).incident.node != AtExecute
    ensures var w := Run(c, start, turns); SaysWhatHappened(c, w, t, Run(c, Step(c, w, t), more).incident.result)
  {
    var w := Run(c, start, turns);
    RunKeepsInv(c, start, turns);
    ExecuteReports(c, w, t);
    ReportStays(c, Step(c, w, t), more);
  }
}
