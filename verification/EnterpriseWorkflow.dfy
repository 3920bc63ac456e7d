/** The enterprise graph as the object that runs it: its nodes change the incident and call handlers in order, and
    each invocation is one step of the machine in `Enterprise`. */
module EnterpriseGraph {
  import opened Outcomes
  import opened Policy
  import opened PolicyPlan
  import opened Execution
  import opened Enterprise

  datatype NodeError = AppendFailed | NotAuthorized | PlanNotEvaluable(error: PlanError) | Waiting
                     | Unapproved(reason: ApprovalError)

  /** A policy that is the evaluation of plans against a registry. */
  ghost predicate Decides(registry: Registry, judge: Judge) {
    forall roles, actions, risk :: judge(roles, actions, risk) == PlanEffect(registry, roles, actions, risk)
  }

  class EnterpriseWorkflow {
    const config: Config
    const registry: Option<Registry>
    const executor: AllowlistedExecutor?
    var incident: Incident
    ghost var checkedBy: Option<set<Role>>

    ghost predicate Valid()
      reads this
    {
      && (registry == None <==> config.policy.None?)
      && (registry != None ==> Decides(registry.value, config.policy.value))
      && (executor == null <==> config.tools.None?)
      && (executor != null ==> config.tools == Some(executor.tools) && config.reply == executor.reply)
    }

    ghost function Value(): World
      reads this, executor
    {
      World(incident, if executor == null then [] else executor.calls, checkedBy)
    }

    constructor (config: Config, registry: Option<Registry>, executor: AllowlistedExecutor?, plan: RepairPlan, actions: seq<Action>)
      requires registry == None <==> config.policy.None?
      requires registry != None ==> Decides(registry.value, config.policy.value)
      requires executor == null <==> config.tools.None?
      requires executor != null ==> config.tools == Some(executor.tools) && config.reply == executor.reply && executor.calls == []
      ensures Valid() && Start(Value()) && this.config == config && this.executor == executor
      ensures incident.plan == plan && incident.actions == actions
    {
      this.config, this.registry, this.executor := config, registry, executor;
      incident, checkedBy := Incident(AtRiskCheck, plan, actions, None, None, None), None;
    }

    /** The effect of the plan under the execution context's roles. */
    method Judge(t: Turn, risk: Risk) returns (r: Result<Effect, NodeError>)
      requires Valid() && registry.Some?
      ensures r.Ok? <==> Judged(config, t.roles, incident.actions, risk)
      ensures r.Ok? ==> EffectFor(config, t.roles, incident.actions, risk) == Some(r.value)
    {
      if t.roles.None? || t.roles.value == {} {
        return Err(NotAuthorized);
      }
      var effect := EvaluatePlan(registry.value, t.roles.value, incident.actions, risk);
      return if effect.Ok? then Ok(effect.value) else Err(PlanNotEvaluable(effect.error));
    }

    method CheckRisk(t: Turn) returns (r: Result<Node, NodeError>)
      requires Valid() && incident.node == AtRiskCheck
      modifies this
      ensures Valid() && Value() == Step(config, old(Value()), t)
      ensures r.Ok? <==> incident.node != AtRiskCheck
      ensures r.Ok? ==> r.value == incident.node
    {
      var decision := EvaluateRisk(config, incident.plan, incident.actions, t.now);
      if registry.Some? {
        var effect :- Judge(t, decision.risk);
        decision := Adjusted(decision, effect);
      }
      if t.fault != NoFault {
        return Err(AppendFailed);
      }
      incident := incident.(risk := Some(decision), node := if decision.required then AtApproval else AtExecute);
      checkedBy := t.roles;
      return Ok(incident.node);
    }

    method AwaitApproval(t: Turn) returns (r: Result<Node, NodeError>)
      requires Valid() && incident.node == AtApproval
      modifies this
      ensures Valid() && Value() == Step(config, old(Value()), t)
      ensures r.Ok? <==> incident.node != AtApproval
      ensures r.Ok? ==> r.value == incident.node
      ensures t.fault != FaultBefore ==> (r == Err(Waiting) <==> t.resume.None?)
      ensures t.fault != FaultBefore && t.resume.Some? ==> (r == Err(NotAuthorized) <==> !t.allowed)
    {
      if t.fault == FaultBefore {
        return Err(AppendFailed);
      }
      if t.resume.None? {
        return Err(Waiting);
      }
      if !t.allowed {
        return Err(NotAuthorized);
      }
      var answer := ValidateApproval(incident, t.resume.value, t.now);
      if answer.Err? {
        return Err(Unapproved(answer.error));
      }
      if t.fault == FaultAfter {
        return Err(AppendFailed);
      }
      incident := incident.(approval := Some(answer.value),
                            node := if answer.value.decision == Approve then AtExecute else AtReport);
      return Ok(incident.node);
    }

    /** The policy's blocking result, if it has one. */
    method CheckPolicy(t: Turn) returns (r: Result<Option<ExecutionResult>, NodeError>)
      requires Valid() && incident.risk.Some?
      ensures r.Ok? <==> Judged(config, t.roles, incident.actions, incident.risk.value.risk)
      ensures r.Ok? ==> r.value == PolicyBlock(config, incident, t)
    {
      if registry.None? {
        return Ok(None);
      }
      var effect :- Judge(t, incident.risk.value.risk);
      if effect == Deny {
        return Ok(Some(BlockedBy(PolicyDenied)));
      }
      if effect == RequireApproval && !Approved(incident) {
        return Ok(Some(BlockedBy(PolicyApprovalRequired)));
      }
      return Ok(None);
    }

    method RunPlan() returns (r: ExecutionResult)
      requires Valid() && incident.risk.Some?
      modifies executor
      ensures var refusal := RefusalFor(config, incident);
              && (refusal.Some? ==> r == refusal.value && Value() == old(Value()))
              && (refusal.None? ==>
                    && r == ResultOf(Trail(config.tools.value, config.reply, incident.actions, |old(Value()).calls|))
                    && Value().calls == old(Value()).calls
                                        + Called(config.tools.value, config.reply, incident.actions, |old(Value()).calls|))
    {
      var decision := if incident.approval.Some? then Some(incident.approval.value.decision) else None;
      r := ExecuteActions(decision, incident.risk.value.required, executor, incident.actions);
    }

    method Execute(t: Turn) returns (r: Result<Node, NodeError>)
      requires Valid() && incident.node == AtExecute && incident.risk.Some?
      modifies this, executor
      ensures Valid() && Value() == Step(config, old(Value()), t)
      ensures r.Ok? <==> incident.node != AtExecute
      ensures r.Ok? ==> r.value == incident.node
      ensures t.fault != FaultBefore ==> (!t.allowed ==> r == Err(NotAuthorized))
    {
      if t.fault == FaultBefore {
        return Err(AppendFailed);
      }
      if !t.allowed {
        return Err(NotAuthorized);
      }
      var block :- CheckPolicy(t);
      var result;
      if block.Some? {
        result := block.value;
      } else {
        result := RunPlan();
      }
      if t.fault == FaultAfter {
        return Err(AppendFailed);
      }
      incident := incident.(result := Some(result), node := AtReport);
      return Ok(AtReport);
    }
  }
}
