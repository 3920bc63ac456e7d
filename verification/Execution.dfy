/** Running a repair plan action by action through allowlisted handlers. */
module Execution {
  import opened Outcomes
  import PyText
  import opened PolicyPlan

  /** What a handler does: it reports success or failure, or it raises or returns something unusable. */
  datatype Reply = Succeeds | Fails | Breaks

  /** The environment's answer to a handler call, given how many handler calls were made before it. */
  type Handlers = (Action, nat) -> Reply

  datatype ActionResult = ActionResult(id: string, succeeded: bool)

  datatype Status = Succeeded | Failed | NotExecuted | Blocked

  datatype Code = ApprovalRejected | ApprovalRequired | ExecutorNotConfigured | NoExecutableActions
                | ActionExecutionFailed | PolicyDenied | PolicyApprovalRequired

  datatype ExecutionResult = ExecutionResult(status: Status, actions: seq<ActionResult>, code: Option<Code>)

  datatype HandlerError = NotAllowlisted | HandlerBroke

  datatype Decision = Approve | Reject

  // ---- what a run of the actions does ----

  predicate Works(tools: set<string>, reply: Handlers, a: Action, past: nat) {
    a.tool in tools && reply(a, past) == Succeeds
  }

  /** How many actions are attempted, from the one at `i` on: up to and including the first that does not succeed. */
  function Attempted(tools: set<string>, reply: Handlers, actions: seq<Action>, i: nat, past: nat): (n: nat)
    requires i <= |actions|
    ensures i + n <= |actions| && (n == 0 <==> i == |actions|)
    decreases |actions| - i
  {
    if i == |actions| then 0
    else if Works(tools, reply, actions[i], past) then 1 + Attempted(tools, reply, actions, i + 1, past + 1)
    else 1
  }

  /** The results of those attempts. */
  function Trail(tools: set<string>, reply: Handlers, actions: seq<Action>, past: nat): (trail: seq<ActionResult>)
    ensures |trail| <= |actions| && (trail == [] <==> actions == [])
  {
    var n := Attempted(tools, reply, actions, 0, past);
    seq(n, i requires 0 <= i < n => ActionResult(actions[i].id, Works(tools, reply, actions[i], past + i)))
  }

  /** The handler calls among them: a last action without a handler is refused without a call. */
  function Called(tools: set<string>, reply: Handlers, actions: seq<Action>, past: nat): (called: seq<Action>)
    ensures called <= actions
  {
    var n := Attempted(tools, reply, actions, 0, past);
    if n > 0 && actions[n - 1].tool !in tools then actions[..n - 1] else actions[..n]
  }

  function ResultOf(trail: seq<ActionResult>): ExecutionResult
    requires trail != []
  {
    if trail[|trail| - 1].succeeded then ExecutionResult(Succeeded, trail, None)
    else ExecutionResult(Failed, trail, Some(ActionExecutionFailed))
  }

  /** Nothing is attempted after the first action that does not succeed, and nothing is left out before it. */
  lemma {:induction false} AttemptedStops(tools: set<string>, reply: Handlers, actions: seq<Action>, i: nat, past: nat, k: nat)
    requires i <= |actions|
    ensures var n := Attempted(tools, reply, actions, i, past);
            && (k + 1 < n ==> Works(tools, reply, actions[i + k], past + k))
            && (n > 0 && i + n < |actions| ==> !Works(tools, reply, actions[i + n - 1], past + n - 1))
    decreases |actions| - i
  {
    if i < |actions| && Works(tools, reply, actions[i], past) {
      AttemptedStops(tools, reply, actions, i + 1, past + 1, if k == 0 then 0 else k - 1);
    }
  }

  /** The calls are a prefix of the plan, all to allowlisted handlers, and each call but the last succeeded. */
  lemma CallsSucceedInOrder(tools: set<string>, reply: Handlers, actions: seq<Action>, past: nat)
    ensures var called := Called(tools, reply, actions, past);
            && (forall i | 0 <= i < |called| :: actions[i].tool in tools)
            && (forall i | 0 <= i < |called| - 1 :: reply(actions[i], past + i) == Succeeds)
            && (|called| < |actions| ==>
                  || actions[|called|].tool !in tools
                  || (called != [] && reply(actions[|called| - 1], past + |called| - 1) != Succeeds))
  {
    var n := Attempted(tools, reply, actions, 0, past);
    AttemptedStops(tools, reply, actions, 0, past, 0);
    forall i: nat | i + 1 < n
      ensures Works(tools, reply, actions[i], past + i)
    {
      AttemptedStops(tools, reply, actions, 0, past, i);
    }
  }

  /** The plan counts as executed exactly when every action's handler was called and succeeded. */
  lemma SucceedsWhenAllDo(tools: set<string>, reply: Handlers, actions: seq<Action>, past: nat)
    requires actions != []
    ensures ResultOf(Trail(tools, reply, actions, past)).status == Succeeded <==>
            forall i | 0 <= i < |actions| :: Works(tools, reply, actions[i], past + i)
  {
    var n := Attempted(tools, reply, actions, 0, past);
    AttemptedStops(tools, reply, actions, 0, past, 0);
    forall i: nat | i + 1 < n
      ensures Works(tools, reply, actions[i], past + i)
    {
      AttemptedStops(tools, reply, actions, 0, past, i);
    }
  }

  lemma {:induction false} AttemptedUpTo(tools: set<string>, reply: Handlers, actions: seq<Action>, i: nat, past: nat, k: nat)
    requires i <= k <= |actions|
    requires forall j | i <= j < k :: Works(tools, reply, actions[j], past + j - i)
    ensures Attempted(tools, reply, actions, i, past) ==
            k - i + if k < |actions| && !Works(tools, reply, actions[k], past + k - i) then 1
                    else Attempted(tools, reply, actions, k, past + k - i)
    decreases k - i
  {
    if i < k {
      assert Works(tools, reply, actions[i], past + i - i);
      AttemptedUpTo(tools, reply, actions, i + 1, past + 1, k);
    }
  }

  lemma StoppedAt(tools: set<string>, reply: Handlers, actions: seq<Action>, past: nat, i: nat, results: seq<ActionResult>)
    requires i < |actions| && |results| == i + 1
    requires forall k | 0 <= k < i :: Works(tools, reply, actions[k], past + k)
    requires forall k | 0 <= k < i :: results[k] == ActionResult(actions[k].id, true)
    requires results[i] == ActionResult(actions[i].id, false) && !Works(tools, reply, actions[i], past + i)
    ensures Trail(tools, reply, actions, past) == results
    ensures Called(tools, reply, actions, past) == if actions[i].tool in tools then actions[..i + 1] else actions[..i]
  {
    AttemptedUpTo(tools, reply, actions, 0, past, i);
  }

  lemma CompletedAll(tools: set<string>, reply: Handlers, actions: seq<Action>, past: nat, results: seq<ActionResult>)
    requires actions != [] && |results| == |actions|
    requires forall k | 0 <= k < |actions| :: Works(tools, reply, actions[k], past + k)
    requires forall k | 0 <= k < |actions| :: results[k] == ActionResult(actions[k].id, true)
    ensures Trail(tools, reply, actions, past) == results
    ensures Called(tools, reply, actions, past) == actions[..|actions|]
  {
    AttemptedUpTo(tools, reply, actions, 0, past, |actions|);
    var last := |actions| - 1;
    assert Works(tools, reply, actions[last], past + last);
  }

  /** A handler is called exactly when the first action has one. */
  lemma CalledStarts(tools: set<string>, reply: Handlers, actions: seq<Action>, past: nat)
    requires actions != []
    ensures Called(tools, reply, actions, past) != [] <==> actions[0].tool in tools
  {
    AttemptedStops(tools, reply, actions, 0, past, 0);
  }

  // ---- the checks before the first action ----

  function Refusal(approval: Option<Decision>, required: bool, configured: bool, actions: seq<Action>): Option<ExecutionResult> {
    if approval == Some(Reject) then Some(ExecutionResult(NotExecuted, [], Some(ApprovalRejected)))
    else if required && approval != Some(Approve) then Some(ExecutionResult(NotExecuted, [], Some(ApprovalRequired)))
    else if !configured then Some(ExecutionResult(Blocked, [], Some(ExecutorNotConfigured)))
    else if actions == [] then Some(ExecutionResult(Blocked, [], Some(NoExecutableActions)))
    else None
  }

  class AllowlistedExecutor {
    const tools: set<string>
    const reply: Handlers
    /** Every handler call ever made; a handler's effects on devices are never undone. */
    var calls: seq<Action>

    constructor (tools: set<string>, reply: Handlers)
      ensures this.tools == tools && this.reply == reply && calls == []
    {
      this.tools, this.reply, calls := tools, reply, [];
    }

    method Execute(a: Action) returns (r: Result<ActionResult, HandlerError>)
      modifies this
      ensures calls == old(calls) + if a.tool in tools then [a] else []
      ensures r == if a.tool !in tools then Err(NotAllowlisted)
                   else if reply(a, |old(calls)|) == Breaks then Err(HandlerBroke)
                   else Ok(ActionResult(a.id, reply(a, |old(calls)|) == Succeeds))
    {
      if a.tool !in tools {
        return Err(NotAllowlisted);
      }
      var answer := reply(a, |calls|);
      calls := calls + [a];
      if answer == Breaks {
        return Err(HandlerBroke);
      }
      return Ok(ActionResult(a.id, answer == Succeeds));
    }

    method ExecuteAll(actions: seq<Action>) returns (r: ExecutionResult)
      requires actions != []
      modifies this
      ensures calls == old(calls) + Called(tools, reply, actions, |old(calls)|)
      ensures r == ResultOf(Trail(tools, reply, actions, |old(calls)|))
    {
      ghost var before := calls;
      ghost var past := |calls|;
      var results: seq<ActionResult> := [];
      for i := 0 to |actions|
        invariant |results| == i
        invariant forall k | 0 <= k < i :: results[k] == ActionResult(actions[k].id, true)
        invariant forall k | 0 <= k < i :: Works(tools, reply, actions[k], past + k)
        invariant calls == before + actions[..i]
      {
        assert actions[..i + 1] == actions[..i] + [actions[i]];
        var result := Execute(actions[i]);
        if result.Err? || !result.value.succeeded {
          results := results + [ActionResult(actions[i].id, false)];
          StoppedAt(tools, reply, actions, past, i, results);
          return ExecutionResult(Failed, results, Some(ActionExecutionFailed));
        }
        results := results + [result.value];
      }
      CompletedAll(tools, reply, actions, past, results);
      assert actions[..|actions|] == actions;
      return ExecutionResult(Succeeded, results, None);
    }
  }

  method ExecuteActions(approval: Option<Decision>, required: bool, executor: AllowlistedExecutor?, actions: seq<Action>)
    returns (r: ExecutionResult)
    modifies if executor == null then {} else {executor}
    ensures var refusal := Refusal(approval, required, executor != null, actions);
            if refusal.Some? then r == refusal.value && (executor != null ==> executor.calls == old(executor.calls))
            else
              && r == ResultOf(Trail(executor.tools, executor.reply, actions, |old(executor.calls)|))
              && executor.calls == old(executor.calls) + Called(executor.tools, executor.reply, actions, |old(executor.calls)|)
    ensures r.code == Some(ApprovalRejected) <==> approval == Some(Reject)
    ensures r.code == Some(ApprovalRequired) <==> required && approval !in {Some(Approve), Some(Reject)}
    ensures r.status == NotExecuted <==> approval == Some(Reject) || (required && approval != Some(Approve))
    ensures r.code == Some(ExecutorNotConfigured) <==> r.status != NotExecuted && executor == null
    ensures r.code == Some(NoExecutableActions) <==> r.status != NotExecuted && executor != null && actions == []
    ensures r.status == Blocked <==> r.status != NotExecuted && (executor == null || actions == [])
  {
    if approval == Some(Reject) {
      return ExecutionResult(NotExecuted, [], Some(ApprovalRejected));
    }
    if required && approval != Some(Approve) {
      return ExecutionResult(NotExecuted, [], Some(ApprovalRequired));
    }
    if executor == null {
      return ExecutionResult(Blocked, [], Some(ExecutorNotConfigured));
    }
    if actions == [] {
      return ExecutionResult(Blocked, [], Some(NoExecutableActions));
    }
    r := executor.ExecuteAll(actions);
  }
}
