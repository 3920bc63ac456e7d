/** Evaluating a whole repair plan, and the registration gate that is meant to match the engine. */
module PolicyPlan {
  import opened Outcomes
  import opened Policy
  import PyText

  datatype Action = Action(id: string, tool: string, target: string, arguments: string)

  datatype PlanError = NoTargets | BlankActionId | BlankTool | NameTooLong

  datatype Evaluation = Evaluation(actionId: string, context: Context, decision: Effect)

  function ResolveOperation(r: Registry, tool: string): Operation {
    var name := PyText.Strip(tool);
    if name in r.tools then r.tools[name] else Unknown
  }

  /** The devices of a plan: the stripped targets that are not blank, each once. */
  function Targets(actions: seq<Action>): set<string> {
    set a | a in actions && PyText.Strip(a.target) != "" :: PyText.Strip(a.target)
  }

  /** A context refuses longer tool and device names. */
  const NAME_LIMIT := 128

  predicate Named(a: Action) {
    PyText.Strip(a.id) != "" && PyText.Strip(a.tool) != "" && |PyText.Strip(a.tool)| <= NAME_LIMIT
  }

  predicate ShortNames(targets: set<string>) {
    forall t | t in targets :: |t| <= NAME_LIMIT
  }

  predicate Evaluable(actions: seq<Action>) {
    Targets(actions) != {} && ShortNames(Targets(actions)) && forall a | a in actions :: Named(a)
  }

  function EvaluationIn(r: Registry, roles: set<Role>, targets: set<string>, a: Action, risk: Risk): Evaluation
    requires roles != {} && targets != {}
  {
    var x: Context := Context(roles, EXECUTE_REPAIR, ResolveOperation(r, a.tool), targets, risk);
    Evaluation(PyText.Strip(a.id), x, Evaluate(r.rules, x))
  }

  /** Every action is evaluated against all devices of the plan. */
  function EvaluationOf(r: Registry, roles: set<Role>, actions: seq<Action>, a: Action, risk: Risk): Evaluation
    requires roles != {} && Targets(actions) != {}
  {
    EvaluationIn(r, roles, Targets(actions), a, risk)
  }

  method CollectTargets(actions: seq<Action>) returns (targets: set<string>)
    ensures targets == Targets(actions)
  {
    targets := {};
    for i := 0 to |actions|
      invariant targets == Targets(actions[..i])
    {
      assert actions[..i + 1] == actions[..i] + [actions[i]];
      var name := PyText.Strip(actions[i].target);
      if name != "" {
        targets := targets + {name};
      }
    }
    assert actions[..|actions|] == actions;
  }

  function EvaluateAction(r: Registry, roles: set<Role>, targets: set<string>, a: Action, risk: Risk)
    : (out: Result<Evaluation, PlanError>)
    requires roles != {} && targets != {}
    ensures out.Ok? <==> Named(a) && ShortNames(targets)
    ensures out.Ok? ==> out.value == EvaluationIn(r, roles, targets, a, risk)
    ensures out != Err(NoTargets)
  {
    if PyText.Strip(a.id) == "" then Err(BlankActionId)
    else if PyText.Strip(a.tool) == "" then Err(PlanError.BlankTool)
    else if |PyText.Strip(a.tool)| > NAME_LIMIT || !ShortNames(targets) then Err(NameTooLong)
    else Ok(EvaluationIn(r, roles, targets, a, risk))
  }

  /** Every item's value, or the first error. */
  method Traverse<T, U, E>(items: seq<T>, f: T -> Result<U, E>) returns (out: Result<seq<U>, E>)
    ensures out.Ok? <==> forall i | 0 <= i < |items| :: f(items[i]).Ok?
    ensures out.Ok? ==> |out.value| == |items| && forall i | 0 <= i < |items| :: f(items[i]) == Ok(out.value[i])
    ensures out.Err? ==> exists i :: 0 <= i < |items| && f(items[i]) == Err(out.error) && forall k | 0 <= k < i :: f(items[k]).Ok?
  {
    var values := [];
    for i := 0 to |items|
      invariant |values| == i && forall k | 0 <= k < i :: f(items[k]) == Ok(values[k])
    {
      var value :- f(items[i]);
      values := values + [value];
    }
    return Ok(values);
  }

  /** What an evaluation says: which action, under which roles, doing what, to which devices, at which risk, and the
      decision that the matching rules give. */
  ghost predicate Describes(v: Evaluation, r: Registry, roles: set<Role>, actions: seq<Action>, a: Action, risk: Risk) {
    && v.actionId == PyText.Strip(a.id) != ""
    && v.context.roles == roles && v.context.permission == EXECUTE_REPAIR && v.context.risk == risk
    && v.context.operation == (if PyText.Strip(a.tool) in r.tools then r.tools[PyText.Strip(a.tool)] else Unknown)
    && (forall d :: d in v.context.devices <==> d != "" && exists b :: b in actions && PyText.Strip(b.target) == d)
    && StrongestWins(r.rules, v.context, v.decision)
  }

  /** A decision is the strongest effect of the matching rules, and denial when none matches. */
  ghost predicate StrongestWins(rules: seq<Rule>, x: Context, e: Effect) {
    var some := exists rule :: rule in rules && Matches(rule.condition, x);
    && (e == Deny <==> !some || exists rule :: rule in rules && Matches(rule.condition, x) && rule.effect == Deny)
    && (e == Allow <==> some && forall rule | rule in rules && Matches(rule.condition, x) :: rule.effect == Allow)
  }

  lemma EngineDecides(rules: seq<Rule>, x: Context)
    ensures StrongestWins(rules, x, Evaluate(rules, x))
  {
    DecisionByMatches(rules, x);
    forall rule | rule in rules && Matches(rule.condition, x)
      ensures SomeMatch(rules, x, rule.effect) && rule.effect in {Allow, RequireApproval, Deny}
    {
      match rule.effect case Allow => case RequireApproval => case Deny =>
    }
    match Evaluate(rules, x) case Allow => case RequireApproval => case Deny =>
  }

  lemma EvaluationDescribes(r: Registry, roles: set<Role>, actions: seq<Action>, a: Action, risk: Risk)
    requires roles != {} && Targets(actions) != {} && PyText.Strip(a.id) != ""
    ensures Describes(EvaluationOf(r, roles, actions, a, risk), r, roles, actions, a, risk)
  {
    EngineDecides(r.rules, EvaluationOf(r, roles, actions, a, risk).context);
  }

  /** The first action for which an evaluation raises, and why. */
  ghost predicate FirstRaises(actions: seq<Action>, i: nat, e: PlanError) {
    && i < |actions| && (forall k | 0 <= k < i :: PyText.Strip(actions[k].id) != "" && PyText.Strip(actions[k].tool) != "")
    && if PyText.Strip(actions[i].id) == "" then e == BlankActionId
       else if PyText.Strip(actions[i].tool) == "" then e == PlanError.BlankTool
       else e == NameTooLong && (|PyText.Strip(actions[i].tool)| > 128 || exists a :: a in actions && |PyText.Strip(a.target)| > 128)
  }

  lemma EvaluableMeans(actions: seq<Action>)
    ensures Evaluable(actions) <==>
              && (exists a :: a in actions && PyText.Strip(a.target) != "")
              && forall a | a in actions ::
                   && PyText.Strip(a.id) != "" && 0 < |PyText.Strip(a.tool)| <= 128 && |PyText.Strip(a.target)| <= 128
  {
    if a :| a in actions && PyText.Strip(a.target) != "" {
      assert PyText.Strip(a.target) in Targets(actions);
    }
    if Evaluable(actions) {
      forall a | a in actions
        ensures |PyText.Strip(a.target)| <= 128
      {
        assert PyText.Strip(a.target) != "" ==> PyText.Strip(a.target) in Targets(actions);
      }
    }
  }

  lemma RaisesFirst(r: Registry, roles: set<Role>, actions: seq<Action>, risk: Risk, i: nat, e: PlanError)
    requires roles != {} && Targets(actions) != {} && i < |actions|
    requires EvaluateAction(r, roles, Targets(actions), actions[i], risk) == Err(e)
    requires forall k | 0 <= k < i :: EvaluateAction(r, roles, Targets(actions), actions[k], risk).Ok?
    ensures FirstRaises(actions, i, e)
  {
    if !ShortNames(Targets(actions)) {
      var t :| t in Targets(actions) && |t| > NAME_LIMIT;
      var a :| a in actions && PyText.Strip(a.target) == t;
      assert |PyText.Strip(a.target)| > 128;
    }
  }

  method EvaluateActions(r: Registry, roles: set<Role>, actions: seq<Action>, risk: Risk)
    returns (out: Result<seq<Evaluation>, PlanError>)
    requires roles != {}
    ensures out.Ok? <==> Evaluable(actions)
    ensures out == Err(NoTargets) <==> Targets(actions) == {}
    ensures out.Ok? <==>
              && (exists a :: a in actions && PyText.Strip(a.target) != "")
              && forall a | a in actions ::
                   && PyText.Strip(a.id) != "" && 0 < |PyText.Strip(a.tool)| <= 128 && |PyText.Strip(a.target)| <= 128
    ensures out.Err? && out.error != NoTargets ==> exists i :: FirstRaises(actions, i, out.error)
    ensures out.Ok? ==>
              && |out.value| == |actions|
              && (forall i | 0 <= i < |actions| :: Describes(out.value[i], r, roles, actions, actions[i], risk))
              && forall i | 0 <= i < |actions| :: out.value[i] == EvaluationOf(r, roles, actions, actions[i], risk)
  {
    var targets := CollectTargets(actions);
    EvaluableMeans(actions);
    if targets == {} {
      return Err(NoTargets);
    }
    out := Traverse(actions, a => EvaluateAction(r, roles, targets, a, risk));
    if out.Err? {
      var k :| 0 <= k < |actions| && EvaluateAction(r, roles, targets, actions[k], risk) == Err(out.error)
        && forall j | 0 <= j < k :: EvaluateAction(r, roles, targets, actions[j], risk).Ok?;
      RaisesFirst(r, roles, actions, risk, k, out.error);
    } else {
      forall i | 0 <= i < |actions|
        ensures Describes(out.value[i], r, roles, actions, actions[i], risk)
      {
        EvaluationDescribes(r, roles, actions, actions[i], risk);
      }
    }
  }

  /** The strongest decision of a plan; an empty plan is denied. */
  function AggregateEffect(evaluations: seq<Evaluation>): Effect {
    if evaluations == [] then Deny
    else if |evaluations| == 1 then evaluations[0].decision
    else Stronger(evaluations[0].decision, AggregateEffect(evaluations[1..]))
  }

  ghost predicate SomeDecision(evaluations: seq<Evaluation>, e: Effect) {
    exists v :: v in evaluations && v.decision == e
  }

  /** A plan is denied when it is empty or one action is, and requires approval when none is denied and one
      requires it. */
  lemma {:induction false} AggregateByDecisions(evaluations: seq<Evaluation>)
    ensures AggregateEffect(evaluations) == Deny <==> evaluations == [] || SomeDecision(evaluations, Deny)
    ensures AggregateEffect(evaluations) == RequireApproval <==>
            !SomeDecision(evaluations, Deny) && SomeDecision(evaluations, RequireApproval)
  {
    if evaluations != [] {
      assert evaluations == [evaluations[0]] + evaluations[1..];
      assert forall e :: SomeDecision(evaluations, e) <==> evaluations[0].decision == e || SomeDecision(evaluations[1..], e);
      if |evaluations| > 1 {
        AggregateByDecisions(evaluations[1..]);
        assert evaluations[1] == evaluations[1..][0];
      }
    }
  }

  /** The effect of a plan for some roles at some risk level; nothing when its evaluation raises. */
  function PlanEffect(r: Registry, roles: set<Role>, actions: seq<Action>, risk: Risk): Option<Effect> {
    if roles == {} || !Evaluable(actions) then None
    else Some(AggregateEffect(Evaluations(r, roles, actions, risk)))
  }

  function Evaluations(r: Registry, roles: set<Role>, actions: seq<Action>, risk: Risk): seq<Evaluation>
    requires roles != {} && Targets(actions) != {}
  {
    seq(|actions|, i requires 0 <= i < |actions| => EvaluationOf(r, roles, actions, actions[i], risk))
  }

  ghost predicate SomeAction(r: Registry, roles: set<Role>, actions: seq<Action>, risk: Risk, e: Effect) {
    roles != {} && Evaluable(actions) && exists a :: a in actions && EvaluationOf(r, roles, actions, a, risk).decision == e
  }

  lemma DecisionsAreActions(r: Registry, roles: set<Role>, actions: seq<Action>, risk: Risk, e: Effect)
    ensures roles != {} && Evaluable(actions) ==>
              (SomeDecision(Evaluations(r, roles, actions, risk), e) <==> SomeAction(r, roles, actions, risk, e))
  {
    if SomeAction(r, roles, actions, risk, e) {
      var evaluations := Evaluations(r, roles, actions, risk);
      var a :| a in actions && EvaluationOf(r, roles, actions, a, risk).decision == e;
      var i :| 0 <= i < |actions| && actions[i] == a;
      assert evaluations[i] in evaluations;
    }
  }

  /** A plan is denied when one of its actions is, and otherwise requires approval when one does. */
  lemma PlanEffectByActions(r: Registry, roles: set<Role>, actions: seq<Action>, risk: Risk)
    ensures var effect := PlanEffect(r, roles, actions, risk);
            && (effect == Some(Deny) <==> SomeAction(r, roles, actions, risk, Deny))
            && (effect == Some(RequireApproval) <==>
                  !SomeAction(r, roles, actions, risk, Deny) && SomeAction(r, roles, actions, risk, RequireApproval))
            && (effect.None? <==> roles == {} || !Evaluable(actions))
  {
    if roles != {} && Evaluable(actions) {
      AggregateByDecisions(Evaluations(r, roles, actions, risk));
      DecisionsAreActions(r, roles, actions, risk, Deny);
      DecisionsAreActions(r, roles, actions, risk, RequireApproval);
      assert actions != [];
    }
  }

  /** `aggregate_effect(evaluate_actions(...))` */
  method EvaluatePlan(r: Registry, roles: set<Role>, actions: seq<Action>, risk: Risk) returns (out: Result<Effect, PlanError>)
    requires roles != {}
    ensures PlanEffect(r, roles, actions, risk) == if out.Ok? then Some(out.value) else None
  {
    var evaluations := EvaluateActions(r, roles, actions, risk);
    if evaluations.Err? {
      return Err(evaluations.error);
    }
    assert evaluations.value == Evaluations(r, roles, actions, risk);
    return Ok(AggregateEffect(evaluations.value));
  }

  lemma SameSomeAction(r: Registry, roles: set<Role>, actions: seq<Action>, other: seq<Action>, risk: Risk, e: Effect)
    requires forall a :: a in actions <==> a in other
    requires Targets(actions) == Targets(other) && (Evaluable(actions) <==> Evaluable(other))
    ensures SomeAction(r, roles, actions, risk, e) <==> SomeAction(r, roles, other, risk, e)
  {
  }

  /** The order of a plan's actions does not matter, and neither does repeating one. */
  lemma PlanEffectUnordered(r: Registry, roles: set<Role>, actions: seq<Action>, other: seq<Action>, risk: Risk)
    requires forall a :: a in actions <==> a in other
    ensures PlanEffect(r, roles, actions, risk) == PlanEffect(r, roles, other, risk)
  {
    SameSomeAction(r, roles, actions, other, risk, Deny);
    SameSomeAction(r, roles, actions, other, risk, RequireApproval);
    PlanEffectByActions(r, roles, actions, risk);
    PlanEffectByActions(r, roles, other, risk);
    SameEffect(PlanEffect(r, roles, actions, risk), PlanEffect(r, roles, other, risk));
  }

  lemma SameEffect(e: Option<Effect>, f: Option<Effect>)
    requires e.None? <==> f.None?
    requires e == Some(Deny) <==> f == Some(Deny)
    requires e == Some(RequireApproval) <==> f == Some(RequireApproval)
    ensures e == f
  {
    if e.Some? && f.Some? {
      assert e.value in {Allow, RequireApproval, Deny} by {
        match e.value case Allow => case _ =>
      }
      assert f.value in {Allow, RequireApproval, Deny} by {
        match f.value case Allow => case _ =>
      }
    }
  }

  // ---- from the rules and tools a registry was built from ----

  /** The operation that the given tools pair with a name, white space aside: unknown when none of them has it. */
  ghost predicate Classified(tools: seq<(string, Operation)>, tool: string, operation: Operation) {
    if exists p :: p in tools && PyText.Strip(p.0) == PyText.Strip(tool)
    then exists p :: p in tools && PyText.Strip(p.0) == PyText.Strip(tool) && p.1 == operation
    else operation == Unknown
  }

  lemma ResolvedFromTools(r: Registry, rules: seq<Rule>, tools: seq<(string, Operation)>, tool: string)
    requires Represents(r, rules, tools)
    ensures forall operation :: Classified(tools, tool, operation) <==> operation == ResolveOperation(r, tool)
  {
    var name := PyText.Strip(tool);
    if p :| p in tools && PyText.Strip(p.0) == name {
      assert name in r.tools;
    } else {
      assert name !in ToolNames(tools);
    }
  }

  /** A request is denied when nothing matches it or a matching rule denies it. */
  ghost predicate DeniedIn(rules: seq<Rule>, x: Context) {
    (forall rule | rule in rules :: !Matches(rule.condition, x))
    || exists rule :: rule in rules && Matches(rule.condition, x) && rule.effect == Deny
  }

  ghost predicate DeniedAction(rules: seq<Rule>, tools: seq<(string, Operation)>, roles: set<Role>, actions: seq<Action>, a: Action, risk: Risk)
    requires roles != {} && Targets(actions) != {}
  {
    exists operation :: Classified(tools, a.tool, operation)
                        && DeniedIn(rules, Context(roles, EXECUTE_REPAIR, operation, Targets(actions), risk))
  }

  lemma DeniedActionExactly(r: Registry, rules: seq<Rule>, tools: seq<(string, Operation)>,
                            roles: set<Role>, actions: seq<Action>, a: Action, risk: Risk)
    requires Represents(r, rules, tools) && roles != {} && Targets(actions) != {}
    ensures EvaluationOf(r, roles, actions, a, risk).decision == Deny <==> DeniedAction(rules, tools, roles, actions, a, risk)
  {
    ResolvedFromTools(r, rules, tools, a.tool);
    SameMembers(r.rules, rules);
    EngineDecides(r.rules, EvaluationOf(r, roles, actions, a, risk).context);
  }

  /** A plan is denied exactly when one of its actions, as the operation that its tool is classified as, on all devices of
      the plan, is matched by no rule or by one that denies. */
  lemma PlanDeniedExactly(r: Registry, rules: seq<Rule>, tools: seq<(string, Operation)>,
                          roles: set<Role>, actions: seq<Action>, risk: Risk)
    requires Represents(r, rules, tools) && roles != {} && Evaluable(actions)
    ensures PlanEffect(r, roles, actions, risk) == Some(Deny) <==>
            exists a :: a in actions && DeniedAction(rules, tools, roles, actions, a, risk)
  {
    PlanEffectByActions(r, roles, actions, risk);
    forall a
      ensures EvaluationOf(r, roles, actions, a, risk).decision == Deny <==> DeniedAction(rules, tools, roles, actions, a, risk)
    {
      DeniedActionExactly(r, rules, tools, roles, actions, a, risk);
    }
  }

  /** When no rule admits unknown operations, a plan with a tool that is none of the given ones is denied. */
  lemma UnclassifiedIsDenied(r: Registry, rules: seq<Rule>, tools: seq<(string, Operation)>,
                             roles: set<Role>, actions: seq<Action>, risk: Risk, a: Action)
    requires Represents(r, rules, tools) && roles != {} && Evaluable(actions)
    requires forall rule | rule in rules :: rule.condition.operation.Some? && Unknown !in rule.condition.operation.value
    requires a in actions && forall p | p in tools :: PyText.Strip(p.0) != PyText.Strip(a.tool)
    ensures PlanEffect(r, roles, actions, risk) == Some(Deny)
  {
    var x: Context := Context(roles, EXECUTE_REPAIR, Unknown, Targets(actions), risk);
    assert Classified(tools, a.tool, Unknown) && DeniedIn(rules, x);
    PlanDeniedExactly(r, rules, tools, roles, actions, risk);
  }

  function RoleRule(role: Role): Rule {
    Rule("role", Condition(None, None, None, Some({role}), None, None), Allow)
  }

  lemma RoleRuleDecides(x: Context, role: Role)
    ensures Evaluate([RoleRule(role)], x) == if role in x.roles then Allow else Deny
  {
    assert role in x.roles <==> role in x.roles * {role};
    assert Matches(RoleRule(role).condition, x) <==> role in x.roles;
    var rules := [RoleRule(role)];
    assert rules[1..] == [] && Matched(rules[1..], x) == [];
    assert Matched(rules, x) == if role in x.roles then rules else [];
  }

  lemma OneDecision(evaluations: seq<Evaluation>, e: Effect)
    requires evaluations != [] && forall v | v in evaluations :: v.decision == e
    ensures AggregateEffect(evaluations) == e
  {
    AggregateByDecisions(evaluations);
    assert evaluations[0] in evaluations;
    assert SomeDecision(evaluations, e);
  }

  lemma RoleEffect(actions: seq<Action>, risk: Risk, role: Role, roles: set<Role>)
    requires roles != {}
    ensures PlanEffect(Registry([RoleRule(role)], map[]), roles, actions, risk) ==
            if !Evaluable(actions) then None else Some(if role in roles then Allow else Deny)
  {
    if Evaluable(actions) {
      var r := Registry([RoleRule(role)], map[]);
      var evaluations := Evaluations(r, roles, actions, risk);
      forall v | v in evaluations
        ensures v.decision == if role in roles then Allow else Deny
      {
        var i :| 0 <= i < |evaluations| && evaluations[i] == v;
        RoleRuleDecides(v.context, role);
      }
      assert actions != [];
      OneDecision(evaluations, if role in roles then Allow else Deny);
    }
  }

  /** The same plan can be denied for some roles and allowed for others. */
  lemma RolesDecide(actions: seq<Action>, risk: Risk, a: Role, b: Role)
    requires a != b
    ensures var r := Registry([RoleRule(a)], map[]);
            && PlanEffect(r, {a}, actions, risk) == (if Evaluable(actions) then Some(Allow) else None)
            && PlanEffect(r, {b}, actions, risk) == (if Evaluable(actions) then Some(Deny) else None)
  {
    RoleEffect(actions, risk, a, {a});
    RoleEffect(actions, risk, a, {b});
  }

  // ---- the registration gate ----

  datatype Capability = Capability(name: string, permission: Permission)

  predicate Covers(rule: Rule, operation: Operation, permission: Permission) {
    Admits(rule.condition.operation, operation) && Admits(rule.condition.permission, permission)
  }

  predicate Covered(rules: seq<Rule>, operation: Operation, permission: Permission) {
    exists rule :: rule in rules && Covers(rule, operation, permission)
  }

  function ClassifiedAs(r: Registry, c: Capability): Operation {
    if c.name in r.tools then r.tools[c.name] else Unknown
  }

  /** What the gate looks at: the capabilities whose name is that of a given tool, white space around the tool aside. */
  lemma ClassifiedFromTools(r: Registry, rules: seq<Rule>, tools: seq<(string, Operation)>, c: Capability)
    requires Represents(r, rules, tools) && AcceptableTools(tools)
    ensures ClassifiedAs(r, c) != Unknown <==> exists p :: p in tools && PyText.Strip(p.0) == c.name
    ensures forall p | p in tools && PyText.Strip(p.0) == c.name :: ClassifiedAs(r, c) == p.1
  {
    assert c.name in r.tools <==> c.name in ToolNames(tools);
  }

  /** The capability is classified and covered by no rule. */
  predicate Gated(r: Registry, c: Capability) {
    ClassifiedAs(r, c) != Unknown && !Covered(r.rules, ClassifiedAs(r, c), c.permission)
  }

  predicate FirstUncovered(r: Registry, capabilities: seq<Capability>, i: nat) {
    i < |capabilities| && Gated(r, capabilities[i]) && forall k | 0 <= k < i :: !Gated(r, capabilities[k])
  }

  /** The first capability the gate refuses, if any. */
  method FindUncovered(r: Registry, capabilities: seq<Capability>) returns (refused: Option<Capability>)
    ensures refused.None? <==>
            forall c | c in capabilities :: ClassifiedAs(r, c) != Unknown ==> Covered(r.rules, ClassifiedAs(r, c), c.permission)
    ensures refused.Some? ==>
            exists i :: 0 <= i < |capabilities| && refused.value == capabilities[i] && FirstUncovered(r, capabilities, i)
  {
    for i := 0 to |capabilities|
      invariant forall k | 0 <= k < i :: ClassifiedAs(r, capabilities[k]) != Unknown ==>
                                         Covered(r.rules, ClassifiedAs(r, capabilities[k]), capabilities[k].permission)
    {
      var operation := ClassifiedAs(r, capabilities[i]);
      if operation != Unknown {
        var covered := false;
        for j := 0 to |r.rules|
          invariant covered <==> exists k :: 0 <= k < j && Covers(r.rules[k], operation, capabilities[i].permission)
        {
          covered := covered || Covers(r.rules[j], operation, capabilities[i].permission);
        }
        if !covered {
          assert FirstUncovered(r, capabilities, i);
          return Some(capabilities[i]);
        }
      }
    }
    return None;
  }

  /** A capability the gate refuses is denied in every context with its operation and permission. */
  lemma UncoveredIsDenied(rules: seq<Rule>, x: Context)
    requires !Covered(rules, x.operation, x.permission)
    ensures Matched(rules, x) == [] && Evaluate(rules, x) == Deny
  {
    MatchedMembers(rules, x);
    assert forall rule :: rule in Matched(rules, x) ==> Covers(rule, x.operation, x.permission);
    NoMembers(Matched(rules, x));
  }

  lemma NoMembers(rules: seq<Rule>)
    ensures rules == [] || exists rule :: rule in rules
  {
    assert rules == [] || rules[0] in rules;
  }

  /** `n` different device names: the first numbers, in decimal. */
  function Devices(n: nat): set<string> {
    set k: nat | k < n :: PyText.Decimal(k)
  }

  lemma {:induction false} DevicesCount(n: nat)
    ensures |Devices(n)| == n
  {
    if n > 0 {
      DevicesCount(n - 1);
      forall k: nat | k < n - 1
        ensures PyText.Decimal(k) != PyText.Decimal(n - 1)
      {
        if PyText.Decimal(k) == PyText.Decimal(n - 1) {
          PyText.DecimalInjective(k, n - 1);
        }
      }
      assert Devices(n) == Devices(n - 1) + {PyText.Decimal(n - 1)};
    }
  }

  ghost predicate MatchedSomewhere(rules: seq<Rule>, operation: Operation, permission: Permission) {
    exists x: Context :: x.operation == operation && x.permission == permission && Matched(rules, x) != []
  }

  predicate AllowsADevice(rule: Rule) {
    rule.condition.maxDevices.None? || rule.condition.maxDevices.value >= 1
  }

  /** An operation and permission are matched in some context exactly when a covering rule allows at least one
      device: covering rules whose device cap is zero pass the gate and never match. */
  lemma GateIsExact(rules: seq<Rule>, operation: Operation, permission: Permission)
    ensures MatchedSomewhere(rules, operation, permission) <==>
            exists rule :: rule in rules && Covers(rule, operation, permission) && AllowsADevice(rule)
  {
    if MatchedSomewhere(rules, operation, permission) {
      var x: Context :| x.operation == operation && x.permission == permission && Matched(rules, x) != [];
      MatchedMembers(rules, x);
      var rule := Matched(rules, x)[0];
      assert rule in Matched(rules, x);
      assert |x.devices| >= 1;
    }
    if rule :| rule in rules && Covers(rule, operation, permission) && AllowsADevice(rule) {
      RuleMatchesSomewhere(rule, operation, permission);
      var x: Context :| x.operation == operation && x.permission == permission && Matches(rule.condition, x);
      MatchedMembers(rules, x);
      assert rule in Matched(rules, x);
    }
  }

  lemma RuleMatchesSomewhere(rule: Rule, operation: Operation, permission: Permission)
    requires Covers(rule, operation, permission) && AllowsADevice(rule)
    ensures exists x: Context :: x.operation == operation && x.permission == permission && Matches(rule.condition, x)
  {
    var c := rule.condition;
    var role, risk := Operator, LowRisk;
    if c.role.Some? {
      assert c.role.value != {};
      role :| role in c.role.value;
    }
    if c.risk.Some? {
      assert c.risk.value != {};
      risk :| risk in c.risk.value;
    }
    var n := if c.minDevices.Some? && c.minDevices.value > 1 then c.minDevices.value else 1;
    DevicesCount(n);
    assert Devices(n) != {};
    var x: Context := Context({role}, permission, operation, Devices(n), risk);
    SingleRole(rule, operation, permission, role, risk, n, x);
  }

  // ---- what passing the gate does not promise ----

  /** A rule admits a request of one role, at a risk level, for so many devices. */
  predicate AdmitsRequest(rule: Rule, role: Role, risk: Risk, n: nat) {
    && Admits(rule.condition.role, role) && Admits(rule.condition.risk, risk)
    && (rule.condition.minDevices.None? || rule.condition.minDevices.value <= n)
    && (rule.condition.maxDevices.None? || n <= rule.condition.maxDevices.value)
  }

  /** A covering rule that does not deny admits the request, and no covering rule that denies does. */
  predicate Grants(rules: seq<Rule>, operation: Operation, permission: Permission, rule: Rule, role: Role, risk: Risk, n: nat) {
    && rule in rules && Covers(rule, operation, permission) && rule.effect != Deny
    && AdmitsRequest(rule, role, risk, n)
    && forall d | d in rules && Covers(d, operation, permission) && d.effect == Deny :: !AdmitsRequest(d, role, risk, n)
  }

  lemma SingleRole(rule: Rule, operation: Operation, permission: Permission, role: Role, risk: Risk, n: nat, x: Context)
    requires n > 0 && x == Context({role}, permission, operation, Devices(n), risk)
    ensures Matches(rule.condition, x) <==> Covers(rule, operation, permission) && AdmitsRequest(rule, role, risk, n)
  {
    DevicesCount(n);
    if rule.condition.role.Some? {
      assert role in rule.condition.role.value <==> role in x.roles * rule.condition.role.value;
    }
  }

  lemma NotDenied(rules: seq<Rule>, x: Context)
    ensures Evaluate(rules, x) != Deny <==>
            && (exists rule :: rule in rules && Matches(rule.condition, x) && rule.effect != Deny)
            && forall d | d in rules && d.effect == Deny :: !Matches(d.condition, x)
  {
    DecisionByMatches(rules, x);
    if rule :| rule in rules && Matches(rule.condition, x) && rule.effect != Deny {
      match rule.effect
      case Allow => assert SomeMatch(rules, x, Allow);
      case RequireApproval => assert SomeMatch(rules, x, RequireApproval);
    }
  }

  /** Of the roles of a matching context one is enough. */
  lemma OneRoleIsEnough(rule: Rule, x: Context) returns (role: Role)
    requires Matches(rule.condition, x)
    ensures role in x.roles && AdmitsRequest(rule, role, x.risk, |x.devices|)
  {
    if rule.condition.role.Some? {
      role :| role in x.roles * rule.condition.role.value;
    } else {
      role :| role in x.roles;
    }
  }

  lemma OneRoleMatches(d: Rule, x: Context, role: Role)
    requires Covers(d, x.operation, x.permission) && role in x.roles && AdmitsRequest(d, role, x.risk, |x.devices|)
    ensures Matches(d.condition, x)
  {
    if d.condition.role.Some? {
      assert role in x.roles * d.condition.role.value;
    }
  }

  /** Device counts at which some rule starts or stops admitting: one, every lower bound, and one above every cap. */
  function Counts(rules: seq<Rule>): set<nat> {
    {1}
    + (set rule | rule in rules && rule.condition.minDevices.Some? :: rule.condition.minDevices.value)
    + (set rule | rule in rules && rule.condition.maxDevices.Some? :: rule.condition.maxDevices.value + 1)
  }

  /** Only these counts need to be tried. */
  lemma {:induction false} FewCounts(rules: seq<Rule>, operation: Operation, permission: Permission, rule: Rule, role: Role, risk: Risk, n: nat)
    requires n > 0 && Grants(rules, operation, permission, rule, role, risk, n)
    ensures exists k :: 0 < k <= n && k in Counts(rules) && Grants(rules, operation, permission, rule, role, risk, k)
    decreases n
  {
    if n !in Counts(rules) {
      FewCounts(rules, operation, permission, rule, role, risk, n - 1);
    }
  }

  /** There are four roles, four risk levels, and finitely many rules and counts: a caller can try them all. */
  predicate EverGranted(rules: seq<Rule>, operation: Operation, permission: Permission) {
    exists n, rule, role: Role, risk: Risk | n in Counts(rules) && rule in rules ::
      n > 0 && Grants(rules, operation, permission, rule, role, risk, n)
  }

  ghost predicate NotAlwaysDenied(rules: seq<Rule>, operation: Operation, permission: Permission) {
    exists x: Context :: x.operation == operation && x.permission == permission && Evaluate(rules, x) != Deny
  }

  /** Passing the gate does not mean that a tool is ever allowed. An operation and permission are denied in every
      context unless a covering rule that does not deny admits some request of one role, at one risk level, for one
      of finitely many device counts, that no covering rule that denies admits. */
  lemma DeniedForEverExactly(rules: seq<Rule>, operation: Operation, permission: Permission)
    ensures NotAlwaysDenied(rules, operation, permission) <==> EverGranted(rules, operation, permission)
  {
    if NotAlwaysDenied(rules, operation, permission) {
      GrantFromContext(rules, operation, permission);
    }
    if EverGranted(rules, operation, permission) {
      var n, rule, role: Role, risk: Risk :| n in Counts(rules) && rule in rules && n > 0
        && Grants(rules, operation, permission, rule, role, risk, n);
      ContextFromGrant(rules, operation, permission, rule, role, risk, n);
    }
  }

  lemma GrantFromContext(rules: seq<Rule>, operation: Operation, permission: Permission)
    requires NotAlwaysDenied(rules, operation, permission)
    ensures EverGranted(rules, operation, permission)
  {
    var x: Context :| x.operation == operation && x.permission == permission && Evaluate(rules, x) != Deny;
    NotDenied(rules, x);
    var rule :| rule in rules && Matches(rule.condition, x) && rule.effect != Deny;
    var role := OneRoleIsEnough(rule, x);
    forall d | d in rules && Covers(d, operation, permission) && d.effect == Deny
      ensures !AdmitsRequest(d, role, x.risk, |x.devices|)
    {
      if AdmitsRequest(d, role, x.risk, |x.devices|) {
        OneRoleMatches(d, x, role);
      }
    }
    assert |x.devices| > 0;
    FewCounts(rules, operation, permission, rule, role, x.risk, |x.devices|);
  }

  lemma ContextFromGrant(rules: seq<Rule>, operation: Operation, permission: Permission, rule: Rule, role: Role, risk: Risk, n: nat)
    requires n > 0 && Grants(rules, operation, permission, rule, role, risk, n)
    ensures NotAlwaysDenied(rules, operation, permission)
  {
    DevicesCount(n);
    assert Devices(n) != {};
    var x: Context := Context({role}, permission, operation, Devices(n), risk);
    SingleRole(rule, operation, permission, role, risk, n, x);
    forall d | d in rules && d.effect == Deny
      ensures !Matches(d.condition, x)
    {
      SingleRole(d, operation, permission, role, risk, n, x);
    }
    NotDenied(rules, x);
  }

  /** A covered operation that is denied in every context. */
  lemma CoveredYetDenied()
    ensures var rules := [Rule("r", Condition(Some({RestartDevice}), None, None, None, None, None), Deny)];
            && Covered(rules, RestartDevice, EXECUTE_REPAIR)
            && !NotAlwaysDenied(rules, RestartDevice, EXECUTE_REPAIR)
  {
    var rule := Rule("r", Condition(Some({RestartDevice}), None, None, None, None, None), Deny);
    assert rule in [rule] && Covers(rule, RestartDevice, EXECUTE_REPAIR);
    DeniedForEverExactly([rule], RestartDevice, EXECUTE_REPAIR);
  }

  const EVERY_ROLE := {Operator, Engineer, EmbeddedEngineer, Admin}

  /** One that is denied although a rule allows it: the rule that denies it names every role. */
  lemma DeniedToEveryRole()
    ensures var allow := Rule("a", Condition(Some({RestartDevice}), None, None, None, None, None), Allow);
            var deny := Rule("d", Condition(Some({RestartDevice}), None, None, Some(EVERY_ROLE), None, None), Deny);
            && Covers(allow, RestartDevice, EXECUTE_REPAIR) && AllowsADevice(allow)
            && !NotAlwaysDenied([allow, deny], RestartDevice, EXECUTE_REPAIR)
  {
    var allow := Rule("a", Condition(Some({RestartDevice}), None, None, None, None, None), Allow);
    var deny := Rule("d", Condition(Some({RestartDevice}), None, None, Some(EVERY_ROLE), None, None), Deny);
    var rules := [allow, deny];
    forall rule, role, risk, n
      ensures !Grants(rules, RestartDevice, EXECUTE_REPAIR, rule, role, risk, n)
    {
      assert role in EVERY_ROLE by {
        match role case Operator => case Engineer => case EmbeddedEngineer => case Admin =>
      }
      assert deny in rules && AdmitsRequest(deny, role, risk, n);
    }
    DeniedForEverExactly(rules, RestartDevice, EXECUTE_REPAIR);
  }
}
