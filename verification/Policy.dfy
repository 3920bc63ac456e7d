/** The policy registry, the engine that evaluates a context against it, and the effect of a whole plan. */
module Policy {
  import opened Outcomes
  import PyText

  datatype Effect = Allow | RequireApproval | Deny

  datatype Operation = ViewDeviceStatus | CreateRepairPlan | RestartDevice | BatchConfigurationChange | Unknown

  datatype Risk = LowRisk | MediumRisk | HighRisk | CriticalRisk

  datatype Permission =
    | VIEW_INCIDENT
    | VIEW_TRACE
    | CREATE_REPAIR_PLAN
    | EXECUTE_REPAIR
    | APPROVE_REPAIR
    | MANAGE_SYSTEM
    | EMBEDDED_READ
    | EMBEDDED_GENERATE
    | EMBEDDED_SIMULATE

  datatype Role = Operator | Engineer | EmbeddedEngineer | Admin

  function Precedence(e: Effect): nat {
    match e
    case Allow => 1
    case RequireApproval => 2
    case Deny => 3
  }

  function Stronger(a: Effect, b: Effect): Effect {
    if Precedence(a) < Precedence(b) then b else a
  }

  // ---- rules and contexts ----

  datatype ConditionFields = Condition(
    operation: Option<set<Operation>>,
    risk: Option<set<Risk>>,
    permission: Option<set<Permission>>,
    role: Option<set<Role>>,
    minDevices: Option<nat>,
    maxDevices: Option<nat>)

  predicate ValidCondition(c: ConditionFields) {
    && c != Condition(None, None, None, None, None, None)
    && (c.minDevices.Some? && c.maxDevices.Some? ==> c.minDevices.value <= c.maxDevices.value)
    && c.operation != Some({}) && c.risk != Some({}) && c.permission != Some({}) && c.role != Some({})
  }

  type Condition = c: ConditionFields | ValidCondition(c) witness Condition(None, None, None, None, Some(0), None)

  datatype Rule = Rule(id: string, condition: Condition, effect: Effect)

  datatype ContextFields = Context(roles: set<Role>, permission: Permission, operation: Operation, devices: set<string>, risk: Risk)

  /** Roles and devices are listed without duplicates, and at least one of each. */
  type Context = c: ContextFields | c.roles != {} && c.devices != {} witness Context({Operator}, VIEW_INCIDENT, Unknown, {"device"}, LowRisk)

  predicate Admits<T(==)>(allowed: Option<set<T>>, x: T) {
    allowed.None? || x in allowed.value
  }

  predicate Matches(c: Condition, x: Context) {
    && Admits(c.operation, x.operation)
    && Admits(c.risk, x.risk)
    && Admits(c.permission, x.permission)
    && (c.role.None? || x.roles * c.role.value != {})
    && (c.minDevices.None? || |x.devices| >= c.minDevices.value)
    && (c.maxDevices.None? || |x.devices| <= c.maxDevices.value)
  }

  // ---- the registry ----

  datatype RegistryError = DuplicateRule | BlankTool | UnknownOperation | DuplicateTool

  datatype Registry = Registry(rules: seq<Rule>, tools: map<string, Operation>)

  predicate Ascending(rules: seq<Rule>) {
    forall i, j | 0 <= i < j < |rules| :: PyText.Before(rules[i].id, rules[j].id)
  }

  ghost predicate DistinctRules(rules: seq<Rule>) {
    forall i, j | 0 <= i < j < |rules| :: rules[i].id != rules[j].id
  }

  /** Where a new identifier belongs in an ascending list: after everything before it. */
  method InsertionPoint(rules: seq<Rule>, id: string) returns (k: nat)
    requires Ascending(rules) && forall r | r in rules :: r.id != id
    ensures k <= |rules|
    ensures forall i | 0 <= i < k :: PyText.Before(rules[i].id, id)
    ensures forall i | k <= i < |rules| :: PyText.Before(id, rules[i].id)
  {
    k := 0;
    while k < |rules| && PyText.Before(rules[k].id, id)
      invariant k <= |rules| && forall i | 0 <= i < k :: PyText.Before(rules[i].id, id)
    {
      k := k + 1;
    }
    forall i | k <= i < |rules|
      ensures PyText.Before(id, rules[i].id)
    {
      PyText.BeforeTotal(rules[k].id, id);
      if i > k {
        PyText.BeforeTransitive(id, rules[k].id, rules[i].id);
      }
    }
  }

  lemma InsertAscending(sorted: seq<Rule>, k: nat, rule: Rule)
    requires Ascending(sorted) && k <= |sorted|
    requires forall i | 0 <= i < k :: PyText.Before(sorted[i].id, rule.id)
    requires forall i | k <= i < |sorted| :: PyText.Before(rule.id, sorted[i].id)
    ensures Ascending(sorted[..k] + [rule] + sorted[k..])
    ensures multiset(sorted[..k] + [rule] + sorted[k..]) == multiset(sorted) + multiset{rule}
  {
    var longer := sorted[..k] + [rule] + sorted[k..];
    forall i, j | 0 <= i < j < |longer|
      ensures PyText.Before(longer[i].id, longer[j].id)
    {
      assert longer[i] == if i < k then sorted[i] else if i == k then rule else sorted[i - 1];
      assert longer[j] == if j < k then sorted[j] else if j == k then rule else sorted[j - 1];
    }
    assert sorted == sorted[..k] + sorted[k..];
  }

  lemma SameMembers<T>(a: seq<T>, b: seq<T>)
    requires multiset(a) == multiset(b)
    ensures forall x :: x in a <==> x in b
  {
    forall x
      ensures x in a <==> x in b
    {
      assert x in multiset(a) <==> x in multiset(b);
    }
  }

  /** `sorted(rules, key=rule_id)` for distinct identifiers. */
  method SortRules(rules: seq<Rule>) returns (sorted: seq<Rule>)
    requires DistinctRules(rules)
    ensures Ascending(sorted) && multiset(sorted) == multiset(rules)
  {
    sorted := [];
    for i := 0 to |rules|
      invariant Ascending(sorted) && multiset(sorted) == multiset(rules[..i])
    {
      SameMembers(sorted, rules[..i]);
      var k := InsertionPoint(sorted, rules[i].id);
      InsertAscending(sorted, k, rules[i]);
      sorted := sorted[..k] + [rules[i]] + sorted[k..];
      assert rules[..i + 1] == rules[..i] + [rules[i]];
    }
    assert rules[..|rules|] == rules;
  }

  ghost function ToolNames(tools: seq<(string, Operation)>): set<string> {
    set p | p in tools :: PyText.Strip(p.0)
  }

  /** The tool table: each stripped name with its operation. */
  ghost predicate ToolTable(tools: seq<(string, Operation)>, table: map<string, Operation>) {
    && (forall p | p in tools :: PyText.Strip(p.0) in table && table[PyText.Strip(p.0)] == p.1)
    && table.Keys == ToolNames(tools)
  }

  ghost predicate AcceptableTools(tools: seq<(string, Operation)>) {
    && (forall p | p in tools :: PyText.Strip(p.0) != "" && p.1 != Unknown)
    && (forall i, j | 0 <= i < j < |tools| :: PyText.Strip(tools[i].0) != PyText.Strip(tools[j].0))
  }

  lemma AddToTable(tools: seq<(string, Operation)>, table: map<string, Operation>, tool: (string, Operation))
    requires ToolTable(tools, table) && PyText.Strip(tool.0) !in table
    ensures ToolTable(tools + [tool], table[PyText.Strip(tool.0) := tool.1])
  {
    var more, name := tools + [tool], PyText.Strip(tool.0);
    assert tool in more && forall p | p in tools :: p in more;
    assert ToolNames(more) == ToolNames(tools) + {name};
    forall p | p in more
      ensures PyText.Strip(p.0) in table[name := tool.1] && table[name := tool.1][PyText.Strip(p.0)] == p.1
    {
      assert p in tools || p == tool;
    }
  }

  /** One more acceptable tool, under a new name. */
  lemma AddTool(tools: seq<(string, Operation)>, table: map<string, Operation>, tool: (string, Operation))
    requires AcceptableTools(tools) && ToolTable(tools, table)
    requires PyText.Strip(tool.0) !in {""} + table.Keys && tool.1 != Unknown
    ensures AcceptableTools(tools + [tool]) && ToolTable(tools + [tool], table[PyText.Strip(tool.0) := tool.1])
  {
    forall i | 0 <= i < |tools|
      ensures PyText.Strip(tools[i].0) != PyText.Strip(tool.0)
    {
      assert tools[i] in tools;
    }
    AddToTable(tools, table, tool);
  }

  /** The table of the tools, or what one of them is refused for. */
  function TableOf(tools: seq<(string, Operation)>): Result<map<string, Operation>, RegistryError> {
    if tools == [] then Ok(map[])
    else
      var n := |tools| - 1;
      match TableOf(tools[..n])
      case Err(e) => Err(e)
      case Ok(table) => WithTool(table, PyText.Strip(tools[n].0), tools[n].1)
  }

  function WithTool(table: map<string, Operation>, name: string, operation: Operation): Result<map<string, Operation>, RegistryError> {
    if name == "" then Err(BlankTool)
    else if operation == Unknown then Err(UnknownOperation)
    else if name in table then Err(DuplicateTool)
    else Ok(table[name := operation])
  }

  lemma {:induction false} TableIsExact(tools: seq<(string, Operation)>)
    ensures TableOf(tools).Ok? <==> AcceptableTools(tools)
    ensures TableOf(tools).Ok? ==> ToolTable(tools, TableOf(tools).value)
  {
    if tools != [] {
      var n := |tools| - 1;
      var first := tools[..n];
      assert tools == first + [tools[n]];
      TableIsExact(first);
      if TableOf(first).Ok? && TableOf(tools).Ok? {
        AddTool(first, TableOf(first).value, tools[n]);
      } else if TableOf(first).Ok? {
        Unacceptable(tools, TableOf(first).value);
      } else if AcceptableTools(tools) {
        FirstAcceptable(tools, n);
      }
    }
  }

  lemma Unacceptable(tools: seq<(string, Operation)>, table: map<string, Operation>)
    requires tools != [] && ToolTable(tools[..|tools| - 1], table)
    requires var tool := tools[|tools| - 1]; WithTool(table, PyText.Strip(tool.0), tool.1).Err?
    ensures !AcceptableTools(tools)
  {
    var n := |tools| - 1;
    assert tools[n] in tools;
    if PyText.Strip(tools[n].0) in table {
      var p :| p in tools[..n] && PyText.Strip(p.0) == PyText.Strip(tools[n].0);
      var k :| 0 <= k < n && tools[k] == p;
    }
  }

  lemma FirstAcceptable(tools: seq<(string, Operation)>, n: nat)
    requires n <= |tools| && AcceptableTools(tools)
    ensures AcceptableTools(tools[..n])
  {
    assert forall i | 0 <= i < n :: tools[..n][i] == tools[i];
  }

  lemma StaysRefused(tools: seq<(string, Operation)>, fewer: seq<(string, Operation)>)
    requires tools != [] && fewer == tools[..|tools| - 1] && TableOf(fewer).Err?
    ensures TableOf(tools) == TableOf(fewer)
  {
  }

  lemma {:induction false} RefusedEarly(tools: seq<(string, Operation)>, n: nat)
    requires n <= |tools| && TableOf(tools[..n]).Err?
    ensures TableOf(tools) == TableOf(tools[..n])
    decreases |tools|
  {
    if n < |tools| {
      var fewer := tools[..|tools| - 1];
      assert fewer[..n] == tools[..n];
      RefusedEarly(fewer, n);
      StaysRefused(tools, fewer);
    } else {
      assert tools[..n] == tools;
    }
  }

  /** The first tool that is refused, and what for: a blank name, an unknown operation, or a name that is taken. */
  ghost predicate FirstRefused(tools: seq<(string, Operation)>, i: nat, e: RegistryError) {
    && i < |tools| && AcceptableTools(tools[..i])
    && if PyText.Strip(tools[i].0) == "" then e == BlankTool
       else if tools[i].1 == Unknown then e == UnknownOperation
       else e == DuplicateTool && exists k :: 0 <= k < i && PyText.Strip(tools[k].0) == PyText.Strip(tools[i].0)
  }

  lemma {:induction false} NeverTheRules(tools: seq<(string, Operation)>)
    ensures TableOf(tools) != Err(DuplicateRule)
  {
    if tools != [] {
      NeverTheRules(tools[..|tools| - 1]);
    }
  }

  lemma LastIsRefused(tools: seq<(string, Operation)>, table: map<string, Operation>)
    requires tools != [] && AcceptableTools(tools[..|tools| - 1]) && ToolTable(tools[..|tools| - 1], table)
    requires var tool := tools[|tools| - 1]; WithTool(table, PyText.Strip(tool.0), tool.1).Err?
    ensures var tool := tools[|tools| - 1];
            FirstRefused(tools, |tools| - 1, WithTool(table, PyText.Strip(tool.0), tool.1).error)
  {
    var n := |tools| - 1;
    if PyText.Strip(tools[n].0) in table {
      var p :| p in tools[..n] && PyText.Strip(p.0) == PyText.Strip(tools[n].0);
      var k :| 0 <= k < n && tools[k] == p;
    }
  }

  lemma {:induction false} RefusalIsFirst(tools: seq<(string, Operation)>)
    requires TableOf(tools).Err?
    ensures exists i :: FirstRefused(tools, i, TableOf(tools).error)
  {
    var n := |tools| - 1;
    var first := tools[..n];
    TableIsExact(first);
    if TableOf(first).Err? {
      RefusalIsFirst(first);
      var i: nat :| FirstRefused(first, i, TableOf(first).error);
      assert first[..i] == tools[..i];
      assert FirstRefused(tools, i, TableOf(tools).error);
    } else {
      LastIsRefused(tools, TableOf(first).value);
    }
  }

  method BuildTools(tools: seq<(string, Operation)>) returns (r: Result<map<string, Operation>, RegistryError>)
    ensures r == TableOf(tools) && r != Err(DuplicateRule)
    ensures r.Ok? <==> AcceptableTools(tools)
    ensures r.Ok? ==> ToolTable(tools, r.value)
  {
    TableIsExact(tools);
    NeverTheRules(tools);
    var table: map<string, Operation> := map[];
    for i := 0 to |tools|
      invariant TableOf(tools[..i]) == Ok(table)
    {
      var (raw, operation) := tools[i];
      var name := PyText.Strip(raw);
      assert tools[..i + 1][..i] == tools[..i];
      if name == "" {
        RefusedEarly(tools, i + 1);
        return Err(BlankTool);
      }
      if operation == Unknown {
        RefusedEarly(tools, i + 1);
        return Err(UnknownOperation);
      }
      if name in table {
        RefusedEarly(tools, i + 1);
        return Err(DuplicateTool);
      }
      table := table[name := operation];
    }
    assert tools[..|tools|] == tools;
    return Ok(table);
  }

  method CreateRegistry(rules: seq<Rule>, tools: seq<(string, Operation)>) returns (r: Result<Registry, RegistryError>)
    ensures r.Ok? <==> DistinctRules(rules) && AcceptableTools(tools)
    ensures r.Ok? ==> Represents(r.value, rules, tools)
    ensures r == Err(DuplicateRule) <==> !DistinctRules(rules)
    ensures r.Err? && r.error != DuplicateRule ==> exists i :: FirstRefused(tools, i, r.error)
  {
    for i := 0 to |rules|
      invariant forall j, k | 0 <= j < k < i :: rules[j].id != rules[k].id
    {
      for j := 0 to i
        invariant forall k | 0 <= k < j :: rules[k].id != rules[i].id
      {
        if rules[j].id == rules[i].id {
          return Err(DuplicateRule);
        }
      }
    }
    var table := BuildTools(tools);
    if table.Err? {
      RefusalIsFirst(tools);
      return Err(table.error);
    }
    var sorted := SortRules(rules);
    return Ok(Registry(sorted, table.value));
  }

  /** A registry of the given rules and tools: the rules in ascending order, the tools under their stripped names. */
  ghost predicate Represents(r: Registry, rules: seq<Rule>, tools: seq<(string, Operation)>) {
    Ascending(r.rules) && multiset(r.rules) == multiset(rules) && ToolTable(tools, r.tools)
  }

  lemma SameFirst(a: seq<Rule>, b: seq<Rule>)
    requires Ascending(a) && Ascending(b) && a != [] && b != [] && forall r :: r in a <==> r in b
    ensures a[0] == b[0]
  {
    assert a[0] in b && b[0] in a;
    var i :| 0 <= i < |b| && b[i] == a[0];
    var j :| 0 <= j < |a| && a[j] == b[0];
    PyText.BeforeTotal(a[0].id, b[0].id);
  }

  lemma SameRests<T>(a: seq<T>, b: seq<T>)
    requires multiset(a) == multiset(b) && a != [] && b != [] && a[0] == b[0]
    ensures multiset(a[1..]) == multiset(b[1..])
  {
    assert a == [a[0]] + a[1..] && b == [b[0]] + b[1..];
    assert multiset(a[1..]) == multiset(a) - multiset{a[0]};
    assert multiset(b[1..]) == multiset(b) - multiset{b[0]};
  }

  lemma {:induction false} AscendingUnique(a: seq<Rule>, b: seq<Rule>)
    requires Ascending(a) && Ascending(b) && multiset(a) == multiset(b)
    ensures a == b
    decreases |a|
  {
    assert |a| == |multiset(a)| == |multiset(b)| == |b|;
    if a != [] {
      SameMembers(a, b);
      SameFirst(a, b);
      SameRests(a, b);
      AscendingUnique(a[1..], b[1..]);
      assert a == [a[0]] + a[1..] && b == [b[0]] + b[1..];
    }
  }

  /** The order in which rules and tools are given does not matter: the registries are equal. */
  lemma OrderIrrelevant(r: Registry, s: Registry, rules: seq<Rule>, rules': seq<Rule>,
                        tools: seq<(string, Operation)>, tools': seq<(string, Operation)>)
    requires Represents(r, rules, tools) && Represents(s, rules', tools')
    requires multiset(rules) == multiset(rules') && multiset(tools) == multiset(tools')
    ensures r == s
  {
    AscendingUnique(r.rules, s.rules);
    SameMembers(tools, tools');
    forall name | name in r.tools
      ensures name in s.tools && s.tools[name] == r.tools[name]
    {
      var p :| p in tools && PyText.Strip(p.0) == name;
    }
    forall name | name in s.tools
      ensures name in r.tools
    {
      var p :| p in tools' && PyText.Strip(p.0) == name;
    }
  }

  // ---- evaluation ----

  function Matched(rules: seq<Rule>, x: Context): seq<Rule> {
    if rules == [] then []
    else (if Matches(rules[0].condition, x) then [rules[0]] else []) + Matched(rules[1..], x)
  }

  function Strongest(rules: seq<Rule>): Effect
    requires rules != []
  {
    if |rules| == 1 then rules[0].effect else Stronger(rules[0].effect, Strongest(rules[1..]))
  }

  /** The engine's decision: the strongest effect of the matching rules, and denial when none matches. */
  function Evaluate(rules: seq<Rule>, x: Context): Effect {
    if Matched(rules, x) == [] then Deny else Strongest(Matched(rules, x))
  }

  lemma {:induction false} MatchedMembers(rules: seq<Rule>, x: Context)
    ensures forall r :: r in Matched(rules, x) <==> r in rules && Matches(r.condition, x)
  {
    if rules != [] {
      MatchedMembers(rules[1..], x);
      assert rules == [rules[0]] + rules[1..];
    }
  }

  lemma {:induction false} StrongestBounds(rules: seq<Rule>)
    requires rules != []
    ensures forall r | r in rules :: Precedence(r.effect) <= Precedence(Strongest(rules))
    ensures exists r :: r in rules && r.effect == Strongest(rules)
  {
    assert rules == [rules[0]] + rules[1..];
    assert rules[0] in rules;
    if |rules| > 1 {
      StrongestBounds(rules[1..]);
      var r :| r in rules[1..] && r.effect == Strongest(rules[1..]);
      assert r in rules;
    }
  }

  ghost predicate SomeMatch(rules: seq<Rule>, x: Context, e: Effect) {
    exists r :: r in rules && Matches(r.condition, x) && r.effect == e
  }

  /** A decision, stated by which rules match: it denies when nothing matches or a denying rule does, otherwise
      requires approval when such a rule matches, and otherwise allows. */
  lemma DecisionByMatches(rules: seq<Rule>, x: Context)
    ensures Evaluate(rules, x) == Deny <==>
            SomeMatch(rules, x, Deny) || !(SomeMatch(rules, x, RequireApproval) || SomeMatch(rules, x, Allow))
    ensures Evaluate(rules, x) == RequireApproval <==> !SomeMatch(rules, x, Deny) && SomeMatch(rules, x, RequireApproval)
  {
    MatchedMembers(rules, x);
    var matched := Matched(rules, x);
    if matched == [] {
      assert forall r :: r in rules ==> !Matches(r.condition, x);
    } else {
      StrongestBounds(matched);
      assert matched[0] in matched;
      var r :| r in matched && r.effect == Strongest(matched);
      assert SomeMatch(rules, x, r.effect);
    }
  }

  lemma MoreMatches(rules: seq<Rule>, added: Rule, more: seq<Rule>, x: Context, e: Effect)
    requires multiset(more) == multiset(rules + [added])
    ensures SomeMatch(more, x, e) <==> SomeMatch(rules, x, e) || (Matches(added.condition, x) && added.effect == e)
  {
    SameMembers(more, rules + [added]);
    if SomeMatch(rules, x, e) {
      var r :| r in rules && Matches(r.condition, x) && r.effect == e;
      assert r in rules + [added];
    }
    assert added in rules + [added];
  }

  lemma NothingMatches(rules: seq<Rule>, x: Context)
    ensures Matched(rules, x) == [] <==>
            !SomeMatch(rules, x, Deny) && !SomeMatch(rules, x, RequireApproval) && !SomeMatch(rules, x, Allow)
  {
    MatchedMembers(rules, x);
    if Matched(rules, x) != [] {
      var r := Matched(rules, x)[0];
      assert SomeMatch(rules, x, r.effect);
    }
  }

  /** Adding a rule changes a decision only if the rule matches; then it raises the decision to the rule's
      effect, except that the first matching rule replaces the default denial. */
  lemma AddingARule(rules: seq<Rule>, added: Rule, more: seq<Rule>, x: Context)
    requires multiset(more) == multiset(rules + [added])
    ensures Evaluate(more, x) ==
            if !Matches(added.condition, x) then Evaluate(rules, x)
            else if Matched(rules, x) == [] then added.effect
            else Stronger(Evaluate(rules, x), added.effect)
  {
    DecisionByMatches(rules, x);
    DecisionByMatches(more, x);
    NothingMatches(rules, x);
    MoreMatches(rules, added, more, x, Deny);
    MoreMatches(rules, added, more, x, RequireApproval);
    MoreMatches(rules, added, more, x, Allow);
  }

  /** In a context that matched something, adding a rule never loosens the decision. */
  lemma AddingNeverLoosens(rules: seq<Rule>, added: Rule, more: seq<Rule>, x: Context)
    requires multiset(more) == multiset(rules + [added]) && Matched(rules, x) != []
    ensures Precedence(Evaluate(rules, x)) <= Precedence(Evaluate(more, x))
  {
    AddingARule(rules, added, more, x);
  }
}
