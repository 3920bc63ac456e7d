/** The quality graph: retrieval, grading and rewriting on one side, generating and checking on the other, both
    drawing on one iteration counter. */
module QualityGraph {
  import opened Outcomes
  import PyText
  import GraphRuntime

  datatype Intent = General | Knowledge | Topology | Monitoring | Hybrid

  datatype Node = QueryAnalyzer | Router | Retrieval | DocumentGrader | QueryRewrite | Generator | HallucinationChecker | End

  datatype Error = NodeRaised(node: Node) | MaxIterationsReached

  datatype Config = Config(threshold: real, maxIterations: nat, normal: string -> string)

  /** What the callback behind a node does: it raises, or it returns one of these. */
  datatype Answer =
    | Raises
    | Analyzed(intent: Intent)
    | Retrieved
    | Graded(score: real, gradeFeedback: string)
    | Rewritten(query: string)
    | Generated(text: string)
    | Checked(approved: bool, checkFeedback: string)

  datatype State = State(
    node: Node,
    intent: Intent,
    query: string,
    relevance: Option<real>,
    answer: string,
    iteration: nat,
    feedback: Option<string>,
    error: Option<Error>)

  /** A state with its history: completed retrievals and generations, and whether the checker approved the
      current answer. */
  datatype Progress = Progress(state: State, retrievals: nat, generations: nat, approved: bool)

  predicate ValidConfig(c: Config) {
    1 <= c.maxIterations <= 3 && 0.0 <= c.threshold <= 1.0
  }

  predicate NeedsGrading(intent: Intent) {
    intent == Knowledge || intent == Hybrid
  }

  predicate Low(c: Config, s: State) {
    s.relevance.None? || s.relevance.value < c.threshold
  }

  /** What is answered when a node failed, and when no evidence was good enough. */
  const FAILED_ANSWER := "Unable to complete the request after retries."
  const NO_EVIDENCE := "Unable to find sufficiently relevant evidence."

  // ---- the nodes, each with the edge that leaves it; None means that the node raises ----

  function Analyze(s: State, a: Answer): Option<State> {
    if a.Analyzed? && !PyText.IsBlank(s.query)
    then Some(State(Router, a.intent, PyText.Strip(s.query), None, "", 0, None, None))
    else None
  }

  function Retrieve(s: State, a: Answer): Option<State> {
    if a.Retrieved?
    then Some(s.(iteration := s.iteration + 1, relevance := None,
                 node := if NeedsGrading(s.intent) then DocumentGrader else Generator))
    else None
  }

  function Grade(c: Config, s: State, a: Answer): Option<State> {
    if !a.Graded? || !(0.0 <= a.score <= 1.0) then None
    else if a.score >= c.threshold then Some(s.(relevance := Some(a.score), error := None, node := Generator))
    else if PyText.IsBlank(a.gradeFeedback) then None
    else if s.iteration >= c.maxIterations
    then Some(s.(relevance := Some(a.score), answer := NO_EVIDENCE, error := Some(MaxIterationsReached), node := End))
    else Some(s.(relevance := Some(a.score), error := None, node := QueryRewrite))
  }

  function Rewrite(c: Config, s: State, a: Answer): Option<State> {
    if a.Rewritten? && !PyText.IsBlank(a.query) && c.normal(a.query) != c.normal(s.query)
    then Some(s.(query := PyText.Strip(a.query), node := Router))
    else None
  }

  predicate ConsumesIteration(s: State) {
    s.iteration == 0 || s.feedback.Some?
  }

  function Generate(s: State, a: Answer): Option<State> {
    if a.Generated? && !PyText.IsBlank(a.text)
    then Some(s.(answer := a.text, iteration := s.iteration + (if ConsumesIteration(s) then 1 else 0),
                 node := HallucinationChecker))
    else None
  }

  function Check(c: Config, s: State, a: Answer): Option<State> {
    if !a.Checked? then None
    else if a.approved then Some(s.(feedback := None, error := None, node := End))
    else if PyText.IsBlank(a.checkFeedback) then None
    else if s.iteration >= c.maxIterations
    then Some(s.(feedback := Some(a.checkFeedback), error := Some(MaxIterationsReached), node := End))
    else Some(s.(feedback := Some(a.checkFeedback), error := None, node := Generator))
  }

  function NodeUpdate(c: Config, s: State, a: Answer): Option<State> {
    match s.node
    case QueryAnalyzer => Analyze(s, a)
    case Router => Some(s.(node := if s.intent == General then Generator else Retrieval))
    case Retrieval => Retrieve(s, a)
    case DocumentGrader => Grade(c, s, a)
    case QueryRewrite => Rewrite(c, s, a)
    case Generator => Generate(s, a)
    case HallucinationChecker => Check(c, s, a)
    case End => Some(s)
  }

  /** The error handler: it keeps the state, records the failing node and ends the run. */
  function HandleError(s: State): State {
    s.(answer := if s.answer == "" then FAILED_ANSWER else s.answer, error := Some(NodeRaised(s.node)), node := End)
  }

  function Step(c: Config, p: Progress, a: Answer): Progress {
    var s := p.state;
    var update := NodeUpdate(c, s, a);
    if s.node == End then p
    else if update.None? then Progress(HandleError(s), p.retrievals, p.generations, false)
    else Progress(update.value,
                  p.retrievals + (if s.node == Retrieval then 1 else 0),
                  p.generations + (if s.node == Generator then 1 else 0),
                  s.node == HallucinationChecker && a.Checked? && a.approved)
  }

  function Initial(query: string): Progress {
    Progress(State(QueryAnalyzer, General, query, None, "", 0, None, None), 0, 0, false)
  }

  // ---- what every run keeps ----

  /** Both loops together spend the counter: every completed retrieval or generation takes one iteration, except
      the first generation after retrievals, which is free. */
  predicate Budget(p: Progress) {
    p.retrievals + p.generations == p.state.iteration + if p.retrievals > 0 && p.generations > 0 then 1 else 0
  }

  predicate Room(c: Config, s: State) {
    match s.node
    case QueryAnalyzer => s.iteration == 0
    case Router => s.iteration < c.maxIterations
    case Retrieval => s.iteration < c.maxIterations
    case QueryRewrite => s.iteration < c.maxIterations
    case Generator => if ConsumesIteration(s) then s.iteration < c.maxIterations else s.iteration <= c.maxIterations
    case _ => s.iteration <= c.maxIterations
  }

  predicate Phases(p: Progress) {
    var s := p.state;
    match s.node
    case QueryAnalyzer => p.retrievals == 0 && p.generations == 0 && s.feedback.None?
    case Router => p.generations == 0 && s.feedback.None? && (s.intent == General ==> p.retrievals == 0)
    case Retrieval => p.generations == 0 && s.feedback.None? && s.intent != General
    case DocumentGrader => p.generations == 0 && s.feedback.None? && NeedsGrading(s.intent) && p.retrievals > 0
    case QueryRewrite => p.generations == 0 && s.feedback.None? && NeedsGrading(s.intent)
    case Generator => (p.generations > 0 <==> s.feedback.Some?) && (s.intent == General <==> p.retrievals == 0)
    case HallucinationChecker => p.generations > 0 && (s.intent == General <==> p.retrievals == 0)
    case End => true
  }

  predicate Inv(c: Config, p: Progress) {
    && Budget(p) && Room(c, p.state) && Phases(p)
    && (p.state.node != End ==> p.state.error.None? && !p.approved)
    && (p.state.node == End ==> (p.state.error.None? <==> p.approved))
    && (NeedsGrading(p.state.intent) && (p.state.node == Generator || p.state.node == HallucinationChecker || p.approved) ==>
          !Low(c, p.state))
    && (p.approved ==> p.generations > 0 && !PyText.IsBlank(p.state.answer))
    && (p.state.node == HallucinationChecker ==> !PyText.IsBlank(p.state.answer))
  }

  /** Steps that can still follow. */
  function StepsLeft(c: Config, s: State): int {
    var left := 4 * (c.maxIterations - s.iteration);
    match s.node
    case QueryAnalyzer => left + 2
    case Router => left + 1
    case Retrieval => left
    case DocumentGrader => left + 3
    case QueryRewrite => left + 2
    case Generator => if ConsumesIteration(s) then left else left + 2
    case HallucinationChecker => left + 1
    case End => 0
  }

  /** A node is about to run and does not fail. */
  predicate Runs(c: Config, p: Progress, a: Answer, node: Node) {
    ValidConfig(c) && Inv(c, p) && p.state.node == node && NodeUpdate(c, p.state, a).Some?
  }

  /** A step keeps the invariant and brings the end nearer. */
  predicate Advances(c: Config, p: Progress, next: Progress) {
    Inv(c, next) && 0 <= StepsLeft(c, next.state) < StepsLeft(c, p.state)
  }

  lemma QueryAnalyzerKeepsInv(c: Config, p: Progress, a: Answer)
    requires Runs(c, p, a, QueryAnalyzer)
    ensures Advances(c, p, Step(c, p, a))
  {
  }

  lemma RouterKeepsInv(c: Config, p: Progress, a: Answer)
    requires Runs(c, p, a, Router)
    ensures Advances(c, p, Step(c, p, a))
  {
  }

  lemma RetrievalKeepsInv(c: Config, p: Progress, a: Answer)
    requires Runs(c, p, a, Retrieval)
    ensures Advances(c, p, Step(c, p, a))
  {
  }

  lemma DocumentGraderKeepsInv(c: Config, p: Progress, a: Answer)
    requires Runs(c, p, a, DocumentGrader)
    ensures Advances(c, p, Step(c, p, a))
  {
  }

  lemma QueryRewriteKeepsInv(c: Config, p: Progress, a: Answer)
    requires Runs(c, p, a, QueryRewrite)
    ensures Advances(c, p, Step(c, p, a))
  {
  }

  lemma GeneratorKeepsInv(c: Config, p: Progress, a: Answer)
    requires Runs(c, p, a, Generator)
    ensures Advances(c, p, Step(c, p, a))
  {
  }

  lemma HallucinationCheckerKeepsInv(c: Config, p: Progress, a: Answer)
    requires Runs(c, p, a, HallucinationChecker)
    ensures Advances(c, p, Step(c, p, a))
  {
  }

  lemma StepKeepsInv(c: Config, p: Progress, a: Answer)
    requires ValidConfig(c) && Inv(c, p) && p.state.node != End
    ensures Advances(c, p, Step(c, p, a))
  {
    if NodeUpdate(c, p.state, a).Some? {
      match p.state.node
      case QueryAnalyzer => QueryAnalyzerKeepsInv(c, p, a);
      case Router => RouterKeepsInv(c, p, a);
      case Retrieval => RetrievalKeepsInv(c, p, a);
      case DocumentGrader => DocumentGraderKeepsInv(c, p, a);
      case QueryRewrite => QueryRewriteKeepsInv(c, p, a);
      case Generator => GeneratorKeepsInv(c, p, a);
      case HallucinationChecker => HallucinationCheckerKeepsInv(c, p, a);
    }
  }

  lemma FinalState(c: Config, p: Progress)
    requires Inv(c, p) && p.state.node == End
    ensures p.state.iteration <= c.maxIterations && p.retrievals + p.generations <= c.maxIterations + 1
    ensures p.state.error.None? <==> p.approved
    ensures p.approved ==> p.generations > 0 && !PyText.IsBlank(p.state.answer)
    ensures p.approved && NeedsGrading(p.state.intent) ==> p.state.relevance.Some? && p.state.relevance.value >= c.threshold
  {
  }

  /** The whole run, as far as `n` steps. */
  function Run(c: Config, p: Progress, answers: nat -> Answer, from: nat, n: nat): Progress {
    GraphRuntime.Run(Stepper(c), p, answers, from, n)
  }

  function Stepper(c: Config): (Progress, Answer) -> Progress {
    (p, a) => Step(c, p, a)
  }

  function Keeping(c: Config): Progress -> bool {
    p => Inv(c, p)
  }

  function Measure(c: Config): Progress -> int {
    (p: Progress) => StepsLeft(c, p.state)
  }

  predicate HasEnded(p: Progress) {
    p.state.node == End
  }

  lemma GraphProgresses(c: Config)
    requires ValidConfig(c)
    ensures GraphRuntime.Progresses(Stepper(c), HasEnded, Keeping(c), Measure(c))
  {
    forall q: Progress, a: Answer | Inv(c, q) && q.state.node != End
      ensures Inv(c, Step(c, q, a)) && 0 <= StepsLeft(c, Step(c, q, a).state) < StepsLeft(c, q.state)
    {
      StepKeepsInv(c, q, a);
    }
  }

  /** Every state on the way is within the budget, and the counts are conserved: each completed retrieval or
      generation has taken one iteration, except the first generation after a retrieval. */
  lemma BudgetAlong(c: Config, query: string, answers: nat -> Answer, n: nat)
    requires ValidConfig(c)
    ensures Budget(Run(c, Initial(query), answers, 0, n))
    ensures Run(c, Initial(query), answers, 0, n).state.iteration <= c.maxIterations
  {
    GraphProgresses(c);
    GraphRuntime.RunKeeps(Stepper(c), HasEnded, Initial(query), answers, n, Keeping(c), Measure(c));
  }

  /** One invocation of the graph, whatever the callbacks do: it ends, within four steps an iteration and two more;
      both loops together complete at most one retrieval or generation beyond the limit; and it ends without an
      error exactly when the checker approved the answer it returns. For the intents that are graded, that answer
      comes from evidence that reached the threshold. */
  method Invoke(c: Config, query: string, answers: nat -> Answer) returns (p: Progress, steps: nat)
    requires ValidConfig(c)
    ensures p == Run(c, Initial(query), answers, 0, steps) && p.state.node == End
    ensures steps <= 4 * c.maxIterations + 2
    ensures p.state.iteration <= c.maxIterations
    ensures p.retrievals + p.generations <= c.maxIterations + 1
    ensures p.state.error.None? <==> p.approved
    ensures p.approved ==> p.generations > 0 && !PyText.IsBlank(p.state.answer)
    ensures p.approved && NeedsGrading(p.state.intent) ==> p.state.relevance.Some? && p.state.relevance.value >= c.threshold
  {
    GraphProgresses(c);
    p, steps := GraphRuntime.Invoke(Stepper(c), HasEnded, Initial(query), answers, Keeping(c), Measure(c));
    FinalState(c, p);
  }

  // ---- the bound is tight ----

  /** One retrieval, then an answer in every odd step and a verdict in every even one: rejections up to the limit. */
  function Stubborn(limit: nat, word: string, n: nat): Answer {
    if n == 0 then Analyzed(Topology)
    else if n == 2 then Retrieved
    else if n % 2 == 1 then Generated(word)
    else Checked(n >= 2 * limit + 2, word)
  }

  predicate Tried(p: Progress, i: nat) {
    p.state.node == HallucinationChecker && p.state.iteration == i && p.retrievals == 1 && p.generations == i
  }

  predicate ApprovedAfter(p: Progress, i: nat) {
    p.state.node == End && p.approved && p.retrievals == 1 && p.generations == i
  }

  /** What a rejection followed by a new answer does below the limit, and what an approval does. */
  ghost predicate Retries(step: (Progress, Answer) -> Progress, limit: nat, word: string) {
    && (forall p, i: nat | Tried(p, i) && i < limit :: Tried(step(step(p, Checked(false, word)), Generated(word)), i + 1))
    && (forall p | Tried(p, limit) :: ApprovedAfter(step(p, Checked(true, word)), limit))
  }

  lemma GraphRetries(c: Config, word: string)
    requires !PyText.IsBlank(word)
    ensures Retries(Stepper(c), c.maxIterations, word)
  {
  }

  lemma {:induction false} StubbornRun(step: (Progress, Answer) -> Progress, limit: nat, word: string, answers: nat -> Answer,
                                       p: Progress, i: nat, from: nat, n: nat)
    requires Retries(step, limit, word) && forall k :: answers(k) == Stubborn(limit, word, k)
    requires 1 <= i <= limit && Tried(p, i) && from == 2 * i + 2 && n == 2 * (limit - i) + 1
    ensures ApprovedAfter(GraphRuntime.Run(step, p, answers, from, n), limit)
    decreases n
  {
    assert from % 2 == 0 && (from + 1) % 2 == 1;
    if i < limit {
      assert answers(from) == Checked(false, word) && answers(from + 1) == Generated(word);
      var again := step(step(p, Checked(false, word)), Generated(word));
      StubbornRun(step, limit, word, answers, again, i + 1, from + 2, n - 2);
    } else {
      assert answers(from) == Checked(true, word);
    }
  }

  /** The state in which the first answer is to be checked. */
  function FirstTry(c: Config, query: string, word: string): Progress {
    Step(c, Step(c, Step(c, Step(c, Initial(query), Analyzed(Topology)), Generated(word)), Retrieved), Generated(word))
  }

  lemma FirstAnswer(c: Config, query: string, word: string)
    requires ValidConfig(c) && !PyText.IsBlank(query) && !PyText.IsBlank(word)
    ensures Tried(FirstTry(c, query, word), 1)
  {
  }

  lemma FourSteps(c: Config, query: string, word: string, answers: nat -> Answer, n: nat)
    requires forall k :: answers(k) == Stubborn(c.maxIterations, word, k)
    ensures Run(c, Initial(query), answers, 0, n + 4) == Run(c, FirstTry(c, query, word), answers, 4, n)
  {
    GraphRuntime.FourSteps(Stepper(c), Initial(query), answers, n);
  }

  /** The bound is reached: under every configuration some run ends approved after exactly one retrieval or
      generation more than the limit. */
  lemma BoundIsReached(c: Config, query: string, word: string, answers: nat -> Answer)
    requires ValidConfig(c) && !PyText.IsBlank(query) && !PyText.IsBlank(word)
    requires forall k :: answers(k) == Stubborn(c.maxIterations, word, k)
    ensures var p := Run(c, Initial(query), answers, 0, 2 * c.maxIterations + 3);
            p.state.node == End && p.approved && p.retrievals + p.generations == c.maxIterations + 1
  {
    var n := 2 * c.maxIterations - 1;
    GraphRetries(c, word);
    FourSteps(c, query, word, answers, n);
    FirstAnswer(c, query, word);
    StubbornRun(Stepper(c), c.maxIterations, word, answers, FirstTry(c, query, word), 1, 4, n);
  }
}
