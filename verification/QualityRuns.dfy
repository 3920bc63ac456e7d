/** What a run of the quality graph remembers and how it ends, stated by what its callbacks said. */
module QualityRuns {
  import opened Outcomes
  import PyText
  import GraphRuntime
  import opened QualityGraph

  // ---- what the state remembers ----

  /** The last thing each callback said in time for the state to keep: the intent and the query in use, the last answer, the
      last score since the last retrieval, and the last rejection. */
  datatype Told = Told(intent: Intent, query: string, text: string, score: Option<real>, rejection: Option<string>)

  /** What is told when a node's callback answers. */
  function Hear(h: Told, node: Node, a: Answer): Told {
    match a
    case Analyzed(intent) => if node == QueryAnalyzer then Told(intent, PyText.Strip(h.query), "", None, None) else h
    case Retrieved => if node == Retrieval then h.(score := None) else h
    case Graded(score, _) => if node == DocumentGrader then h.(score := Some(score)) else h
    case Rewritten(query) => if node == QueryRewrite then h.(query := PyText.Strip(query)) else h
    case Generated(text) => if node == Generator then h.(text := text) else h
    case Checked(approved, feedback) =>
      if node == HallucinationChecker then h.(rejection := if approved then None else Some(feedback)) else h
    case Raises => h
  }

  function Hearing(): (Told, Progress, Answer) -> Told {
    (h: Told, p: Progress, a: Answer) => Hear(h, p.state.node, a)
  }

  /** What `n` steps have told. */
  function ToldBy(c: Config, query: string, answers: nat -> Answer, n: nat): Told {
    GraphRuntime.Heard(Stepper(c), Hearing(), Initial(query), Told(General, query, "", None, None), answers, n)
  }

  /** The state holds exactly what was told. */
  predicate Remembers(s: State, h: Told) {
    (s.intent, s.query, s.relevance, s.answer, s.feedback) == (h.intent, h.query, h.score, h.text, h.rejection)
  }

  function Remembering(): (Progress, Told) -> bool {
    (p: Progress, h: Told) => Remembers(p.state, h)
  }

  lemma StepRemembers(c: Config, p: Progress, a: Answer, h: Told)
    requires Remembers(p.state, h) && Step(c, p, a).state.node != End
    ensures Remembers(Step(c, p, a).state, Hear(h, p.state.node, a))
  {
  }

  lemma GraphRecalls(c: Config)
    ensures GraphRuntime.Recalls(Stepper(c), Hearing(), HasEnded, Remembering())
  {
    forall p: Progress, a, h | Remembers(p.state, h) && Step(c, p, a).state.node != End
      ensures Remembers(Step(c, p, a).state, Hear(h, p.state.node, a))
    {
      StepRemembers(c, p, a, h);
    }
  }

  /** Until it ends, a run works with the intent, the query, the score, the answer and the rejection that its callbacks
      gave last. */
  lemma StateRemembers(c: Config, query: string, answers: nat -> Answer, n: nat)
    requires !HasEnded(Run(c, Initial(query), answers, 0, n))
    ensures Remembers(Run(c, Initial(query), answers, 0, n).state, ToldBy(c, query, answers, n))
  {
    GraphRecalls(c);
    GraphRuntime.HeardIsHeld(Stepper(c), Hearing(), HasEnded, Remembering(), Initial(query), Told(General, query, "", None, None), answers, n);
  }

  // ---- where it goes ----

  /** A callback's answer that its node refuses, the callback's own failure included. */
  predicate Refused(c: Config, s: State, a: Answer) {
    match s.node
    case QueryAnalyzer => !a.Analyzed? || PyText.IsBlank(s.query)
    case Retrieval => !a.Retrieved?
    case DocumentGrader => !a.Graded? || a.score < 0.0 || a.score > 1.0 || (a.score < c.threshold && PyText.IsBlank(a.gradeFeedback))
    case QueryRewrite => !a.Rewritten? || PyText.IsBlank(a.query) || c.normal(a.query) == c.normal(s.query)
    case Generator => !a.Generated? || PyText.IsBlank(a.text)
    case HallucinationChecker => !a.Checked? || (!a.approved && PyText.IsBlank(a.checkFeedback))
    case _ => false
  }

  /** The edges of the graph. */
  predicate Edge(c: Config, s: State, a: Answer, next: Node) {
    match s.node
    case QueryAnalyzer => next == Router
    case Router => next == if s.intent == General then Generator else Retrieval
    case Retrieval => next == if s.intent in {Knowledge, Hybrid} then DocumentGrader else Generator
    case DocumentGrader =>
      a.Graded? && next == if a.score >= c.threshold then Generator else if s.iteration < c.maxIterations then QueryRewrite else End
    case QueryRewrite => next == Router
    case Generator => next == HallucinationChecker
    case HallucinationChecker => a.Checked? && next == if a.approved || s.iteration >= c.maxIterations then End else Generator
    case End => next == End
  }

  /** A refused answer ends the run with the failing node on record and the last answer, or an apology when there is
      none; any other answer follows the edges. */
  lemma StepFollowsEdges(c: Config, p: Progress, a: Answer)
    requires p.state.node != End
    ensures var next := Step(c, p, a).state;
            if Refused(c, p.state, a) then
              && next.node == End && next.error == Some(NodeRaised(p.state.node))
              && next.answer == if p.state.answer == "" then "Unable to complete the request after retries." else p.state.answer
            else Edge(c, p.state, a, next.node)
  {
  }

  /** How a run ends when the callback behind `s` answers `a` and what was told before is `told`. */
  predicate EndsFor(c: Config, s: State, a: Answer, told: Told, end: State) {
    if Refused(c, s, a) then
      && end.error == Some(NodeRaised(s.node))
      && end.answer == if told.text == "" then "Unable to complete the request after retries." else told.text
    else if s.node == HallucinationChecker && a.Checked? && a.approved then end.error.None? && end.answer == told.text
    else
      && end.error == Some(MaxIterationsReached) && end.iteration >= c.maxIterations
      && (if s.node == DocumentGrader
          then a.Graded? && a.score < c.threshold && end.answer == "Unable to find sufficiently relevant evidence."
          else s.node == HallucinationChecker && end.answer == told.text)
  }

  lemma StepEnds(c: Config, p: Progress, a: Answer, told: Told)
    requires Remembers(p.state, told) && p.state.node != End && Step(c, p, a).state.node == End
    ensures EndsFor(c, p.state, a, told, Step(c, p, a).state)
  {
    StepFollowsEdges(c, p, a);
  }

  /** How every run ends: by an approval, whose answer is the last one generated; by a low score or a rejection with no
      iteration left; or by an answer that its node refuses. */
  lemma EndsBecause(c: Config, query: string, answers: nat -> Answer, n: nat, before: Progress)
    requires before == Run(c, Initial(query), answers, 0, n) && !HasEnded(before)
    ensures var end := Step(c, before, answers(n));
            HasEnded(end) ==> EndsFor(c, before.state, answers(n), ToldBy(c, query, answers, n), end.state)
  {
    StateRemembers(c, query, answers, n);
    if HasEnded(Step(c, before, answers(n))) {
      StepEnds(c, before, answers(n), ToldBy(c, query, answers, n));
    }
  }
}
