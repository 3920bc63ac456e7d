/** The loop of a graph runtime: one node at a time, fed by its callbacks, until the state has ended. */
module GraphRuntime {
  /** `n` steps from `s`, the callbacks answering in turn from `from` on. */
  function Run<S, A>(step: (S, A) -> S, s: S, answers: nat -> A, from: nat, n: nat): S
    decreases n
  {
    if n == 0 then s else Run(step, step(s, answers(from)), answers, from + 1, n - 1)
  }

  lemma {:induction false} RunExtends<S, A>(step: (S, A) -> S, s: S, answers: nat -> A, from: nat, n: nat)
    ensures Run(step, s, answers, from, n + 1) == step(Run(step, s, answers, from, n), answers(from + n))
    decreases n
  {
    if n > 0 {
      RunExtends(step, step(s, answers(from)), answers, from + 1, n - 1);
    }
  }

  lemma FourSteps<S, A>(step: (S, A) -> S, s: S, answers: nat -> A, n: nat)
    ensures Run(step, s, answers, 0, n + 4)
         == Run(step, step(step(step(step(s, answers(0)), answers(1)), answers(2)), answers(3)), answers, 4, n)
  {
    var two := step(step(s, answers(0)), answers(1));
    assert Run(step, s, answers, 0, n + 4) == Run(step, two, answers, 2, n + 2);
    assert Run(step, two, answers, 2, n + 2) == Run(step, step(step(two, answers(2)), answers(3)), answers, 4, n);
  }

  /** What every step before the end keeps holds along the run, and a measure that every step lowers bounds it. */
  ghost predicate Progresses<S(!new), A(!new)>(step: (S, A) -> S, ended: S -> bool, keeps: S -> bool, left: S -> int) {
    forall s, a | keeps(s) && !ended(s) :: keeps(step(s, a)) && 0 <= left(step(s, a)) < left(s)
  }

  method Invoke<S(!new), A(!new)>(step: (S, A) -> S, ended: S -> bool, start: S, answers: nat -> A,
                                  ghost keeps: S -> bool, ghost left: S -> int)
    returns (s: S, steps: nat)
    requires Progresses(step, ended, keeps, left) && keeps(start) && 0 <= left(start)
    ensures s == Run(step, start, answers, 0, steps) && ended(s) && keeps(s)
    ensures steps <= left(start)
  {
    s, steps := start, 0;
    while !ended(s)
      invariant s == Run(step, start, answers, 0, steps) && keeps(s)
      invariant 0 <= left(s) && left(s) + steps <= left(start)
      decreases left(s)
    {
      RunExtends(step, start, answers, 0, steps);
      s, steps := step(s, answers(steps)), steps + 1;
    }
  }

  /** The same along every run, also when steps after the end change nothing. */
  lemma {:induction false} RunKeeps<S(!new), A(!new)>(step: (S, A) -> S, ended: S -> bool, start: S, answers: nat -> A, n: nat,
                                                      keeps: S -> bool, left: S -> int)
    requires Progresses(step, ended, keeps, left) && keeps(start)
    requires forall s, a | ended(s) :: step(s, a) == s
    ensures keeps(Run(step, start, answers, 0, n))
  {
    if n > 0 {
      RunKeeps(step, ended, start, answers, n - 1, keeps, left);
      RunExtends(step, start, answers, 0, n - 1);
    }
  }

  /** What the callbacks have said by step `n`, as `hear` adds it up. */
  function Heard<S, A, H>(step: (S, A) -> S, hear: (H, S, A) -> H, s: S, h: H, answers: nat -> A, n: nat): H {
    if n == 0 then h
    else hear(Heard(step, hear, s, h, answers, n - 1), Run(step, s, answers, 0, n - 1), answers(n - 1))
  }

  /** A state that holds what was said, and holds it after every step that does not end the run, does so until the end. */
  ghost predicate Recalls<S(!new), A(!new), H(!new)>(step: (S, A) -> S, hear: (H, S, A) -> H, ended: S -> bool, holds: (S, H) -> bool) {
    && (forall s, a | ended(s) :: ended(step(s, a)))
    && (forall s, a, h | holds(s, h) && !ended(step(s, a)) :: holds(step(s, a), hear(h, s, a)))
  }

  lemma {:induction false} HeardIsHeld<S(!new), A(!new), H(!new)>(step: (S, A) -> S, hear: (H, S, A) -> H, ended: S -> bool,
                                                                  holds: (S, H) -> bool, s: S, h: H, answers: nat -> A, n: nat)
    requires Recalls(step, hear, ended, holds) && holds(s, h) && !ended(Run(step, s, answers, 0, n))
    ensures holds(Run(step, s, answers, 0, n), Heard(step, hear, s, h, answers, n))
  {
    if n > 0 {
      RunExtends(step, s, answers, 0, n - 1);
      HeardIsHeld(step, hear, ended, holds, s, h, answers, n - 1);
    }
  }
}
