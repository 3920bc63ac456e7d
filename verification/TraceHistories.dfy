/** Whole runs of the interleaved span store: they end, and the sequential store explains every answer. */
module TraceHistories {
  import opened Outcomes
  import opened Spans
  import opened TraceStore
  import opened TraceTransactions

  // ---- nothing waits for ever ----

  ghost predicate CanAdvance(hash: Series -> int, db: Database, t: TxnId, id: SpanId) {
    t in db.txns && TxnStep(hash, db, t, db.txns[t], id).Some?
  }

  /** While a transaction is unfinished, some transaction can take its next step: there is no deadlock. */
  lemma SomeoneCanStep(hash: Series -> int, db: Database, t: TxnId, id: SpanId)
    requires Inv(hash, db) && t in db.txns && !Ended(db.txns[t]) && Unused(db, id)
    ensures exists u :: CanAdvance(hash, db, u, id) && !Ended(db.txns[u])
  {
    if u: TxnId :| u in db.txns && (db.txns[u].phase.Inserted? || db.txns[u].phase.RowLocked?) {
      WriterCanCommit(hash, db, u, id);
    } else if u: TxnId :| u in db.txns && HoldsAdvisory(db.txns[u]) {
      assert CanAdvance(hash, db, u, id);
    } else {
      assert TxnOk(db.rows, db.txns[t]);
      assert CanAdvance(hash, db, t, id);
    }
  }

  lemma WriterCanCommit(hash: Series -> int, db: Database, u: TxnId, id: SpanId)
    requires Inv(hash, db) && u in db.txns && (db.txns[u].phase.Inserted? || db.txns[u].phase.RowLocked?)
    ensures CanAdvance(hash, db, u, id) && !Ended(db.txns[u])
  {
    var x := db.txns[u];
    assert TxnOk(db.rows, x);
    if x.phase.RowLocked? {
      var k: nat :| RowIs(db.rows, k, x.phase.before);
      FindIdUnique(db.rows, x.job.finish.id, k);
    }
  }

  function Remaining(p: Phase): nat {
    match p
    case Begun => 7
    case Searched => 6
    case Fitted => 5
    case Locked => 4
    case Counted(_) => 3
    case Inserted(_) => 2
    case Conflicted => 2
    case RowLocked(_) => 2
    case _ => 0
  }

  /** A step that is not a wait. */
  ghost predicate Real(hash: Series -> int, db: Database, m: Move) {
    m.t in db.txns && !Ended(db.txns[m.t]) && (m.Advance? ==> CanAdvance(hash, db, m.t, m.id))
  }

  /** Such a step brings its transaction nearer to its end and touches no other. */
  lemma StepsRunOut(hash: Series -> int, db: Database, m: Move)
    requires Real(hash, db, m)
    ensures var after := Step(hash, db, m);
            && after.txns.Keys == db.txns.Keys
            && Remaining(after.txns[m.t].phase) < Remaining(db.txns[m.t].phase)
            && forall u | u in db.txns && u != m.t :: after.txns[u] == db.txns[u]
  {
  }

  /** The steps that all transactions together still have. */
  ghost function Total(txns: map<TxnId, Txn>): nat
    decreases |txns|
  {
    if txns == map[] then 0
    else
      var t :| t in txns;
      Remaining(txns[t].phase) + Total(txns - {t})
  }

  lemma {:induction false} TotalOf(txns: map<TxnId, Txn>, t: TxnId)
    requires t in txns
    ensures Total(txns) == Remaining(txns[t].phase) + Total(txns - {t})
    decreases |txns|
  {
    var u :| u in txns && Total(txns) == Remaining(txns[u].phase) + Total(txns - {u});
    if u != t {
      TotalOf(txns - {u}, t);
      TotalOf(txns - {t}, u);
      assert txns - {u} - {t} == txns - {t} - {u};
    }
  }

  lemma RealStepLowers(hash: Series -> int, db: Database, m: Move)
    requires Real(hash, db, m)
    ensures Total(Step(hash, db, m).txns) < Total(db.txns)
  {
    var after := Step(hash, db, m);
    StepsRunOut(hash, db, m);
    TotalOf(db.txns, m.t);
    TotalOf(after.txns, m.t);
    assert after.txns - {m.t} == db.txns - {m.t};
  }

  ghost predicate AllReal(hash: Series -> int, db: Database, moves: seq<Move>)
    decreases |moves|
  {
    moves == [] || (Real(hash, db, moves[0]) && AllReal(hash, Step(hash, db, moves[0]), moves[1..]))
  }

  /** No schedule takes more real steps than the transactions have. */
  lemma {:induction false} StepsAreBounded(hash: Series -> int, db: Database, moves: seq<Move>)
    requires AllReal(hash, db, moves)
    ensures |moves| + Total(Run(hash, db, moves).txns) <= Total(db.txns)
    decreases |moves|
  {
    if moves != [] {
      RealStepLowers(hash, db, moves[0]);
      StepsAreBounded(hash, Step(hash, db, moves[0]), moves[1..]);
    }
  }

  ghost predicate AllEnded(db: Database) {
    forall t | t in db.txns :: Ended(db.txns[t])
  }

  ghost function Ids(db: Database): set<SpanId> {
    (set s | s in db.rows :: s.id) + (set t | t in db.txns && db.txns[t].phase.Inserted? :: db.txns[t].phase.span.id)
  }

  lemma {:induction false} FreshNumber(used: set<nat>) returns (n: nat)
    ensures forall k | k in used :: k < n
    decreases |used|
  {
    n := 0;
    if used != {} {
      var k :| k in used;
      var m := FreshNumber(used - {k});
      n := if m > k then m else k + 1;
      assert forall j | j in used :: j == k || j in used - {k};
    }
  }

  lemma SomeUnused(db: Database) returns (id: SpanId)
    ensures Unused(db, id)
  {
    id := FreshNumber(Ids(db));
    forall k | 0 <= k < |db.rows|
      ensures db.rows[k].id != id
    {
      assert db.rows[k] in db.rows && db.rows[k].id in Ids(db);
    }
    FindIdUnique(db.rows, id, |db.rows|);
    assert forall t | t in db.txns && db.txns[t].phase.Inserted? :: db.txns[t].phase.span.id in Ids(db);
  }

  lemma NextMove(hash: Series -> int, db: Database, t: TxnId) returns (m: Move)
    requires Inv(hash, db) && t in db.txns && !Ended(db.txns[t])
    ensures Real(hash, db, m) && m.Advance?
    ensures Inv(hash, Step(hash, db, m)) && Total(Step(hash, db, m).txns) < Total(db.txns)
  {
    var id := SomeUnused(db);
    SomeoneCanStep(hash, db, t, id);
    var u :| CanAdvance(hash, db, u, id) && !Ended(db.txns[u]);
    m := Advance(u, id);
    RealStepLowers(hash, db, m);
    StepKeepsInv(hash, db, m);
  }

  /** No transaction can take its next step exactly when all have ended; none is left waiting for an abort. */
  lemma StuckMeansEnded(hash: Series -> int, db: Database)
    requires Inv(hash, db)
    ensures AllEnded(db) <==> forall m: Move | m.Advance? :: !Real(hash, db, m)
  {
    if t :| t in db.txns && !Ended(db.txns[t]) {
      var m := NextMove(hash, db, t);
    }
  }

  predicate NoAborts(moves: seq<Move>) {
    forall i | 0 <= i < |moves| :: moves[i].Advance?
  }

  /** A schedule without aborts that ends every transaction within the steps that are left. */
  ghost predicate EndsAll(hash: Series -> int, db: Database, moves: seq<Move>) {
    NoAborts(moves) && AllReal(hash, db, moves) && AllEnded(Run(hash, db, moves)) && |moves| <= Total(db.txns)
  }

  lemma NothingLeft(hash: Series -> int, db: Database)
    requires AllEnded(db)
    ensures EndsAll(hash, db, [])
  {
  }

  lemma FirstMove(hash: Series -> int, db: Database, m: Move, rest: seq<Move>)
    requires Real(hash, db, m) && m.Advance? && EndsAll(hash, Step(hash, db, m), rest)
    requires Total(Step(hash, db, m).txns) < Total(db.txns)
    ensures EndsAll(hash, db, [m] + rest)
  {
    assert ([m] + rest)[0] == m && ([m] + rest)[1..] == rest;
  }

  /** From every reachable state there is such a schedule. */
  lemma {:induction false} EveryoneCanEnd(hash: Series -> int, db: Database)
    requires Inv(hash, db)
    ensures exists moves :: EndsAll(hash, db, moves)
    decreases Total(db.txns)
  {
    if AllEnded(db) {
      NothingLeft(hash, db);
    } else {
      var t :| t in db.txns && !Ended(db.txns[t]);
      var m := NextMove(hash, db, t);
      EveryoneCanEnd(hash, Step(hash, db, m));
      var rest :| EndsAll(hash, Step(hash, db, m), rest);
      FirstMove(hash, db, m, rest);
    }
  }

  // ---- the sequential store explains every answer ----

  /** One answered call of the sequential store: an error stands for a refusal. */
  datatype Served = Served(t: TxnId, job: Job, id: SpanId, answer: Result<Span, StoreError>)

  function Serve(rows: seq<Span>, s: Served): (Result<Span, StoreError>, seq<Span>) {
    if s.job.StartJob? then Insert(rows, s.job.start, s.id) else Finish(rows, s.job.finish)
  }

  /** How a transaction answers its caller in the end. */
  function Answer(x: Txn): Option<Result<Span, StoreError>> {
    match x.phase
    case Done(Ok(s)) => Some(Ok(s))
    case Done(Err(Refused(e))) => Some(Err(e))
    case _ => None
  }

  /** A start is refused for its parent some steps after its first read, but the refusal is already true there. */
  predicate WillBeRefused(x: Txn, after: Txn, last: Txn) {
    x.job.StartJob? && x.phase.Begun? && after.phase.Searched? && Answer(last) == Some(Err(ParentMismatch))
  }

  /** The call that is answered at a step of a run that ends in `last`: when the step gives a span, when it refuses
      a finish, and when it is the first read of a start that will be refused. */
  function Answered(hash: Series -> int, db: Database, m: Move, last: Database): seq<Served> {
    if m.t in db.txns && m.t in last.txns && !Ended(db.txns[m.t]) then
      var x, after := db.txns[m.t], Step(hash, db, m).txns[m.t];
      if after.phase.Done? && after.phase.r.Ok? then [Served(m.t, x.job, after.phase.r.value.id, Ok(after.phase.r.value))]
      else if x.job.FinishJob? && Answer(after).Some? then [Served(m.t, x.job, 0, Answer(after).value)]
      else if WillBeRefused(x, after, last.txns[m.t]) then [Served(m.t, x.job, 0, Err(ParentMismatch))]
      else []
    else []
  }

  /** The answered calls of a run that ends in `last`, in the order of those steps. */
  function Log(hash: Series -> int, db: Database, moves: seq<Move>, last: Database): seq<Served>
    decreases |moves|
  {
    if moves == [] then []
    else Answered(hash, db, moves[0], last) + Log(hash, Step(hash, db, moves[0]), moves[1..], last)
  }

  /** The sequential store, served the calls in this order, gives these answers and ends with these rows. */
  ghost predicate Explains(rows: seq<Span>, log: seq<Served>, end: seq<Span>)
    decreases |log|
  {
    if log == [] then rows == end
    else Serve(rows, log[0]).0 == log[0].answer && Explains(Serve(rows, log[0]).1, log[1..], end)
  }

  /** The answer at a step is the sequential store's on the rows committed by then, with the same rows afterwards;
      without one the rows stay as they are. */
  ghost predicate ServedAt(rows: seq<Span>, answered: seq<Served>, after: seq<Span>) {
    if answered == [] then after == rows else Serve(rows, answered[0]) == (answered[0].answer, after)
  }

  lemma ExplainsCons(rows: seq<Span>, first: seq<Served>, rest: seq<Served>, mid: seq<Span>, end: seq<Span>)
    requires |first| <= 1 && Explains(mid, rest, end) && ServedAt(rows, first, mid)
    ensures Explains(rows, first + rest, end)
  {
    if first == [] {
      assert first + rest == rest;
    } else {
      assert (first + rest)[0] == first[0] && (first + rest)[1..] == rest;
    }
  }

  lemma StartAnswers(hash: Series -> int, db: Database, t: TxnId, id: SpanId)
    requires Inv(hash, db) && t in db.txns && db.txns[t].job.StartJob? && StartStep(hash, db, t, db.txns[t], id).Some?
    ensures var (rows, phase) := StartStep(hash, db, t, db.txns[t], id).value;
            if phase.Done? && phase.r.Ok? then Insert(db.rows, db.txns[t].job.start, phase.r.value.id) == (Ok(phase.r.value), rows)
            else rows == db.rows
  {
    var x := db.txns[t];
    assert TxnOk(db.rows, x);
    if x.phase.Inserted? {
      var q, span := x.job.start, x.phase.span;
      assert FindId(db.rows, span.id) == |db.rows|;
      assert q.key.Some? ==> FindKey(db.rows, q.incident, q.key.value).None?;
    }
  }

  lemma FinishAnswers(hash: Series -> int, db: Database, t: TxnId)
    requires Inv(hash, db) && t in db.txns && db.txns[t].job.FinishJob? && !Ended(db.txns[t])
    requires FinishStep(db, t, db.txns[t]).Some?
    ensures var (rows, phase) := FinishStep(db, t, db.txns[t]).value;
            match Answer(db.txns[t].(phase := phase))
            case Some(r) => Finish(db.rows, db.txns[t].job.finish) == (r, rows)
            case None => rows == db.rows
  {
    if db.txns[t].phase.RowLocked? {
      CommitFinish(hash, db, t);
      assert TxnOk(db.rows, db.txns[t]);
    }
  }

  // ---- a parent that fits keeps fitting ----

  /** A start past its first read that is not going to be refused. */
  predicate Admitted(rows: seq<Span>, x: Txn) {
    && x.job.StartJob? && !x.phase.Begun?
    && (x.phase.Searched? ==> ParentFits(rows, x.job.start))
    && Answer(x) != Some(Err(ParentMismatch))
  }

  lemma FitsAfterCommit(hash: Series -> int, db: Database, t: TxnId, q: StartRequest)
    requires Inv(hash, db) && ParentFits(db.rows, q) && t in db.txns && db.txns[t].job.FinishJob? && db.txns[t].phase.RowLocked?
    ensures FinishStep(db, t, db.txns[t]).Some? && ParentFits(FinishStep(db, t, db.txns[t]).value.0, q)
  {
    var x := db.txns[t];
    CommitFinish(hash, db, t);
    if q.parent.Some? {
      FindIdUpdate(db.rows, FindId(db.rows, x.job.finish.id), Finished(x.phase.before, x.job.finish), q.parent.value);
    }
  }

  lemma FitsAfterStart(hash: Series -> int, db: Database, t: TxnId, id: SpanId, q: StartRequest)
    requires ParentFits(db.rows, q) && t in db.txns && db.txns[t].job.StartJob?
    requires StartStep(hash, db, t, db.txns[t], id).Some?
    ensures ParentFits(StartStep(hash, db, t, db.txns[t], id).value.0, q)
  {
    if db.txns[t].phase.Inserted? && q.parent.Some? {
      FindIdAppend(db.rows, db.txns[t].phase.span, q.parent.value);
    }
  }

  lemma FitsAfterStep(hash: Series -> int, db: Database, m: Move, q: StartRequest)
    requires Inv(hash, db) && ParentFits(db.rows, q)
    ensures ParentFits(Step(hash, db, m).rows, q)
  {
    if m.Advance? && m.t in db.txns && !Ended(db.txns[m.t]) && TxnStep(hash, db, m.t, db.txns[m.t], m.id).Some? {
      if db.txns[m.t].job.StartJob? {
        FitsAfterStart(hash, db, m.t, m.id, q);
      } else if db.txns[m.t].phase.RowLocked? {
        FitsAfterCommit(hash, db, m.t, q);
      }
    }
  }

  lemma StartStaysAdmitted(hash: Series -> int, db: Database, t: TxnId, id: SpanId)
    requires Inv(hash, db) && t in db.txns && !Ended(db.txns[t]) && Admitted(db.rows, db.txns[t])
    requires StartStep(hash, db, t, db.txns[t], id).Some?
    ensures var (rows, phase) := StartStep(hash, db, t, db.txns[t], id).value; Admitted(rows, db.txns[t].(phase := phase))
  {
  }

  lemma AdmittedStays(hash: Series -> int, db: Database, m: Move, t: TxnId)
    requires Inv(hash, db) && t in db.txns && Admitted(db.rows, db.txns[t])
    ensures t in Step(hash, db, m).txns && Admitted(Step(hash, db, m).rows, Step(hash, db, m).txns[t])
  {
    var q := db.txns[t].job.start;
    if m.t == t {
      if m.Advance? && !Ended(db.txns[t]) && StartStep(hash, db, t, db.txns[t], m.id).Some? {
        StartStaysAdmitted(hash, db, t, m.id);
      }
    } else if ParentFits(db.rows, q) {
      FitsAfterStep(hash, db, m, q);
    }
  }

  lemma {:induction false} AdmittedAlong(hash: Series -> int, db: Database, moves: seq<Move>, t: TxnId)
    requires Inv(hash, db) && t in db.txns && Admitted(db.rows, db.txns[t])
    ensures t in Run(hash, db, moves).txns && Admitted(Run(hash, db, moves).rows, Run(hash, db, moves).txns[t])
    decreases |moves|
  {
    if moves != [] {
      StepKeepsInv(hash, db, moves[0]);
      AdmittedStays(hash, db, moves[0], t);
      AdmittedAlong(hash, Step(hash, db, moves[0]), moves[1..], t);
    }
  }

  /** A start that is refused in the end would be refused at its first read already. */
  lemma RefusedFromTheStart(hash: Series -> int, db: Database, m: Move, moves: seq<Move>)
    requires Inv(hash, db) && m.t in db.txns && m.t in Run(hash, Step(hash, db, m), moves).txns
    requires WillBeRefused(db.txns[m.t], Step(hash, db, m).txns[m.t], Run(hash, Step(hash, db, m), moves).txns[m.t])
    ensures Insert(db.rows, db.txns[m.t].job.start, 0) == (Err(ParentMismatch), Step(hash, db, m).rows)
  {
    var after := Step(hash, db, m);
    StepKeepsInv(hash, db, m);
    if ParentFits(db.rows, db.txns[m.t].job.start) {
      AdmittedAlong(hash, after, moves, m.t);
    }
  }

  lemma StartLinearizes(hash: Series -> int, db: Database, m: Move, moves: seq<Move>, last: Database)
    requires Inv(hash, db) && last == Run(hash, Step(hash, db, m), moves)
    requires m.Advance? && m.t in db.txns && !Ended(db.txns[m.t]) && db.txns[m.t].job.StartJob?
    requires StartStep(hash, db, m.t, db.txns[m.t], m.id).Some?
    ensures ServedAt(db.rows, Answered(hash, db, m, last), Step(hash, db, m).rows)
  {
    JobsStay(hash, Step(hash, db, m), moves);
    StartAnswers(hash, db, m.t, m.id);
    if WillBeRefused(db.txns[m.t], Step(hash, db, m).txns[m.t], last.txns[m.t]) {
      RefusedFromTheStart(hash, db, m, moves);
    }
  }

  lemma FinishLinearizes(hash: Series -> int, db: Database, m: Move, last: Database)
    requires Inv(hash, db)
    requires m.Advance? && m.t in db.txns && m.t in last.txns && !Ended(db.txns[m.t]) && db.txns[m.t].job.FinishJob?
    requires FinishStep(db, m.t, db.txns[m.t]).Some?
    ensures ServedAt(db.rows, Answered(hash, db, m, last), Step(hash, db, m).rows)
  {
    FinishAnswers(hash, db, m.t);
  }

  lemma StepLinearizes(hash: Series -> int, db: Database, m: Move, moves: seq<Move>, last: Database)
    requires Inv(hash, db) && last == Run(hash, Step(hash, db, m), moves)
    ensures ServedAt(db.rows, Answered(hash, db, m, last), Step(hash, db, m).rows)
  {
    if m.Advance? && m.t in db.txns && !Ended(db.txns[m.t]) && TxnStep(hash, db, m.t, db.txns[m.t], m.id).Some? {
      if db.txns[m.t].job.StartJob? {
        StartLinearizes(hash, db, m, moves, last);
      } else {
        JobsStay(hash, Step(hash, db, m), moves);
        FinishLinearizes(hash, db, m, last);
      }
    }
  }

  /** Every interleaving is explained by the sequential store, served one call after the other, refusals included. */
  lemma {:induction false} Linearizable(hash: Series -> int, db: Database, moves: seq<Move>, last: Database)
    requires Inv(hash, db) && last == Run(hash, db, moves)
    ensures Explains(db.rows, Log(hash, db, moves, last), last.rows)
    decreases |moves|
  {
    if moves != [] {
      var next := Step(hash, db, moves[0]);
      StepKeepsInv(hash, db, moves[0]);
      StepLinearizes(hash, db, moves[0], moves[1..], last);
      Linearizable(hash, next, moves[1..], last);
      ExplainsCons(db.rows, Answered(hash, db, moves[0], last), Log(hash, next, moves[1..], last), next.rows, last.rows);
    }
  }

  // ---- and leaves none out ----

  function Of(log: seq<Served>, t: TxnId): seq<Served> {
    if log == [] then [] else (if log[0].t == t then [log[0]] else []) + Of(log[1..], t)
  }

  /** What the log must still say of a transaction. */
  function Expected(t: TxnId, x: Txn, last: Txn): seq<Served> {
    if Ended(x) then []
    else
      match Answer(last)
      case Some(Ok(s)) => [Served(t, x.job, s.id, Ok(s))]
      case Some(Err(e)) => if x.job.FinishJob? || x.phase.Begun? then [Served(t, x.job, 0, Err(e))] else []
      case None => []
  }

  lemma {:induction false} EndedStays(hash: Series -> int, db: Database, moves: seq<Move>, t: TxnId)
    requires t in db.txns && Ended(db.txns[t])
    ensures t in Run(hash, db, moves).txns && Run(hash, db, moves).txns[t] == db.txns[t]
    decreases |moves|
  {
    if moves != [] {
      EndedStays(hash, Step(hash, db, moves[0]), moves[1..], t);
    }
  }

  /** A transaction's own step, from `x` to `after`, in a run that leaves it as `last`. */
  predicate Leads(after: Txn, last: Txn) {
    after.job == last.job && (Ended(after) ==> last == after)
  }

  lemma StartStepExpected(hash: Series -> int, db: Database, t: TxnId, id: SpanId, last: Txn)
    requires t in db.txns && db.txns[t].job.StartJob? && !Ended(db.txns[t])
    requires StartStep(hash, db, t, db.txns[t], id).Some? && Leads(db.txns[t].(phase := StartStep(hash, db, t, db.txns[t], id).value.1), last)
    requires Answer(last).Some? && Answer(last).value.Err? ==> Answer(last) == Some(Err(ParentMismatch))
    ensures var x := db.txns[t];
            var after := x.(phase := StartStep(hash, db, t, x, id).value.1);
            (if after.phase.Done? && after.phase.r.Ok? then [Served(t, x.job, after.phase.r.value.id, Ok(after.phase.r.value))]
             else if WillBeRefused(x, after, last) then [Served(t, x.job, 0, Err(ParentMismatch))]
             else []) + Expected(t, after, last) == Expected(t, x, last)
  {
  }

  lemma FinishStepExpected(db: Database, t: TxnId, last: Txn)
    requires t in db.txns && db.txns[t].job.FinishJob? && !Ended(db.txns[t])
    requires FinishStep(db, t, db.txns[t]).Some? && Leads(db.txns[t].(phase := FinishStep(db, t, db.txns[t]).value.1), last)
    ensures var x := db.txns[t];
            var after := x.(phase := FinishStep(db, t, x).value.1);
            (if after.phase.Done? && after.phase.r.Ok? then [Served(t, x.job, after.phase.r.value.id, Ok(after.phase.r.value))]
             else if Answer(after).Some? then [Served(t, x.job, 0, Answer(after).value)]
             else []) + Expected(t, after, last) == Expected(t, x, last)
  {
  }

  lemma OfOne(log: seq<Served>, t: TxnId)
    requires |log| <= 1
    ensures Of(log, t) == if log != [] && log[0].t == t then log else []
  {
    assert |log| == 1 ==> log[1..] == [] && log == [log[0]];
  }

  lemma StepAnswersAsExpected(hash: Series -> int, db: Database, m: Move, last: Database)
    requires m.t in db.txns && m.t in last.txns && Leads(Step(hash, db, m).txns[m.t], last.txns[m.t])
    requires db.txns[m.t].job.StartJob? && Answer(last.txns[m.t]).Some? && Answer(last.txns[m.t]).value.Err? ==>
               Answer(last.txns[m.t]) == Some(Err(ParentMismatch))
    ensures Answered(hash, db, m, last) + Expected(m.t, Step(hash, db, m).txns[m.t], last.txns[m.t]) ==
            Expected(m.t, db.txns[m.t], last.txns[m.t])
  {
    var x := db.txns[m.t];
    if m.Advance? && !Ended(x) && TxnStep(hash, db, m.t, x, m.id).Some? {
      if x.job.StartJob? {
        StartStepExpected(hash, db, m.t, m.id, last.txns[m.t]);
      } else {
        FinishStepExpected(db, m.t, last.txns[m.t]);
      }
    }
  }

  lemma OfFirst(first: seq<Served>, rest: seq<Served>, t: TxnId)
    requires |first| <= 1
    ensures Of(first + rest, t) == Of(first, t) + Of(rest, t)
  {
    OfOne(first, t);
    if first == [] {
      assert first + rest == rest;
    } else {
      assert (first + rest)[0] == first[0] && (first + rest)[1..] == rest;
    }
  }

  lemma AnsweredByItself(hash: Series -> int, db: Database, m: Move, last: Database, t: TxnId)
    ensures Of(Answered(hash, db, m, last), t) == if m.t == t then Answered(hash, db, m, last) else []
  {
    OfOne(Answered(hash, db, m, last), t);
  }

  lemma LastLeads(hash: Series -> int, db: Database, m: Move, moves: seq<Move>, last: Database, t: TxnId)
    requires t in db.txns && last == Run(hash, Step(hash, db, m), moves)
    ensures t in last.txns && t in Step(hash, db, m).txns && Leads(Step(hash, db, m).txns[t], last.txns[t])
    ensures t != m.t ==> Step(hash, db, m).txns[t] == db.txns[t]
    ensures last.txns[t].job == db.txns[t].job
  {
    var after := Step(hash, db, m);
    JobsStay(hash, after, moves);
    if Ended(after.txns[t]) {
      EndedStays(hash, after, moves, t);
    }
  }

  /** A start is refused for its parent only. */
  predicate RefusedForParent(x: Txn) {
    x.job.StartJob? && Answer(x).Some? && Answer(x).value.Err? ==> Answer(x) == Some(Err(ParentMismatch))
  }

  lemma StepLogged(hash: Series -> int, db: Database, m: Move, moves: seq<Move>, last: Database, t: TxnId)
    requires t in db.txns && last == Run(hash, Step(hash, db, m), moves) && t in last.txns && RefusedForParent(last.txns[t])
    ensures t in Step(hash, db, m).txns
    ensures Of(Answered(hash, db, m, last), t) + Expected(t, Step(hash, db, m).txns[t], last.txns[t]) ==
            Expected(t, db.txns[t], last.txns[t])
  {
    LastLeads(hash, db, m, moves, last, t);
    AnsweredByItself(hash, db, m, last, t);
    if t == m.t {
      StepAnswersAsExpected(hash, db, m, last);
    }
  }

  lemma {:induction false} LoggedAlong(hash: Series -> int, db: Database, moves: seq<Move>, last: Database, t: TxnId)
    requires t in db.txns && last == Run(hash, db, moves) && t in last.txns && RefusedForParent(last.txns[t])
    ensures Of(Log(hash, db, moves, last), t) == Expected(t, db.txns[t], last.txns[t])
    decreases |moves|
  {
    if moves != [] {
      var next := Step(hash, db, moves[0]);
      StepLogged(hash, db, moves[0], moves[1..], last, t);
      LoggedAlong(hash, next, moves[1..], last, t);
      OfFirst(Answered(hash, db, moves[0], last), Log(hash, next, moves[1..], last), t);
    }
  }

  /** The log of a run holds the answer of each transaction once, and nothing of those that gave none. */
  lemma EveryAnswerLogged(hash: Series -> int, db: Database, moves: seq<Move>, last: Database, t: TxnId)
    requires Inv(hash, db) && t in db.txns && last == Run(hash, db, moves)
    ensures t in last.txns && Of(Log(hash, db, moves, last), t) == Expected(t, db.txns[t], last.txns[t])
  {
    RunKeepsInv(hash, db, moves);
    JobsStay(hash, db, moves);
    assert TxnOk(last.rows, last.txns[t]);
    LoggedAlong(hash, db, moves, last, t);
  }

  // ---- and keeps the order of calls that do not overlap ----

  predicate Mentions(log: seq<Served>, t: TxnId) {
    exists i | 0 <= i < |log| :: log[i].t == t
  }

  predicate Before(log: seq<Served>, t: TxnId, u: TxnId) {
    forall i, j | 0 <= i < |log| && 0 <= j < |log| && log[i].t == t && log[j].t == u :: i < j
  }

  lemma StandsBefore(a: seq<Served>, b: seq<Served>, t: TxnId, u: TxnId)
    requires !Mentions(a, u) && !Mentions(b, t)
    ensures Before(a + b, t, u)
  {
    assert forall k | 0 <= k < |a| :: (a + b)[k] == a[k];
    assert forall k | |a| <= k < |a + b| :: (a + b)[k] == b[k - |a|];
  }

  lemma {:induction false} BegunFirst(hash: Series -> int, db: Database, moves: seq<Move>, t: TxnId)
    requires t in db.txns && !db.txns[t].phase.Begun?
    ensures t in Run(hash, db, moves).txns && !Run(hash, db, moves).txns[t].phase.Begun?
    decreases |moves|
  {
    if moves != [] {
      BegunFirst(hash, Step(hash, db, moves[0]), moves[1..], t);
    }
  }

  lemma {:induction false} LogConcat(hash: Series -> int, db: Database, first: seq<Move>, rest: seq<Move>, last: Database)
    ensures Log(hash, db, first + rest, last) == Log(hash, db, first, last) + Log(hash, Run(hash, db, first), rest, last)
    decreases |first|
  {
    if first == [] {
      assert first + rest == rest;
    } else {
      LogConcat(hash, Step(hash, db, first[0]), first[1..], rest, last);
      LogFirst(hash, db, first, rest, last);
    }
  }

  lemma LogFirst(hash: Series -> int, db: Database, first: seq<Move>, rest: seq<Move>, last: Database)
    requires first != []
    ensures Log(hash, db, first + rest, last) ==
            Answered(hash, db, first[0], last) + Log(hash, Step(hash, db, first[0]), first[1..] + rest, last)
  {
    assert (first + rest)[0] == first[0] && (first + rest)[1..] == first[1..] + rest;
  }

  lemma MentionsFirst(first: seq<Served>, rest: seq<Served>, t: TxnId)
    ensures Mentions(first + rest, t) ==> Mentions(first, t) || Mentions(rest, t)
  {
    if i :| 0 <= i < |first + rest| && (first + rest)[i].t == t {
      assert if i < |first| then first[i].t == t else rest[i - |first|].t == t;
    }
  }

  lemma AnswersMove(hash: Series -> int, db: Database, m: Move, last: Database, t: TxnId)
    requires Mentions(Answered(hash, db, m, last), t)
    ensures m.t == t && t in db.txns && !Ended(db.txns[t]) && !Step(hash, db, m).txns[t].phase.Begun?
  {
  }

  /** A transaction that has not taken its first step yet is not in the log. */
  lemma {:induction false} BegunUnlogged(hash: Series -> int, db: Database, moves: seq<Move>, last: Database, t: TxnId)
    requires t in Run(hash, db, moves).txns && Run(hash, db, moves).txns[t].phase.Begun?
    ensures !Mentions(Log(hash, db, moves, last), t)
    decreases |moves|
  {
    if moves != [] {
      var next := Step(hash, db, moves[0]);
      BegunUnlogged(hash, next, moves[1..], last, t);
      MentionsFirst(Answered(hash, db, moves[0], last), Log(hash, next, moves[1..], last), t);
      if Mentions(Answered(hash, db, moves[0], last), t) {
        AnswersMove(hash, db, moves[0], last, t);
        BegunFirst(hash, next, moves[1..], t);
      }
    }
  }

  /** One that has ended is not logged any more. */
  lemma {:induction false} EndedUnlogged(hash: Series -> int, db: Database, moves: seq<Move>, last: Database, t: TxnId)
    requires t in db.txns && Ended(db.txns[t])
    ensures !Mentions(Log(hash, db, moves, last), t)
    decreases |moves|
  {
    if moves != [] {
      var next := Step(hash, db, moves[0]);
      EndedUnlogged(hash, next, moves[1..], last, t);
      MentionsFirst(Answered(hash, db, moves[0], last), Log(hash, next, moves[1..], last), t);
      if Mentions(Answered(hash, db, moves[0], last), t) {
        AnswersMove(hash, db, moves[0], last, t);
      }
    }
  }

  /** A call that has ended before another takes its first step stands before it in the log of every run that follows. */
  lemma RealTimeOrder(hash: Series -> int, db: Database, first: seq<Move>, rest: seq<Move>, last: Database, t: TxnId, u: TxnId)
    requires var now := Run(hash, db, first);
             t in now.txns && Ended(now.txns[t]) && u in now.txns && now.txns[u].phase.Begun?
    ensures Before(Log(hash, db, first + rest, last), t, u)
  {
    var now := Run(hash, db, first);
    LogConcat(hash, db, first, rest, last);
    BegunUnlogged(hash, db, first, last, u);
    EndedUnlogged(hash, now, rest, last, t);
    StandsBefore(Log(hash, db, first, last), Log(hash, now, rest, last), t, u);
  }
}
