/** The PostgreSQL span store as interleaved transactions at the read-committed level.

    A start reads the idempotency key, checks the parent, takes the advisory lock of its series, counts,
    inserts with `ON CONFLICT DO NOTHING` and commits; a finish locks its row, reads it, updates and commits.
    Every statement sees the rows committed so far; a transaction can abort at any point. Locks are held up
    to the end of the transaction, so who holds them is read off the phases. */
module TraceTransactions {
  import opened Outcomes
  import opened Spans
  import opened TraceStore

  type TxnId = nat

  datatype Job =
    | StartJob(start: StartRequest)
    | FinishJob(finish: FinishRequest)

  datatype TxnError = Refused(error: StoreError) | MissingRecord

  datatype Phase =
    | Begun
    | Searched                 // the idempotency key is not stored
    | Fitted                   // the parent is stored and fits
    | Locked                   // the advisory lock is held
    | Counted(attempt: nat)
    | Inserted(span: Span)     // not yet visible to others
    | Conflicted               // the insert did nothing
    | RowLocked(before: Span)  // the row lock is held and the current version read
    | Done(r: Result<Span, TxnError>)
    | Aborted

  datatype Txn = Txn(job: Job, phase: Phase)

  datatype Database = Database(rows: seq<Span>, txns: map<TxnId, Txn>)

  datatype Move = Advance(t: TxnId, id: SpanId) | Abort(t: TxnId)

  predicate HoldsAdvisory(x: Txn) {
    x.job.StartJob? && (x.phase.Locked? || x.phase.Counted? || x.phase.Inserted? || x.phase.Conflicted?)
  }

  predicate Ended(x: Txn) {
    x.phase.Done? || x.phase.Aborted?
  }

  /** Another transaction holds the advisory lock that `x` asks for; different series may share a lock. */
  predicate AdvisoryBusy(hash: Series -> int, db: Database, t: TxnId, x: Txn)
    requires x.job.StartJob?
  {
    exists u | u in db.txns :: u != t && HoldsAdvisory(db.txns[u])
                               && hash(RequestSeries(db.txns[u].job.start)) == hash(RequestSeries(x.job.start))
  }

  predicate ClashesWith(s: Span, q: StartRequest) {
    q.key.Some? && s.incident == q.incident && s.key == q.key
  }

  /** Another transaction has inserted, and not yet committed, a row with the same key. */
  predicate KeyBusy(db: Database, t: TxnId, q: StartRequest) {
    exists u | u in db.txns :: u != t && db.txns[u].phase.Inserted? && ClashesWith(db.txns[u].phase.span, q)
  }

  predicate RowBusy(db: Database, t: TxnId, id: SpanId) {
    exists u | u in db.txns :: u != t && db.txns[u].phase.RowLocked? && db.txns[u].phase.before.id == id
  }

  /** No committed or pending row uses the identifier. */
  predicate Unused(db: Database, id: SpanId) {
    FindId(db.rows, id) == |db.rows|
    && forall u | u in db.txns && db.txns[u].phase.Inserted? :: db.txns[u].phase.span.id != id
  }

  function Fail(e: StoreError): Phase {
    Done(Err(Refused(e)))
  }

  /** One statement of a start transaction: the rows and the phase it leads to, or nothing when it waits. */
  function StartStep(hash: Series -> int, db: Database, t: TxnId, x: Txn, id: SpanId): Option<(seq<Span>, Phase)>
    requires x.job.StartJob?
  {
    var q := x.job.start;
    match x.phase
    case Begun =>
      if q.key.Some? && FindKey(db.rows, q.incident, q.key.value).Some? then
        Some((db.rows, Done(Ok(FindKey(db.rows, q.incident, q.key.value).value))))
      else Some((db.rows, Searched))
    case Searched => Some((db.rows, if ParentFits(db.rows, q) then Fitted else Fail(ParentMismatch)))
    case Fitted => if AdvisoryBusy(hash, db, t, x) then None else Some((db.rows, Locked))
    case Locked => Some((db.rows, Counted(CountSeries(db.rows, RequestSeries(q)) + 1)))
    case Counted(attempt) =>
      if q.key.Some? && FindKey(db.rows, q.incident, q.key.value).Some? then Some((db.rows, Conflicted))
      else if KeyBusy(db, t, q) || !Unused(db, id) then None
      else Some((db.rows, Inserted(NewSpan(q, id, attempt))))
    case Inserted(span) => Some((db.rows + [span], Done(Ok(span))))
    case Conflicted =>
      var found := if q.key.Some? then FindKey(db.rows, q.incident, q.key.value) else None;
      Some((db.rows, if found.Some? then Done(Ok(found.value)) else Done(Err(MissingRecord))))
    case _ => None
  }

  /** One statement of a finish transaction. */
  function FinishStep(db: Database, t: TxnId, x: Txn): Option<(seq<Span>, Phase)>
    requires x.job.FinishJob?
  {
    var q := x.job.finish;
    var i := FindId(db.rows, q.id);
    match x.phase
    case Begun =>
      if q.status == Running then Some((db.rows, Fail(FinishedAsRunning)))
      else if i == |db.rows| then Some((db.rows, Fail(UnknownSpan)))
      else if RowBusy(db, t, q.id) then None
      else if db.rows[i].status != Running then Some((db.rows, Done(Ok(db.rows[i]))))
      else if q.ended < db.rows[i].started then Some((db.rows, Fail(EndsBeforeStart)))
      else Some((db.rows, RowLocked(db.rows[i])))
    case RowLocked(before) =>
      if i < |db.rows| then Some((db.rows[i := Finished(before, q)], Done(Ok(Finished(before, q))))) else None
    case _ => None
  }

  function TxnStep(hash: Series -> int, db: Database, t: TxnId, x: Txn, id: SpanId): Option<(seq<Span>, Phase)> {
    if x.job.StartJob? then StartStep(hash, db, t, x, id) else FinishStep(db, t, x)
  }

  /** One step of the whole database; a step that must wait or has nothing to do changes nothing. */
  function Step(hash: Series -> int, db: Database, m: Move): Database {
    if m.t !in db.txns || Ended(db.txns[m.t]) then db
    else
      var x := db.txns[m.t];
      match m
      case Abort(t) => db.(txns := db.txns[t := x.(phase := Aborted)])
      case Advance(t, id) =>
        var next := TxnStep(hash, db, t, x, id);
        if next.None? then db
        else Database(next.value.0, db.txns[t := x.(phase := next.value.1)])
  }

  // ---- the invariant ----

  /** What one transaction can rely on while the others run. */
  ghost predicate TxnOk(rows: seq<Span>, x: Txn) {
    match x.job
    case StartJob(q) =>
      (match x.phase
       case Begun => true
       case Searched => true
       case Fitted => ParentFits(rows, q)
       case Locked => ParentFits(rows, q)
       case Counted(attempt) => ParentFits(rows, q) && attempt == CountSeries(rows, RequestSeries(q)) + 1
       case Inserted(span) =>
         && ParentFits(rows, q)
         && span == NextSpan(rows, q, span.id)
         && forall s | s in rows :: s.id != span.id && !ClashesWith(s, q)
       case Conflicted => q.key.Some? && FindKey(rows, q.incident, q.key.value).Some?
       case RowLocked(_) => false
       case Done(Ok(s)) => s.incident == q.incident && s.key == q.key && exists i :: StoredAs(rows, i, s)
       case Done(Err(e)) => e == Refused(ParentMismatch)
       case Aborted => true)
    case FinishJob(q) =>
      (match x.phase
       case Begun => true
       case RowLocked(before) =>
         && before.id == q.id && before.status == Running && q.status != Running && q.ended >= before.started
         && exists i :: RowIs(rows, i, before)
       case Done(Ok(s)) => s.id == q.id && s.status != Running && exists i :: RowIs(rows, i, s)
       case Done(Err(e)) => e.Refused?
       case Aborted => true
       case _ => false)
  }

  ghost predicate RowIs(rows: seq<Span>, i: nat, s: Span) {
    i < |rows| && rows[i] == s
  }

  ghost predicate StoredAs(rows: seq<Span>, i: nat, s: Span) {
    i < |rows| && Continues(s, rows[i])
  }

  /** What the locks and the unique constraints keep apart. */
  ghost predicate Apart(hash: Series -> int, x: Txn, y: Txn) {
    && (HoldsAdvisory(x) && HoldsAdvisory(y) ==> hash(RequestSeries(x.job.start)) != hash(RequestSeries(y.job.start)))
    && (x.phase.Inserted? && y.phase.Inserted? && x.job.StartJob? && y.job.StartJob? ==>
          x.phase.span.id != y.phase.span.id && !ClashesWith(x.phase.span, y.job.start))
    && (x.phase.RowLocked? && y.phase.RowLocked? ==> x.phase.before.id != y.phase.before.id)
  }

  ghost predicate Inv(hash: Series -> int, db: Database) {
    && Sound(db.rows)
    && (forall t | t in db.txns :: TxnOk(db.rows, db.txns[t]))
    && (forall t, u | t in db.txns && u in db.txns && t != u :: Apart(hash, db.txns[t], db.txns[u]))
  }

  // ---- what the others keep when rows change ----

  lemma FindIdUnique(rows: seq<Span>, id: SpanId, i: nat)
    requires i <= |rows| && (i < |rows| ==> rows[i].id == id) && forall k | 0 <= k < i :: rows[k].id != id
    ensures FindId(rows, id) == i
  {
  }

  lemma FindIdAppend(rows: seq<Span>, s: Span, id: SpanId)
    ensures FindId(rows, id) < |rows| ==> FindId(rows + [s], id) == FindId(rows, id)
  {
    if FindId(rows, id) < |rows| {
      FindIdUnique(rows + [s], id, FindId(rows, id));
    }
  }

  lemma FindIdUpdate(rows: seq<Span>, i: nat, after: Span, id: SpanId)
    requires i < |rows| && after.id == rows[i].id
    ensures FindId(rows[i := after], id) == FindId(rows, id)
  {
    FindIdUnique(rows[i := after], id, FindId(rows, id));
  }

  lemma CountAppend(rows: seq<Span>, s: Span, series: Series)
    ensures CountSeries(rows + [s], series) == CountSeries(rows, series) + if SeriesOf(s) == series then 1 else 0
  {
    assert (rows + [s])[..|rows|] == rows;
  }

  lemma KeyStaysStored(rows: seq<Span>, more: seq<Span>, incident: string, key: string)
    requires FindKey(rows, incident, key).Some? && |rows| <= |more|
    requires forall i | 0 <= i < |rows| :: more[i].incident == rows[i].incident && more[i].key == rows[i].key
    ensures FindKey(more, incident, key).Some?
  {
    var s := FindKey(rows, incident, key).value;
    var i :| 0 <= i < |rows| && rows[i] == s;
    assert more[i] in more;
  }

  /** A committed insert leaves the other transactions' facts as they were. */
  lemma InsertStable(rows: seq<Span>, hash: Series -> int, x: Txn, y: Txn)
    requires x.job.StartJob? && x.phase.Inserted? && TxnOk(rows, x) && TxnOk(rows, y) && Apart(hash, x, y) && Apart(hash, y, x)
    ensures TxnOk(rows + [x.phase.span], y)
  {
    var span := x.phase.span;
    var more := rows + [span];
    if y.job.StartJob? {
      var q := y.job.start;
      if q.parent.Some? {
        FindIdAppend(rows, span, q.parent.value);
      }
      CountAppend(rows, span, RequestSeries(q));
      if y.phase.Conflicted? {
        KeyStaysStored(rows, more, q.incident, q.key.value);
      }
      if y.phase.Done? && y.phase.r.Ok? {
        var i :| StoredAs(rows, i, y.phase.r.value);
        assert StoredAs(more, i, y.phase.r.value);
      }
      if HoldsAdvisory(y) {
        assert SeriesOf(span) == RequestSeries(x.job.start) != RequestSeries(q);
      }
    } else if y.phase.RowLocked? {
      var i :| RowIs(rows, i, y.phase.before);
      assert RowIs(more, i, y.phase.before);
    } else if y.phase.Done? && y.phase.r.Ok? {
      var i :| RowIs(rows, i, y.phase.r.value);
      assert RowIs(more, i, y.phase.r.value);
    }
  }

  lemma FinishStableForPending(rows: seq<Span>, i: nat, after: Span, span: Span, q: StartRequest)
    requires i < |rows| && Finishes(rows[i], after)
    requires span == NextSpan(rows, q, span.id) && forall s | s in rows :: s.id != span.id && !ClashesWith(s, q)
    ensures span == NextSpan(rows[i := after], q, span.id)
    ensures forall s | s in rows[i := after] :: s.id != span.id && !ClashesWith(s, q)
  {
    var more := rows[i := after];
    CountIgnoresUpdates(rows, more, RequestSeries(q));
    forall s | s in more
      ensures s.id != span.id && !ClashesWith(s, q)
    {
      var k :| 0 <= k < |more| && more[k] == s;
      assert rows[k] in rows;
    }
  }

  lemma FinishStableForStart(rows: seq<Span>, i: nat, after: Span, y: Txn)
    requires i < |rows| && Finishes(rows[i], after) && y.job.StartJob? && TxnOk(rows, y)
    ensures TxnOk(rows[i := after], y)
  {
    var more := rows[i := after];
    var q := y.job.start;
    if q.parent.Some? {
      FindIdUpdate(rows, i, after, q.parent.value);
    }
    match y.phase
    case Conflicted => KeyStaysStored(rows, more, q.incident, q.key.value);
    case Counted(_) => CountIgnoresUpdates(rows, more, RequestSeries(q));
    case Inserted(span) => FinishStableForPending(rows, i, after, span, q);
    case Done(Ok(s)) =>
      var k: nat :| StoredAs(rows, k, s);
      assert StoredAs(more, k, s);
    case _ =>
  }

  /** A committed finish leaves the other transactions' facts as they were. */
  lemma FinishStable(rows: seq<Span>, hash: Series -> int, i: nat, after: Span, x: Txn, y: Txn)
    requires i < |rows| && x.phase.RowLocked? && rows[i] == x.phase.before && Finishes(rows[i], after)
    requires TxnOk(rows, y) && Apart(hash, x, y)
    ensures TxnOk(rows[i := after], y)
  {
    var more := rows[i := after];
    if y.job.StartJob? {
      FinishStableForStart(rows, i, after, y);
    } else if y.phase.RowLocked? {
      var k :| RowIs(rows, k, y.phase.before);
      assert RowIs(more, k, y.phase.before);
    } else if y.phase.Done? && y.phase.r.Ok? {
      var k :| RowIs(rows, k, y.phase.r.value);
      assert RowIs(more, k, y.phase.r.value);
    }
  }

  // ---- the invariant survives every step ----

  /** The stepping transaction's own facts after a statement of a start that leaves the rows alone. */
  lemma StartStatement(hash: Series -> int, db: Database, t: TxnId, x: Txn, id: SpanId)
    requires DistinctKeys(db.rows) && TxnOk(db.rows, x) && x.job.StartJob? && !x.phase.Inserted?
    requires StartStep(hash, db, t, x, id).Some?
    ensures var next := StartStep(hash, db, t, x, id).value;
            next.0 == db.rows && TxnOk(db.rows, x.(phase := next.1))
  {
    var q := x.job.start;
    if (x.phase.Begun? || x.phase.Conflicted?) && q.key.Some? && FindKey(db.rows, q.incident, q.key.value).Some? {
      var s := FindKey(db.rows, q.incident, q.key.value).value;
      var i :| 0 <= i < |db.rows| && db.rows[i] == s;
      assert StoredAs(db.rows, i, s);
    }
  }

  /** Its distance from another transaction: the advisory lock is taken when free, and a row is inserted when
      no other pending row has its identifier or its key. */
  lemma StartStatementApart(hash: Series -> int, db: Database, t: TxnId, id: SpanId, u: TxnId)
    requires Inv(hash, db) && t in db.txns && u in db.txns && u != t
    requires db.txns[t].job.StartJob? && !db.txns[t].phase.Inserted?
    requires StartStep(hash, db, t, db.txns[t], id).Some?
    ensures var x' := db.txns[t].(phase := StartStep(hash, db, t, db.txns[t], id).value.1);
            Apart(hash, x', db.txns[u]) && Apart(hash, db.txns[u], x')
  {
    var x, y := db.txns[t], db.txns[u];
    assert Apart(hash, x, y) && Apart(hash, y, x);
    assert TxnOk(db.rows, x) && TxnOk(db.rows, y);
    match x.phase
    case Fitted => assert !AdvisoryBusy(hash, db, t, x) ==> Apart(hash, x.(phase := Locked), y);
    case Counted(attempt) =>
      if y.phase.Inserted? && y.job.StartJob? && !KeyBusy(db, t, x.job.start) && Unused(db, id) {
        assert y.phase.span.id != id && !ClashesWith(y.phase.span, x.job.start);
      }
    case _ =>
  }

  lemma FinishStatement(hash: Series -> int, db: Database, t: TxnId)
    requires Inv(hash, db) && t in db.txns && db.txns[t].job.FinishJob? && !db.txns[t].phase.RowLocked?
    requires FinishStep(db, t, db.txns[t]).Some?
    ensures var next := FinishStep(db, t, db.txns[t]).value;
            && next.0 == db.rows
            && TxnOk(db.rows, db.txns[t].(phase := next.1))
            && forall u | u in db.txns && u != t ::
                 Apart(hash, db.txns[t].(phase := next.1), db.txns[u]) && Apart(hash, db.txns[u], db.txns[t].(phase := next.1))
  {
    var x := db.txns[t];
    var i := FindId(db.rows, x.job.finish.id);
    if i < |db.rows| {
      assert RowIs(db.rows, i, db.rows[i]);
    }
  }

  lemma CommitInsert(hash: Series -> int, db: Database, t: TxnId)
    requires Inv(hash, db) && t in db.txns && db.txns[t].job.StartJob? && db.txns[t].phase.Inserted?
    ensures var x := db.txns[t];
            var rows := db.rows + [x.phase.span];
            Sound(rows) && TxnOk(rows, x.(phase := Done(Ok(x.phase.span))))
  {
    var x := db.txns[t];
    var q, span := x.job.start, x.phase.span;
    if q.parent.Some? {
      assert ParentAt(db.rows, FindId(db.rows, q.parent.value), span);
    }
    InsertKeepsSound(db.rows, span);
    assert StoredAs(db.rows + [span], |db.rows|, span);
  }

  lemma CommitFinish(hash: Series -> int, db: Database, t: TxnId)
    requires Inv(hash, db) && t in db.txns && db.txns[t].job.FinishJob? && db.txns[t].phase.RowLocked?
    ensures var x := db.txns[t];
            var q, i := x.job.finish, FindId(db.rows, x.job.finish.id);
            var after := Finished(x.phase.before, q);
            && i < |db.rows| && db.rows[i] == x.phase.before && Finishes(db.rows[i], after)
            && Sound(db.rows[i := after]) && TxnOk(db.rows[i := after], x.(phase := Done(Ok(after))))
  {
    var x := db.txns[t];
    var q := x.job.finish;
    var k: nat :| RowIs(db.rows, k, x.phase.before);
    FindIdUnique(db.rows, q.id, k);
    var after := Finished(x.phase.before, q);
    UpdateKeepsSound(db.rows, k, after);
    assert RowIs(db.rows[k := after], k, after);
  }

  /** Every step of every interleaving keeps the invariant. */
  lemma StepKeepsInv(hash: Series -> int, db: Database, m: Move)
    requires Inv(hash, db)
    ensures Inv(hash, Step(hash, db, m))
  {
    if m.Advance? && m.t in db.txns && !Ended(db.txns[m.t]) && TxnStep(hash, db, m.t, db.txns[m.t], m.id).Some? {
      AdvanceKeepsInv(hash, db, m.t, m.id);
    }
  }

  lemma InsertCommits(hash: Series -> int, db: Database, t: TxnId, id: SpanId)
    requires Inv(hash, db) && t in db.txns && !Ended(db.txns[t]) && TxnStep(hash, db, t, db.txns[t], id).Some?
    requires db.txns[t].job.StartJob? && db.txns[t].phase.Inserted?
    ensures Inv(hash, Step(hash, db, Advance(t, id)))
  {
    var x := db.txns[t];
    CommitInsert(hash, db, t);
    forall u | u in db.txns && u != t
      ensures TxnOk(db.rows + [x.phase.span], db.txns[u])
    {
      InsertStable(db.rows, hash, x, db.txns[u]);
    }
  }

  lemma StartAdvances(hash: Series -> int, db: Database, t: TxnId, id: SpanId)
    requires Inv(hash, db) && t in db.txns && !Ended(db.txns[t]) && TxnStep(hash, db, t, db.txns[t], id).Some?
    requires db.txns[t].job.StartJob? && !db.txns[t].phase.Inserted?
    ensures Inv(hash, Step(hash, db, Advance(t, id)))
  {
    var x := db.txns[t];
    var x' := x.(phase := StartStep(hash, db, t, x, id).value.1);
    StartStatement(hash, db, t, x, id);
    forall u | u in db.txns && u != t
      ensures Apart(hash, x', db.txns[u]) && Apart(hash, db.txns[u], x')
    {
      StartStatementApart(hash, db, t, id, u);
    }
  }

  lemma FinishCommits(hash: Series -> int, db: Database, t: TxnId, id: SpanId)
    requires Inv(hash, db) && t in db.txns && !Ended(db.txns[t]) && TxnStep(hash, db, t, db.txns[t], id).Some?
    requires db.txns[t].job.FinishJob? && db.txns[t].phase.RowLocked?
    ensures Inv(hash, Step(hash, db, Advance(t, id)))
  {
    var x := db.txns[t];
    var i, after := FindId(db.rows, x.job.finish.id), Finished(x.phase.before, x.job.finish);
    CommitFinish(hash, db, t);
    forall u | u in db.txns && u != t
      ensures TxnOk(db.rows[i := after], db.txns[u])
    {
      FinishStable(db.rows, hash, i, after, x, db.txns[u]);
    }
  }

  lemma FinishAdvances(hash: Series -> int, db: Database, t: TxnId, id: SpanId)
    requires Inv(hash, db) && t in db.txns && !Ended(db.txns[t]) && TxnStep(hash, db, t, db.txns[t], id).Some?
    requires db.txns[t].job.FinishJob? && !db.txns[t].phase.RowLocked?
    ensures Inv(hash, Step(hash, db, Advance(t, id)))
  {
    FinishStatement(hash, db, t);
  }

  lemma AdvanceKeepsInv(hash: Series -> int, db: Database, t: TxnId, id: SpanId)
    requires Inv(hash, db) && t in db.txns && !Ended(db.txns[t]) && TxnStep(hash, db, t, db.txns[t], id).Some?
    ensures Inv(hash, Step(hash, db, Advance(t, id)))
  {
    var x := db.txns[t];
    if x.job.StartJob? {
      if x.phase.Inserted? {
        InsertCommits(hash, db, t, id);
      } else {
        StartAdvances(hash, db, t, id);
      }
    } else if x.phase.RowLocked? {
      FinishCommits(hash, db, t, id);
    } else {
      FinishAdvances(hash, db, t, id);
    }
  }

  // ---- whole runs ----

  function Run(hash: Series -> int, db: Database, moves: seq<Move>): Database
    decreases |moves|
  {
    if moves == [] then db else Run(hash, Step(hash, db, moves[0]), moves[1..])
  }

  ghost predicate Initial(db: Database) {
    Sound(db.rows) && forall t | t in db.txns :: db.txns[t].phase == Begun
  }

  lemma NeverMissing(hash: Series -> int, db: Database)
    requires Inv(hash, db)
    ensures Sound(db.rows) && forall t | t in db.txns :: db.txns[t].phase != Done(Err(MissingRecord))
  {
    forall t | t in db.txns
      ensures db.txns[t].phase != Done(Err(MissingRecord))
    {
      assert TxnOk(db.rows, db.txns[t]);
    }
  }

  /** In every interleaving, aborts included, the committed rows are sound: attempts of each series are
      consecutive, keys are unique, parents are stored and fit, finishes are well timed. */
  lemma {:induction false} RunKeepsInv(hash: Series -> int, db: Database, moves: seq<Move>)
    requires Inv(hash, db)
    ensures Inv(hash, Run(hash, db, moves))
    decreases |moves|
  {
    if moves != [] {
      StepKeepsInv(hash, db, moves[0]);
      RunKeepsInv(hash, Step(hash, db, moves[0]), moves[1..]);
    }
  }

  lemma InterleavingsAreSound(hash: Series -> int, db: Database, moves: seq<Move>, series: Series)
    requires Initial(db)
    ensures var end := Run(hash, db, moves);
            && Sound(end.rows)
            && Attempts(end.rows, series) == seq(CountSeries(end.rows, series), k => k + 1)
            && forall t | t in end.txns :: end.txns[t].phase != Done(Err(MissingRecord))
  {
    RunKeepsInv(hash, db, moves);
    NeverMissing(hash, Run(hash, db, moves));
    AttemptsAreConsecutive(Run(hash, db, moves).rows, series);
  }

  /** All callers that used one idempotency key got the same span, which is stored. */
  lemma OneKeyOneSpan(hash: Series -> int, db: Database, moves: seq<Move>, t: TxnId, u: TxnId)
    requires Initial(db) && t in db.txns && u in db.txns
    requires db.txns[t].job.StartJob? && db.txns[u].job.StartJob?
    requires db.txns[t].job.start.key == db.txns[u].job.start.key != None
    requires db.txns[t].job.start.incident == db.txns[u].job.start.incident
    ensures var end := Run(hash, db, moves);
            && t in end.txns && u in end.txns
            && var p, q := end.txns[t].phase, end.txns[u].phase;
               p.Done? && p.r.Ok? && q.Done? && q.r.Ok? ==> p.r.value.id == q.r.value.id
  {
    RunKeepsInv(hash, db, moves);
    JobsStay(hash, db, moves);
    var end := Run(hash, db, moves);
    assert TxnOk(end.rows, end.txns[t]) && TxnOk(end.rows, end.txns[u]);
    SameKeySameRow(end.rows, end.txns[t], end.txns[u]);
  }

  lemma SameKeySameRow(rows: seq<Span>, x: Txn, y: Txn)
    requires DistinctKeys(rows) && TxnOk(rows, x) && TxnOk(rows, y) && x.job.StartJob? && y.job.StartJob?
    requires x.job.start.key == y.job.start.key != None && x.job.start.incident == y.job.start.incident
    ensures x.phase.Done? && x.phase.r.Ok? && y.phase.Done? && y.phase.r.Ok? ==> x.phase.r.value.id == y.phase.r.value.id
  {
    if x.phase.Done? && x.phase.r.Ok? && y.phase.Done? && y.phase.r.Ok? {
      var i: nat :| StoredAs(rows, i, x.phase.r.value);
      var j: nat :| StoredAs(rows, j, y.phase.r.value);
      KeyFound(rows, i, x.job.start.incident, x.job.start.key.value);
      KeyFound(rows, j, x.job.start.incident, x.job.start.key.value);
    }
  }

  lemma {:induction false} JobsStay(hash: Series -> int, db: Database, moves: seq<Move>)
    ensures Run(hash, db, moves).txns.Keys == db.txns.Keys
    ensures forall t | t in db.txns :: Run(hash, db, moves).txns[t].job == db.txns[t].job
    decreases |moves|
  {
    if moves != [] {
      JobsStay(hash, Step(hash, db, moves[0]), moves[1..]);
    }
  }
}
