/** Where the rows of the PostgreSQL span store come from: in every interleaving each row shows the request of the
    transaction that started it, and each finished row the request of the one that finished it. */
module TraceAuthors {
  import opened Outcomes
  import opened Spans
  import opened TraceStore
  import opened TraceTransactions

  /** A start transaction inserted the row as its request says; a finish may have been written since. */
  predicate Started(x: Txn, row: Span) {
    && x.job.StartJob? && x.phase.Done? && x.phase.r.Ok?
    && StartedFrom(x.job.start, x.phase.r.value) && Continues(x.phase.r.value, row)
  }

  /** A finish transaction wrote the row as its request says, and gave it to its caller. */
  ghost predicate FinishedAs(x: Txn, row: Span) {
    x.job.FinishJob? && x.phase == Done(Ok(row)) && exists before: Span :: before.status == Running && Written(before, x.job.finish, row)
  }

  /** The row was there when the run began, or a start transaction of the run inserted it. */
  ghost predicate HasStarter(first: seq<Span>, db: Database, i: nat)
    requires i < |db.rows|
  {
    (i < |first| && Continues(first[i], db.rows[i])) || exists t :: t in db.txns && Started(db.txns[t], db.rows[i])
  }

  /** The row is unfinished, or was finished when the run began, or a finish transaction of the run wrote it. */
  ghost predicate HasFinisher(first: seq<Span>, db: Database, i: nat)
    requires i < |db.rows|
  {
    || db.rows[i].status == Running
    || (i < |first| && db.rows[i] == first[i])
    || exists t :: t in db.txns && FinishedAs(db.txns[t], db.rows[i])
  }

  ghost predicate Authored(first: seq<Span>, db: Database) {
    forall i | 0 <= i < |db.rows| :: HasStarter(first, db, i) && HasFinisher(first, db, i)
  }

  /** A transaction that commits an insert gives its caller the row it adds, which shows its request. */
  lemma StartCommits(hash: Series -> int, db: Database, m: Move)
    requires Inv(hash, db) && m.Advance? && m.t in db.txns && db.txns[m.t].job.StartJob? && db.txns[m.t].phase.Inserted?
    ensures var after := Step(hash, db, m);
            var span := db.txns[m.t].phase.span;
            && after.rows == db.rows + [span] && Started(after.txns[m.t], span) && span.status == Running
            && after.txns[m.t].phase == Done(Ok(span))
  {
    assert TxnOk(db.rows, db.txns[m.t]);
  }

  /** A transaction that commits a finish writes the requested result to its row and to no other, and gives its caller
      the row as written. */
  lemma FinishCommitsResult(hash: Series -> int, db: Database, m: Move)
    requires Inv(hash, db) && m.Advance? && m.t in db.txns && db.txns[m.t].job.FinishJob? && db.txns[m.t].phase.RowLocked?
    ensures var after, q := Step(hash, db, m), db.txns[m.t].job.finish;
            && |after.rows| == |db.rows|
            && exists i :: 0 <= i < |db.rows| && db.rows[i].id == q.id && db.rows[i].status == Running
                           && Written(db.rows[i], q, after.rows[i]) && after.txns[m.t].phase == Done(Ok(after.rows[i]))
                           && after.rows == db.rows[i := after.rows[i]]
  {
    CommitFinish(hash, db, m.t);
    var x := db.txns[m.t];
    assert TxnOk(db.rows, x);
    var k: nat :| RowIs(db.rows, k, x.phase.before);
    FindIdUnique(db.rows, x.job.finish.id, k);
    assert Written(db.rows[k], x.job.finish, Step(hash, db, m).rows[k]);
  }

  /** A step that commits nothing leaves the rows and every transaction that has ended. */
  lemma QuietStep(hash: Series -> int, db: Database, m: Move)
    requires m.Abort? || m.t !in db.txns || !(db.txns[m.t].phase.Inserted? || db.txns[m.t].phase.RowLocked?)
    ensures Step(hash, db, m).rows == db.rows
  {
  }

  lemma EndedTxnsStay(hash: Series -> int, db: Database, m: Move)
    ensures forall t | t in db.txns && Ended(db.txns[t]) :: t in Step(hash, db, m).txns && Step(hash, db, m).txns[t] == db.txns[t]
  {
  }

  lemma StarterStays(first: seq<Span>, db: Database, after: Database, i: nat)
    requires i < |db.rows| && i < |after.rows| && HasStarter(first, db, i) && Continues(db.rows[i], after.rows[i])
    requires forall t | t in db.txns && Ended(db.txns[t]) :: t in after.txns && after.txns[t] == db.txns[t]
    ensures HasStarter(first, after, i)
  {
    if i < |first| && Continues(first[i], db.rows[i]) {
      ContinuesOn(first[i], db.rows[i], after.rows[i]);
    } else {
      var t :| t in db.txns && Started(db.txns[t], db.rows[i]);
      ContinuesOn(db.txns[t].phase.r.value, db.rows[i], after.rows[i]);
      assert Started(after.txns[t], after.rows[i]);
    }
  }

  lemma FinisherStays(first: seq<Span>, db: Database, after: Database, i: nat)
    requires i < |db.rows| && i < |after.rows| && HasFinisher(first, db, i) && db.rows[i] == after.rows[i]
    requires forall t | t in db.txns && Ended(db.txns[t]) :: t in after.txns && after.txns[t] == db.txns[t]
    ensures HasFinisher(first, after, i)
  {
    if t :| t in db.txns && FinishedAs(db.txns[t], db.rows[i]) {
      assert FinishedAs(after.txns[t], after.rows[i]);
    }
  }

  lemma InsertAuthored(hash: Series -> int, first: seq<Span>, db: Database, m: Move)
    requires Inv(hash, db) && Authored(first, db)
    requires m.Advance? && m.t in db.txns && db.txns[m.t].job.StartJob? && db.txns[m.t].phase.Inserted?
    ensures Authored(first, Step(hash, db, m))
  {
    var after := Step(hash, db, m);
    StartCommits(hash, db, m);
    EndedTxnsStay(hash, db, m);
    forall i | 0 <= i < |after.rows|
      ensures HasStarter(first, after, i) && HasFinisher(first, after, i)
    {
      if i < |db.rows| {
        StarterStays(first, db, after, i);
        FinisherStays(first, db, after, i);
      } else {
        assert Started(after.txns[m.t], after.rows[i]);
      }
    }
  }

  lemma FinishAuthored(hash: Series -> int, first: seq<Span>, db: Database, m: Move)
    requires Inv(hash, db) && Authored(first, db)
    requires m.Advance? && m.t in db.txns && db.txns[m.t].job.FinishJob? && db.txns[m.t].phase.RowLocked?
    ensures Authored(first, Step(hash, db, m))
  {
    var after, q := Step(hash, db, m), db.txns[m.t].job.finish;
    FinishCommitsResult(hash, db, m);
    EndedTxnsStay(hash, db, m);
    var k :| 0 <= k < |db.rows| && db.rows[k].id == q.id && db.rows[k].status == Running
      && Written(db.rows[k], q, after.rows[k]) && after.txns[m.t].phase == Done(Ok(after.rows[k]))
      && after.rows == db.rows[k := after.rows[k]];
    RowContinues(hash, db, m, k);
    UpdateAuthored(first, db, after, m.t, k);
  }

  lemma UpdateAuthored(first: seq<Span>, db: Database, after: Database, t: TxnId, k: nat)
    requires Authored(first, db) && k < |db.rows| == |after.rows| && after.rows == db.rows[k := after.rows[k]]
    requires Continues(db.rows[k], after.rows[k]) && t in after.txns && FinishedAs(after.txns[t], after.rows[k])
    requires forall u | u in db.txns && Ended(db.txns[u]) :: u in after.txns && after.txns[u] == db.txns[u]
    ensures Authored(first, after)
  {
    forall i | 0 <= i < |after.rows|
      ensures HasStarter(first, after, i) && HasFinisher(first, after, i)
    {
      StarterStays(first, db, after, i);
      if i != k {
        FinisherStays(first, db, after, i);
      }
    }
  }

  lemma RowContinues(hash: Series -> int, db: Database, m: Move, k: nat)
    requires Inv(hash, db) && m.Advance? && m.t in db.txns && db.txns[m.t].job.FinishJob? && db.txns[m.t].phase.RowLocked?
    requires k < |db.rows| && db.rows[k].id == db.txns[m.t].job.finish.id
    ensures k < |Step(hash, db, m).rows| && Continues(db.rows[k], Step(hash, db, m).rows[k])
  {
    CommitFinish(hash, db, m.t);
    FindIdUnique(db.rows, db.rows[k].id, k);
  }

  lemma StepAuthored(hash: Series -> int, first: seq<Span>, db: Database, m: Move)
    requires Inv(hash, db) && Authored(first, db)
    ensures Authored(first, Step(hash, db, m))
  {
    if m.Advance? && m.t in db.txns && (db.txns[m.t].phase.Inserted? || db.txns[m.t].phase.RowLocked?) {
      assert TxnOk(db.rows, db.txns[m.t]);
      if db.txns[m.t].job.StartJob? {
        InsertAuthored(hash, first, db, m);
      } else {
        FinishAuthored(hash, first, db, m);
      }
    } else {
      QuietStep(hash, db, m);
      EndedTxnsStay(hash, db, m);
      var after := Step(hash, db, m);
      forall i | 0 <= i < |after.rows|
        ensures HasStarter(first, after, i) && HasFinisher(first, after, i)
      {
        StarterStays(first, db, after, i);
        FinisherStays(first, db, after, i);
      }
    }
  }

  /** In every interleaving, every row shows what the request of its start transaction gave it, and every finished row
      what the request of its finish transaction gave it, unless they were there before. */
  lemma {:induction false} RowsShowTheirRequests(hash: Series -> int, first: seq<Span>, db: Database, moves: seq<Move>)
    requires Inv(hash, db) && Authored(first, db)
    ensures Authored(first, Run(hash, db, moves))
    decreases |moves|
  {
    if moves != [] {
      StepKeepsInv(hash, db, moves[0]);
      StepAuthored(hash, first, db, moves[0]);
      RowsShowTheirRequests(hash, first, Step(hash, db, moves[0]), moves[1..]);
    }
  }

  /** So it is for every run that begins with these rows. */
  lemma EveryRowHasAuthors(hash: Series -> int, db: Database, moves: seq<Move>)
    requires Initial(db)
    ensures Authored(db.rows, Run(hash, db, moves))
  {
    RowsShowTheirRequests(hash, db.rows, db, moves);
  }
}
