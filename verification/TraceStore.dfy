/** The sequential span store: idempotent starts, numbered attempts and write-once finishes under one lock. */
module TraceStore {
  import opened Outcomes
  import opened Spans
  import PyText

  datatype StoreError =
    | BlankField
    | ParentMismatch
    | DuplicateSpanId
    | FinishedAsRunning
    | UnknownSpan
    | EndsBeforeStart

  datatype StartRequest = StartRequest(
    trace: string,
    run: string,
    incident: string,
    kind: string,
    name: string,
    parent: Option<SpanId>,
    started: int,
    attributes: map<string, string>,
    key: Option<string>)

  datatype FinishRequest = FinishRequest(
    id: SpanId,
    status: Status,
    ended: int,
    errorCode: Option<string>,
    attributes: map<string, string>)

  /** The request with its required texts stripped. */
  function Required(q: StartRequest): StartRequest {
    q.(trace := PyText.Strip(q.trace), run := PyText.Strip(q.run), incident := PyText.Strip(q.incident),
       name := PyText.Strip(q.name))
  }

  predicate Blank(q: StartRequest) {
    var s := Required(q);
    s.trace == "" || s.run == "" || s.incident == "" || s.name == ""
  }

  function RequestSeries(q: StartRequest): Series {
    Series(q.incident, q.run, q.kind, q.name)
  }

  /** The row a stripped request would insert under a new identifier. */
  function NewSpan(q: StartRequest, id: SpanId, attempt: nat): Span {
    Span(id, q.trace, q.run, q.incident, q.parent, q.kind, q.name, Running, q.started, None, None, attempt, None,
         q.attributes, q.key)
  }

  predicate ParentFits(rows: seq<Span>, q: StartRequest) {
    q.parent.Some? ==>
      var j := FindId(rows, q.parent.value);
      j < |rows| && (rows[j].trace, rows[j].run, rows[j].incident) == (q.trace, q.run, q.incident)
  }

  /** The answer to a stripped request and the table it leaves. */
  function Insert(rows: seq<Span>, q: StartRequest, id: SpanId): (Result<Span, StoreError>, seq<Span>) {
    if q.key.Some? && FindKey(rows, q.incident, q.key.value).Some? then
      (Ok(FindKey(rows, q.incident, q.key.value).value), rows)
    else if !ParentFits(rows, q) then (Err(ParentMismatch), rows)
    else if FindId(rows, id) < |rows| then (Err(DuplicateSpanId), rows)
    else (Ok(NextSpan(rows, q, id)), rows + [NextSpan(rows, q, id)])
  }

  function NextSpan(rows: seq<Span>, q: StartRequest, id: SpanId): Span {
    NewSpan(q, id, CountSeries(rows, RequestSeries(q)) + 1)
  }

  /** The answer to a start and the table it leaves. */
  function Start(rows: seq<Span>, q: StartRequest, id: SpanId): (Result<Span, StoreError>, seq<Span>) {
    if Blank(q) then (Err(BlankField), rows) else Insert(rows, Required(q), id)
  }

  function Finished(s: Span, q: FinishRequest): Span {
    s.(status := q.status, ended := Some(q.ended), duration := Some((q.ended - s.started) * 1000),
       errorCode := q.errorCode, attributes := s.attributes + q.attributes)
  }

  /** The answer to a finish and the table it leaves. */
  function Finish(rows: seq<Span>, q: FinishRequest): (Result<Span, StoreError>, seq<Span>) {
    var i := FindId(rows, q.id);
    if q.status == Running then (Err(FinishedAsRunning), rows)
    else if i == |rows| then (Err(UnknownSpan), rows)
    else if rows[i].status != Running then (Ok(rows[i]), rows)
    else if q.ended < rows[i].started then (Err(EndsBeforeStart), rows)
    else (Ok(Finished(rows[i], q)), rows[i := Finished(rows[i], q)])
  }

  class SQLiteTraceStore {
    var rows: seq<Span>

    ghost predicate Valid()
      reads this
    {
      Sound(rows)
    }

    constructor ()
      ensures Valid() && rows == []
    {
      rows := [];
    }

    /** `id` is the identifier drawn for the span. */
    method StartSpan(q: StartRequest, id: SpanId) returns (r: Result<Span, StoreError>)
      requires Valid()
      modifies this
      ensures Valid()
      ensures (r, rows) == Start(old(rows), q, id)
    {
      StartKeepsSound(rows, q, id);
      if Blank(q) {
        return Err(BlankField);
      }
      r := StartLocked(Required(q), id);
    }

    /** The statements run under the lock, in one connection. */
    method StartLocked(required: StartRequest, id: SpanId) returns (r: Result<Span, StoreError>)
      modifies this
      ensures (r, rows) == Insert(old(rows), required, id)
    {
      if required.key.Some? {
        var existing := FindKey(rows, required.incident, required.key.value);
        if existing.Some? {
          return Ok(existing.value);
        }
      }
      if !ParentFits(rows, required) {
        return Err(ParentMismatch);
      }
      var attempt := CountSeries(rows, RequestSeries(required)) + 1;
      if FindId(rows, id) < |rows| {
        return Err(DuplicateSpanId);
      }
      var span := NewSpan(required, id, attempt);
      rows := rows + [span];
      return Ok(span);
    }

    method FinishSpan(q: FinishRequest) returns (r: Result<Span, StoreError>)
      requires Valid()
      modifies this
      ensures Valid()
      ensures (r, rows) == Finish(old(rows), q)
    {
      FinishKeepsSound(rows, q);
      if q.status == Running {
        return Err(FinishedAsRunning);
      }
      var i := FindId(rows, q.id);
      if i == |rows| {
        return Err(UnknownSpan);
      }
      var current := rows[i];
      if current.status != Running {
        return Ok(current);
      }
      if q.ended < current.started {
        return Err(EndsBeforeStart);
      }
      rows := rows[i := Finished(current, q)];
      return Ok(rows[i]);
    }
  }

  lemma InsertSound(rows: seq<Span>, q: StartRequest, id: SpanId)
    requires Sound(rows)
    ensures Sound(Insert(rows, q, id).1)
  {
    if Insert(rows, q, id).1 != rows {
      InsertFits(rows, q, id);
    }
  }

  lemma InsertFits(rows: seq<Span>, q: StartRequest, id: SpanId)
    requires Sound(rows) && ParentFits(rows, q) && FindId(rows, id) == |rows|
    requires q.key.Some? ==> FindKey(rows, q.incident, q.key.value).None?
    ensures Sound(rows + [NextSpan(rows, q, id)])
  {
    var s := NextSpan(rows, q, id);
    if q.parent.Some? {
      assert ParentAt(rows, FindId(rows, q.parent.value), s);
    }
    InsertKeepsSound(rows, s);
  }

  lemma StartKeepsSound(rows: seq<Span>, q: StartRequest, id: SpanId)
    requires Sound(rows)
    ensures Sound(Start(rows, q, id).1)
  {
    InsertSound(rows, Required(q), id);
  }

  lemma FinishKeepsSound(rows: seq<Span>, q: FinishRequest)
    requires Sound(rows)
    ensures Sound(Finish(rows, q).1)
  {
    var i := FindId(rows, q.id);
    if q.status != Running && i < |rows| && rows[i].status == Running && q.ended >= rows[i].started {
      UpdateKeepsSound(rows, i, Finished(rows[i], q));
    }
  }

  // ---- whole runs ----

  datatype Call = StartCall(start: StartRequest, id: SpanId) | FinishCall(finish: FinishRequest)

  function Apply(rows: seq<Span>, c: Call): seq<Span> {
    match c
    case StartCall(q, id) => Start(rows, q, id).1
    case FinishCall(q) => Finish(rows, q).1
  }

  function Replay(rows: seq<Span>, calls: seq<Call>): seq<Span>
    decreases |calls|
  {
    if calls == [] then rows else Replay(Apply(rows, calls[0]), calls[1..])
  }

  /** Every reachable table is a forest with numbered attempts, unique keys and well-timed finishes. */
  lemma {:induction false} ReachableSound(rows: seq<Span>, calls: seq<Call>)
    requires Sound(rows)
    ensures Sound(Replay(rows, calls))
    decreases |calls|
  {
    if calls != [] {
      match calls[0]
      case StartCall(q, id) =>
        StartKeepsSound(rows, q, id);
        ReachableSound(Apply(rows, calls[0]), calls[1..]);
      case FinishCall(q) =>
        FinishKeepsSound(rows, q);
        ReachableSound(Apply(rows, calls[0]), calls[1..]);
    }
  }

  /** `now` is what a row can have become: itself, or its finished form when it was still running. */
  predicate Continues(before: Span, now: Span) {
    now == before || Finishes(before, now)
  }

  lemma RowAfterCall(rows: seq<Span>, call: Call, i: nat)
    requires i < |rows|
    ensures i < |Apply(rows, call)| && Continues(rows[i], Apply(rows, call)[i])
  {
  }

  lemma ContinuesOn(before: Span, now: Span, later: Span)
    requires Continues(before, now) && Continues(now, later)
    ensures Continues(before, later)
  {
  }

  /** Rows are never lost or renumbered, and a finished row never changes again. */
  lemma {:induction false} RowsPersist(rows: seq<Span>, calls: seq<Call>, i: nat)
    requires i < |rows|
    ensures i < |Replay(rows, calls)| && Continues(rows[i], Replay(rows, calls)[i])
    decreases |calls|
  {
    if calls != [] {
      var next := Apply(rows, calls[0]);
      RowAfterCall(rows, calls[0], i);
      RowsPersist(next, calls[1..], i);
      ContinuesOn(rows[i], next[i], Replay(rows, calls)[i]);
    }
  }

  /** Starting again with a key that a start already used returns that span, finished or not, and changes
      nothing, whatever happened in between. */
  lemma RepeatedKey(rows: seq<Span>, q: StartRequest, id: SpanId, calls: seq<Call>, again: StartRequest, id': SpanId)
    requires Sound(rows) && q.key.Some? && Start(rows, q, id).0.Ok?
    requires again.key == q.key && Required(again).incident == Required(q).incident && !Blank(again)
    ensures var first := Start(rows, q, id);
            var later := Replay(first.1, calls);
            var second := Start(later, again, id');
            second.0.Ok? && Continues(first.0.value, second.0.value) && second.1 == later
  {
    var first := Insert(rows, Required(q), id);
    InsertSound(rows, Required(q), id);
    var i := KeyedRow(rows, Required(q), id);
    ReachableSound(first.1, calls);
    RowsPersist(first.1, calls, i);
    KeyFound(Replay(first.1, calls), i, Required(q).incident, q.key.value);
  }

  lemma KeyedRow(rows: seq<Span>, q: StartRequest, id: SpanId) returns (i: nat)
    requires q.key.Some? && Insert(rows, q, id).0.Ok?
    ensures var r := Insert(rows, q, id);
            i < |r.1| && r.1[i] == r.0.value && r.0.value.incident == q.incident && r.0.value.key == q.key
  {
    var r := Insert(rows, q, id);
    if r.1 == rows {
      i :| 0 <= i < |rows| && rows[i] == r.0.value;
    } else {
      i := |rows|;
    }
  }

  /** In a sound table the row with a key is the one the key finds. */
  lemma KeyFound(rows: seq<Span>, i: nat, incident: string, key: string)
    requires DistinctKeys(rows) && i < |rows| && rows[i].incident == incident && rows[i].key == Some(key)
    ensures FindKey(rows, incident, key) == Some(rows[i])
  {
    assert rows[i] in rows;
    var found := FindKey(rows, incident, key);
    var k :| 0 <= k < |rows| && rows[k] == found.value;
    if k != i {
      assert rows[k].key == rows[i].key;
    }
  }

  // ---- what is written ----

  /** A row that shows the request it was started by, at its beginning. */
  predicate StartedFrom(q: StartRequest, s: Span) {
    && (s.trace, s.run, s.incident, s.kind, s.name) == (q.trace, q.run, q.incident, q.kind, q.name)
    && (s.parent, s.started, s.attributes, s.key) == (q.parent, q.started, q.attributes, q.key)
    && s.status == Running && s.ended.None? && s.duration.None? && s.errorCode.None?
  }

  /** The rows of one series. */
  function InSeries(rows: seq<Span>, incident: string, run: string, kind: string, name: string): set<nat> {
    set i: nat | i < |rows| && (rows[i].incident, rows[i].run, rows[i].kind, rows[i].name) == (incident, run, kind, name)
  }

  lemma {:induction false} CountIsSize(rows: seq<Span>, incident: string, run: string, kind: string, name: string)
    ensures CountSeries(rows, Series(incident, run, kind, name)) == |InSeries(rows, incident, run, kind, name)|
  {
    if rows != [] {
      var n := |rows| - 1;
      CountIsSize(rows[..n], incident, run, kind, name);
      OneRowMore(rows, incident, run, kind, name);
    }
  }

  lemma OneRowMore(rows: seq<Span>, incident: string, run: string, kind: string, name: string)
    requires rows != []
    ensures var n := |rows| - 1;
            |InSeries(rows, incident, run, kind, name)| ==
            |InSeries(rows[..n], incident, run, kind, name)|
            + if (rows[n].incident, rows[n].run, rows[n].kind, rows[n].name) == (incident, run, kind, name) then 1 else 0
  {
    var n := |rows| - 1;
    var fewer, all := InSeries(rows[..n], incident, run, kind, name), InSeries(rows, incident, run, kind, name);
    assert all == if n in all then fewer + {n} else fewer;
  }

  ghost predicate KeyUsed(rows: seq<Span>, incident: string, key: Option<string>) {
    key.Some? && exists s :: s in rows && s.incident == incident && s.key == key
  }

  ghost predicate ParentStored(rows: seq<Span>, q: StartRequest) {
    q.parent.None? || exists s :: s in rows && q.parent == Some(s.id) && (s.trace, s.run, s.incident) == (q.trace, q.run, q.incident)
  }

  /** What a start answers and writes: the row of a used key, a refusal, or a new row with the stripped request and the
      next attempt number of its incident, run, kind and name. */
  lemma StartWrites(rows: seq<Span>, q: StartRequest, id: SpanId)
    requires Sound(rows)
    ensures var (answer, after) := Start(rows, q, id);
            var p := q.(trace := PyText.Strip(q.trace), run := PyText.Strip(q.run), incident := PyText.Strip(q.incident), name := PyText.Strip(q.name));
            if "" in {p.trace, p.run, p.incident, p.name} then answer == Err(BlankField) && after == rows
            else if KeyUsed(rows, p.incident, p.key) then
              answer.Ok? && answer.value in rows && answer.value.incident == p.incident && answer.value.key == p.key && after == rows
            else if !ParentStored(rows, p) then answer == Err(ParentMismatch) && after == rows
            else if exists s :: s in rows && s.id == id then answer == Err(DuplicateSpanId) && after == rows
            else
              && answer.Ok? && after == rows + [answer.value] && answer.value.id == id && StartedFrom(p, answer.value)
              && answer.value.attempt == 1 + |InSeries(rows, p.incident, p.run, p.kind, p.name)|
  {
    var p := Required(q);
    CountIsSize(rows, p.incident, p.run, p.kind, p.name);
    ParentFitsStored(rows, p);
    IdStored(rows, id);
  }

  lemma IdStored(rows: seq<Span>, id: SpanId)
    ensures FindId(rows, id) < |rows| <==> exists s :: s in rows && s.id == id
  {
    if s :| s in rows && s.id == id {
      var k :| 0 <= k < |rows| && rows[k] == s;
    }
  }

  lemma ParentFitsStored(rows: seq<Span>, q: StartRequest)
    requires DistinctIds(rows)
    ensures ParentFits(rows, q) <==> ParentStored(rows, q)
  {
    if q.parent.Some? {
      var j := FindId(rows, q.parent.value);
      if s :| s in rows && s.id == q.parent.value {
        var k :| 0 <= k < |rows| && rows[k] == s;
        assert j <= k && rows[j].id == rows[k].id;
      }
    }
  }

  /** `now` is `before` with the result that the request gives: its status, its end, its error, and its attributes, which
      replace or join those of the start. */
  predicate Written(before: Span, q: FinishRequest, now: Span) {
    && (now.status, now.ended, now.errorCode) == (q.status, Some(q.ended), q.errorCode)
    && now.duration == Some((q.ended - before.started) * 1000)
    && now.attributes.Keys == before.attributes.Keys + q.attributes.Keys
    && (forall k | k in now.attributes :: now.attributes[k] == if k in q.attributes then q.attributes[k] else before.attributes[k])
    && (now.id, now.trace, now.run, now.incident, now.kind, now.name)
       == (before.id, before.trace, before.run, before.incident, before.kind, before.name)
    && (now.parent, now.started, now.attempt, now.key) == (before.parent, before.started, before.attempt, before.key)
  }

  /** What a finish answers and writes: it is refused, or answered from a row that is finished already, or it writes the
      requested result to the running row and to no other. */
  lemma FinishWrites(rows: seq<Span>, q: FinishRequest, i: nat)
    requires Sound(rows) && i < |rows| && rows[i].id == q.id
    ensures var (answer, after) := Finish(rows, q);
            if q.status == Running then answer == Err(FinishedAsRunning) && after == rows
            else if rows[i].status != Running then answer == Ok(rows[i]) && after == rows
            else if q.ended < rows[i].started then answer == Err(EndsBeforeStart) && after == rows
            else
              && |after| == |rows| && answer == Ok(after[i]) && Written(rows[i], q, after[i])
              && forall k | 0 <= k < |rows| && k != i :: after[k] == rows[k]
  {
    var j := FindId(rows, q.id);
    assert j <= i && rows[j].id == rows[i].id;
  }

  /** Without such a row nothing is written. */
  lemma UnknownSpanIsRefused(rows: seq<Span>, q: FinishRequest)
    requires forall s | s in rows :: s.id != q.id
    ensures Finish(rows, q) == (Err(if q.status == Running then FinishedAsRunning else UnknownSpan), rows)
  {
    IdStored(rows, q.id);
  }
}
