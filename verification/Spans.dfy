/** Trace spans and the facts every span table keeps, whichever store writes it. */
module Spans {
  import opened Outcomes

  datatype Status = Running | Succeeded | Failed | Interrupted

  type SpanId = nat

  datatype Span = Span(
    id: SpanId,
    trace: string,
    run: string,
    incident: string,
    parent: Option<SpanId>,
    kind: string,
    name: string,
    status: Status,
    started: int,
    ended: Option<int>,
    duration: Option<int>,
    attempt: nat,
    errorCode: Option<string>,
    attributes: map<string, string>,
    key: Option<string>)

  /** What one attempt counter ranges over. */
  datatype Series = Series(incident: string, run: string, kind: string, name: string)

  function SeriesOf(s: Span): Series {
    Series(s.incident, s.run, s.kind, s.name)
  }

  /** `SELECT COUNT(*)` over one series. */
  function CountSeries(rows: seq<Span>, series: Series): nat {
    if rows == [] then 0
    else CountSeries(rows[..|rows| - 1], series) + if SeriesOf(rows[|rows| - 1]) == series then 1 else 0
  }

  /** The row with the idempotency key, if any. */
  function FindKey(rows: seq<Span>, incident: string, key: string): (r: Option<Span>)
    ensures r.Some? ==> r.value in rows && r.value.incident == incident && r.value.key == Some(key)
    ensures r.None? ==> forall s | s in rows :: s.incident == incident ==> s.key != Some(key)
  {
    if rows == [] then None
    else if rows[0].incident == incident && rows[0].key == Some(key) then Some(rows[0])
    else
      var r := FindKey(rows[1..], incident, key);
      assert rows == [rows[0]] + rows[1..];
      r
  }

  /** The position of the row with the identifier, or the number of rows. */
  function FindId(rows: seq<Span>, id: SpanId): (i: nat)
    ensures i <= |rows|
    ensures i < |rows| ==> rows[i].id == id
    ensures forall k | 0 <= k < i :: rows[k].id != id
  {
    if rows == [] || rows[0].id == id then 0 else 1 + FindId(rows[1..], id)
  }

  predicate SameIdentity(a: Span, b: Span) {
    (a.trace, a.run, a.incident) == (b.trace, b.run, b.incident)
  }

  // ---- the facts ----

  ghost predicate DistinctIds(rows: seq<Span>) {
    forall i, j | 0 <= i < j < |rows| :: rows[i].id != rows[j].id
  }

  ghost predicate DistinctKeys(rows: seq<Span>) {
    forall i, j | 0 <= i < j < |rows| && rows[i].incident == rows[j].incident && rows[i].key.Some? ::
      rows[i].key != rows[j].key
  }

  ghost predicate ParentAt(rows: seq<Span>, j: nat, child: Span) {
    j < |rows| && child.parent == Some(rows[j].id) && SameIdentity(rows[j], child)
  }

  /** Every parent was inserted earlier and shares trace, run and incident. */
  ghost predicate Forest(rows: seq<Span>) {
    forall i | 0 <= i < |rows| && rows[i].parent.Some? :: exists j :: 0 <= j < i && ParentAt(rows, j, rows[i])
  }

  /** Every row carries the number of its predecessors in its series, plus one. */
  ghost predicate Numbered(rows: seq<Span>) {
    forall i | 0 <= i < |rows| :: rows[i].attempt == CountSeries(rows[..i], SeriesOf(rows[i])) + 1
  }

  predicate WellTimed(s: Span) {
    if s.status == Running then s.ended.None? && s.duration.None?
    else s.ended.Some? && s.ended.value >= s.started && s.duration == Some((s.ended.value - s.started) * 1000)
  }

  ghost predicate Sound(rows: seq<Span>) {
    && DistinctIds(rows)
    && DistinctKeys(rows)
    && Forest(rows)
    && Numbered(rows)
    && forall s | s in rows :: WellTimed(s)
  }

  // ---- consequences ----

  /** The attempts of one series, in insertion order. */
  function Attempts(rows: seq<Span>, series: Series): seq<nat> {
    if rows == [] then []
    else Attempts(rows[..|rows| - 1], series)
         + if SeriesOf(rows[|rows| - 1]) == series then [rows[|rows| - 1].attempt] else []
  }

  lemma PrefixNumbered(rows: seq<Span>, n: nat)
    requires Numbered(rows) && n <= |rows|
    ensures Numbered(rows[..n])
  {
    forall i | 0 <= i < n
      ensures rows[..n][i].attempt == CountSeries(rows[..n][..i], SeriesOf(rows[..n][i])) + 1
    {
      assert rows[..n][..i] == rows[..i];
    }
  }

  /** The attempts of a series are 1, 2, …, n in insertion order. */
  lemma {:induction false} AttemptsAreConsecutive(rows: seq<Span>, series: Series)
    requires Numbered(rows)
    ensures Attempts(rows, series) == seq(CountSeries(rows, series), k => k + 1)
  {
    if rows != [] {
      var n := |rows| - 1;
      PrefixNumbered(rows, n);
      AttemptsAreConsecutive(rows[..n], series);
      assert rows[n].attempt == CountSeries(rows[..n], SeriesOf(rows[n])) + 1;
    }
  }

  /** The position of the root above a row. */
  ghost function Root(rows: seq<Span>, i: nat): (r: nat)
    requires Forest(rows) && i < |rows|
    ensures r <= i
    decreases i
  {
    if rows[i].parent.None? then i
    else
      var j :| 0 <= j < i && ParentAt(rows, j, rows[i]);
      Root(rows, j)
  }

  /** Following parents from any row ends, at an earlier row without a parent, in the same trace, run and
      incident. */
  lemma {:induction false} RootShares(rows: seq<Span>, i: nat)
    requires Forest(rows) && i < |rows|
    ensures Root(rows, i) <= i && rows[Root(rows, i)].parent.None? && SameIdentity(rows[Root(rows, i)], rows[i])
    decreases i
  {
    if rows[i].parent.Some? {
      var j :| 0 <= j < i && ParentAt(rows, j, rows[i]) && Root(rows, i) == Root(rows, j);
      RootShares(rows, j);
    }
  }

  // ---- how the facts survive an insert and a finish ----

  lemma {:induction false} CountIgnoresUpdates(rows: seq<Span>, other: seq<Span>, series: Series)
    requires |rows| == |other| && forall i | 0 <= i < |rows| :: SeriesOf(rows[i]) == SeriesOf(other[i])
    ensures CountSeries(rows, series) == CountSeries(other, series)
  {
    if rows != [] {
      CountIgnoresUpdates(rows[..|rows| - 1], other[..|other| - 1], series);
    }
  }

  lemma InsertNumbered(rows: seq<Span>, s: Span)
    requires Numbered(rows) && s.attempt == CountSeries(rows, SeriesOf(s)) + 1
    ensures Numbered(rows + [s])
  {
    var more := rows + [s];
    forall i | 0 <= i < |more|
      ensures more[i].attempt == CountSeries(more[..i], SeriesOf(more[i])) + 1
    {
      assert more[..i] == rows[..i];
      assert i == |rows| ==> rows[..i] == rows;
    }
  }

  lemma InsertForest(rows: seq<Span>, s: Span)
    requires Forest(rows) && (s.parent.Some? ==> exists j :: ParentAt(rows, j, s))
    ensures Forest(rows + [s])
  {
    var more := rows + [s];
    forall i | 0 <= i < |more| && more[i].parent.Some?
      ensures exists j :: 0 <= j < i && ParentAt(more, j, more[i])
    {
      if i < |rows| {
        var j :| 0 <= j < i && ParentAt(rows, j, rows[i]);
        assert ParentAt(more, j, more[i]);
      } else {
        var j :| ParentAt(rows, j, s);
        assert ParentAt(more, j, more[i]);
      }
    }
  }

  /** Inserting a numbered row with a new identifier, a new key and a stored parent keeps the table sound. */
  lemma InsertKeepsSound(rows: seq<Span>, s: Span)
    requires Sound(rows) && WellTimed(s)
    requires forall t | t in rows :: t.id != s.id && (t.incident == s.incident && s.key.Some? ==> t.key != s.key)
    requires s.parent.Some? ==> exists j :: ParentAt(rows, j, s)
    requires s.attempt == CountSeries(rows, SeriesOf(s)) + 1
    ensures Sound(rows + [s])
  {
    InsertNumbered(rows, s);
    InsertForest(rows, s);
  }

  /** `after` is `before` with only the result columns written. */
  predicate Finishes(before: Span, after: Span) {
    && before.status == Running && after.status != Running
    && WellTimed(after)
    && after == before.(status := after.status, ended := after.ended, duration := after.duration,
                        errorCode := after.errorCode, attributes := after.attributes)
  }

  ghost predicate OnlyResultChanges(rows: seq<Span>, more: seq<Span>) {
    |rows| == |more|
    && forall k | 0 <= k < |rows| ::
        more[k] == rows[k].(status := more[k].status, ended := more[k].ended, duration := more[k].duration,
                            errorCode := more[k].errorCode, attributes := more[k].attributes)
  }

  lemma UpdateNumbered(rows: seq<Span>, more: seq<Span>)
    requires Numbered(rows) && OnlyResultChanges(rows, more)
    ensures Numbered(more)
  {
    forall k | 0 <= k < |more|
      ensures more[k].attempt == CountSeries(more[..k], SeriesOf(more[k])) + 1
    {
      CountIgnoresUpdates(rows[..k], more[..k], SeriesOf(rows[k]));
    }
  }

  lemma UpdateForest(rows: seq<Span>, more: seq<Span>)
    requires Forest(rows) && OnlyResultChanges(rows, more)
    ensures Forest(more)
  {
    forall k | 0 <= k < |more| && more[k].parent.Some?
      ensures exists j :: 0 <= j < k && ParentAt(more, j, more[k])
    {
      var j :| 0 <= j < k && ParentAt(rows, j, rows[k]);
      assert ParentAt(more, j, more[k]);
    }
  }

  lemma UpdateKeepsSound(rows: seq<Span>, i: nat, after: Span)
    requires Sound(rows) && i < |rows| && Finishes(rows[i], after)
    ensures Sound(rows[i := after])
  {
    UpdateNumbered(rows, rows[i := after]);
    UpdateForest(rows, rows[i := after]);
  }
}
