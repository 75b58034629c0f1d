/** The `detection_logs` table, held as an in-memory sequence of rows: creating a
    detection from a sample, and the employee/date-window/newest-first/limit query of the
    detections endpoints. Timestamps are whole seconds. */
module DetectionLog {
  import opened Wrappers
  import opened Ordering
  import opened Sampler

  /** A stored row. `isPresent` is the integer column (1 present, 0 absent). */
  datatype Row = Row(
    id: int,
    employeeId: string,
    timestamp: int,
    isPresent: int,
    emotion: Option<string>,
    confidence: Option<real>)

  /** The JSON a detections endpoint returns for a row. */
  datatype DetectionResponse = DetectionResponse(
    id: int,
    employeeId: string,
    timestamp: int,
    isPresent: bool,
    emotion: Option<string>,
    confidence: Option<real>)

  /** `1 if is_present else 0`. */
  function PresenceColumn(present: bool): (v: int)
    ensures v == 0 || v == 1
  {
    if present then 1 else 0
  }

  /** `bool(column)`. */
  function Truthy(v: int): bool {
    v != 0
  }

  /** Storing a presence flag and reading it back gives the same flag. */
  lemma PresenceRoundTrip(present: bool)
    ensures Truthy(PresenceColumn(present)) == present
    ensures PresenceColumn(Truthy(PresenceColumn(present))) == PresenceColumn(present)
  {
  }

  /** The id the table's integer primary key hands out: one more than the largest id in
      use, 1 for an empty table. */
  function NextId(rows: seq<Row>): (id: int)
    ensures id >= 1
    ensures forall r :: r in rows ==> r.id < id
    decreases |rows|
  {
    if |rows| == 0 then 1
    else
      var rest := NextId(rows[..|rows| - 1]);
      var last := rows[|rows| - 1];
      assert forall r :: r in rows ==> r == last || r in rows[..|rows| - 1];
      if last.id + 1 > rest then last.id + 1 else rest
  }

  /** The row `create_detection` stores for an observation. */
  function NewRow(rows: seq<Row>, employeeId: string, o: Observation, now: int): Row {
    Row(NextId(rows), employeeId, now, PresenceColumn(o.isPresent), o.emotion, o.confidence)
  }

  /** The response for a stored row. */
  function Respond(r: Row): DetectionResponse {
    DetectionResponse(r.id, r.employeeId, r.timestamp, Truthy(r.isPresent), r.emotion,
                      r.confidence)
  }

  /** `create_detection` reports back exactly the sampled observation, under a fresh id,
      the given employee and the current time. */
  lemma CreateDetectionRoundTrip(rows: seq<Row>, employeeId: string, o: Observation, now: int)
    ensures var resp := Respond(NewRow(rows, employeeId, o, now));
      && resp.isPresent == o.isPresent
      && resp.emotion == o.emotion && resp.confidence == o.confidence
      && resp.employeeId == employeeId && resp.timestamp == now
      && forall r :: r in rows ==> r.id != resp.id
  {
  }

  /** The simple server stores a mock sample: its response has an emotion and a confidence
      exactly when it reports presence, the emotion one of the mock labels and the
      confidence in [70, 95]. */
  lemma MockDetectionResponse(rows: seq<Row>, employeeId: string, d: SimDraws, now: int)
    requires ValidSimDraws(d, MockLabels)
    ensures var resp := Respond(NewRow(rows, employeeId, MockDetection(d), now));
      && (resp.emotion.Some? <==> resp.isPresent) && (resp.confidence.Some? <==> resp.isPresent)
      && (resp.isPresent <==> d.presence > 0.3)
      && (resp.isPresent ==> resp.emotion.value in MockLabels
                             && 70.0 <= resp.confidence.value <= 95.0)
  {
    CreateDetectionRoundTrip(rows, employeeId, MockDetection(d), now);
  }

  function RowTime(r: Row): int {
    r.timestamp
  }

  /** The employee and the optional inclusive time bounds of a query. */
  predicate InWindow(r: Row, employeeId: string, start: Option<int>, end: Option<int>) {
    && r.employeeId == employeeId
    && (start.Some? ==> r.timestamp >= start.value)
    && (end.Some? ==> r.timestamp <= end.value)
  }

  /** The rows the query's WHERE clause keeps, in table order. */
  function Select(rows: seq<Row>, employeeId: string, start: Option<int>, end: Option<int>)
    : (r: seq<Row>)
    ensures forall x :: x in r ==> x in rows && InWindow(x, employeeId, start, end)
    ensures forall x :: x in rows && InWindow(x, employeeId, start, end) ==> x in r
    ensures multiset(r) <= multiset(rows)
    decreases |rows|
  {
    if |rows| == 0 then []
    else
      var init, last := rows[..|rows| - 1], rows[|rows| - 1];
      assert rows == init + [last];
      Select(init, employeeId, start, end)
        + (if InWindow(last, employeeId, start, end) then [last] else [])
  }

  /** `ORDER BY timestamp DESC`. */
  function NewestFirst(rows: seq<Row>): seq<Row> {
    SortDesc(rows, RowTime)
  }

  /** SQL `LIMIT n`; a negative limit places no bound (SQLite's reading). */
  function Limit(rows: seq<Row>, limit: int): seq<Row> {
    if limit < 0 then rows else Take(rows, limit)
  }

  /** The detections query: the employee's rows within the bounds, newest first, at most
      `limit` of them. */
  function Query(rows: seq<Row>, employeeId: string, start: Option<int>, end: Option<int>,
                 limit: int): seq<Row>
  {
    Limit(NewestFirst(Select(rows, employeeId, start, end)), limit)
  }

  /** The query returns only the employee's rows within the bounds, taken from the table
      without duplication, newest first, as many as the limit allows; any matching row
      left out is no newer than every row returned. */
  lemma QueryContract(rows: seq<Row>, employeeId: string, start: Option<int>,
                      end: Option<int>, limit: int)
    ensures var q := Query(rows, employeeId, start, end, limit);
      var matching := Select(rows, employeeId, start, end);
      && (forall x :: x in q ==> x in rows && InWindow(x, employeeId, start, end))
      && multiset(q) <= multiset(matching)
      && SortedDesc(q, RowTime)
      && |q| == (if 0 <= limit < |matching| then limit else |matching|)
      && (forall x, y :: x in matching && x !in q && y in q ==> x.timestamp <= y.timestamp)
  {
    var matching := Select(rows, employeeId, start, end);
    var sorted := NewestFirst(matching);
    var n: nat := if limit < 0 then |sorted| else limit;
    assert Query(rows, employeeId, start, end, limit) == Take(sorted, n);
    TakePrefix(sorted, n, RowTime);
    TopN(sorted, n, RowTime);
    forall x | x in Take(sorted, n) ensures x in matching {
      assert x in multiset(sorted);
    }
    forall x | x in matching ensures x in sorted {
      assert x in multiset(matching);
    }
  }

  /** A stored detection is found again: the employee's unbounded query over the table
      after `create_detection` returns the earlier matching rows and the new row, all
      fields intact, newest first. */
  lemma StoredRowIsQueried(rows: seq<Row>, employeeId: string, o: Observation, now: int)
    ensures var r := NewRow(rows, employeeId, o, now);
      var q := Query(rows + [r], employeeId, None, None, -1);
      && r in q
      && multiset(q) == multiset(Select(rows, employeeId, None, None)) + multiset{r}
      && SortedDesc(q, RowTime)
  {
    var r := NewRow(rows, employeeId, o, now);
    var all := rows + [r];
    assert all[..|all| - 1] == rows;
    assert Select(all, employeeId, None, None) == Select(rows, employeeId, None, None) + [r];
    var q := Query(all, employeeId, None, None, -1);
    assert r in multiset(q);
  }

  /** A date query argument: absent (or empty), an ISO date that parsed, or one that did not. */
  datatype DateArg = NoDate | Date(t: int) | BadDate

  function Bound(a: DateArg): Option<int>
    requires !a.BadDate?
  {
    if a.Date? then Some(a.t) else None
  }

  /** `get_detections` of the full server: a bound that does not parse is a 400. */
  function GetDetections(rows: seq<Row>, employeeId: string, limit: int, startDate: DateArg,
                         endDate: DateArg): (r: Result<seq<DetectionResponse>>)
    ensures r.Failure? <==> startDate.BadDate? || endDate.BadDate?
    ensures r.Failure? ==> r.status == 400
    ensures r.Success? ==>
              var q := Query(rows, employeeId, Bound(startDate), Bound(endDate), limit);
              |r.value| == |q| && forall i :: 0 <= i < |q| ==> r.value[i] == Respond(q[i])
  {
    if startDate.BadDate? || endDate.BadDate? then Failure(400)
    else
      var q := Query(rows, employeeId, Bound(startDate), Bound(endDate), limit);
      Success(seq(|q|, i requires 0 <= i < |q| => Respond(q[i])))
  }

  /** `get_detections` of the simple server: no date bounds. */
  function LatestDetections(rows: seq<Row>, employeeId: string, limit: int)
    : (r: seq<DetectionResponse>)
    ensures var q := Query(rows, employeeId, None, None, limit);
      |r| == |q| && forall i :: 0 <= i < |q| ==> r[i] == Respond(q[i])
  {
    var q := Query(rows, employeeId, None, None, limit);
    seq(|q|, i requires 0 <= i < |q| => Respond(q[i]))
  }

  /** Every row the simple server returns belongs to the employee, the rows come newest
      first, and there are at most `limit` of them (any number for a negative limit). */
  lemma LatestDetectionsContract(rows: seq<Row>, employeeId: string, limit: int)
    ensures var r := LatestDetections(rows, employeeId, limit);
      && (forall i :: 0 <= i < |r| ==> r[i].employeeId == employeeId)
      && (forall i, j :: 0 <= i < j < |r| ==> r[j].timestamp <= r[i].timestamp)
      && (limit >= 0 ==> |r| <= limit)
  {
    var q := Query(rows, employeeId, None, None, limit);
    QueryContract(rows, employeeId, None, None, limit);
    forall i | 0 <= i < |q| ensures q[i].employeeId == employeeId {
      assert q[i] in q;
    }
  }

  /** The table, as the server's database holds it. */
  class Store {
    var rows: seq<Row>

    /** Opening the database: `create_all` creates the table only when the file lacks it,
        so the rows already stored are kept, and a new file starts with none. */
    constructor (stored: seq<Row>)
      ensures rows == stored
    {
      rows := stored;
    }

    /** `create_detection`: stores the sample as a new row and returns its response. */
    method CreateDetection(employeeId: string, o: Observation, now: int)
      returns (resp: DetectionResponse)
      modifies this
      ensures rows == old(rows) + [NewRow(old(rows), employeeId, o, now)]
      ensures resp == Respond(NewRow(old(rows), employeeId, o, now))
    {
      var row := NewRow(rows, employeeId, o, now);
      rows := rows + [row];
      resp := Respond(row);
    }
  }
}
