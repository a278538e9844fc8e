/**
  Queries: `databaseQuery(factory, extraction)` is a function from a connection
  that prepares the statement, executes it, hands the result set to the
  extraction and closes the result set and then the statement, whatever
  happened. The two extractions the library offers read every row
  (`multipleRowExtraction`) or exactly one (`singleRowExtraction`), each row
  through a row mapper.
*/
module DatabaseQueryFunctions {
  import opened Jdbc
  import opened DatabaseStatementFunctions

  /** A row mapper reads the row the result set is on; it may throw. */
  type RowMapper<R> = Row -> Result<R>

  /** The extractions `multipleRowExtraction(mapper)` and `singleRowExtraction(mapper)`. */
  datatype Extraction<R> =
    | MultipleRowExtraction(mapper: RowMapper<R>)
    | SingleRowExtraction(mapper: RowMapper<R>)

  /** What an extraction yields: a list of records, or one record. */
  datatype Extracted<R> = Records(records: seq<R>) | Record(record: R)

  const NoDataFound := SqlError("No data found")

  const MoreThanOneRecord := SqlError("More than one record in result")

  /** Reference semantics of multiple-row extraction: map the rows in order; the first mapper exception ends it. */
  function MapRows<R>(rows: seq<Row>, mapper: RowMapper<R>): Result<seq<R>>
  {
    if |rows| == 0 then Success([])
    else
      match mapper(rows[0])
      case Failure(e) => Failure(e)
      case Success(first) =>
        match MapRows(rows[1..], mapper)
        case Failure(e) => Failure(e)
        case Success(rest) => Success([first] + rest)
  }

  /** Reference semantics of single-row extraction. */
  function SingleRow<R>(rows: seq<Row>, mapper: RowMapper<R>): Result<R>
  {
    if |rows| == 0 then Failure(NoDataFound)
    else
      match mapper(rows[0])
      case Failure(e) => Failure(e)
      case Success(record) => if |rows| > 1 then Failure(MoreThanOneRecord) else Success(record)
  }

  /** What an extraction makes of the rows its result set still holds. */
  function Extract<R>(extraction: Extraction<R>, rows: seq<Row>): Result<Extracted<R>>
  {
    match extraction
    case MultipleRowExtraction(mapper) =>
      (match MapRows(rows, mapper) case Failure(e) => Failure(e) case Success(records) => Success(Records(records)))
    case SingleRowExtraction(mapper) =>
      (match SingleRow(rows, mapper) case Failure(e) => Failure(e) case Success(record) => Success(Record(record)))
  }

  /**
    Reference semantics of performQueryOnConnection: the statement is closed
    after the result set, whether or not the query or the extraction threw; the
    first exception thrown wins.
  */
  function PerformQuery<R>(b: Backend, s: ConnState, factory: StatementFactory, extraction: Extraction<R>): Step<Extracted<R>>
  {
    var prepared := Prepare(b, s, factory);
    if prepared.result.Failure? then Step(Failure(prepared.result.error), prepared.state)
    else
      var ps := prepared.result.value;
      var executed := ExecuteQueryStep(b, prepared.state, ps);
      if executed.result.Failure? then
        var closedPs := CloseStatementStep(b, executed.state, ps);
        Step(Closing(Failure(executed.result.error), closedPs.result), closedPs.state)
      else
        var extracted := Extract(extraction, executed.result.value);
        var closedRs := CloseResultSetStep(b, executed.state);
        var closedPs := CloseStatementStep(b, closedRs.state, ps);
        Step(Closing(Closing(extracted, closedRs.result), closedPs.result), closedPs.state)
  }

  /**
    Multiple-row extraction succeeds exactly when the mapper succeeds on every
    row; it then yields one record per row, in the rows' order.
  */
  lemma {:induction false} MapRowsSucceeds<R>(rows: seq<Row>, mapper: RowMapper<R>)
    ensures MapRows(rows, mapper).Success? <==> forall i :: 0 <= i < |rows| ==> mapper(rows[i]).Success?
    ensures MapRows(rows, mapper).Success? ==>
              var records := MapRows(rows, mapper).value;
              |records| == |rows| && forall i :: 0 <= i < |rows| ==> mapper(rows[i]) == Success(records[i])
    decreases |rows|
  {
    if |rows| > 0 {
      MapRowsSucceeds(rows[1..], mapper);
      assert forall i :: 1 <= i < |rows| ==> rows[1..][i - 1] == rows[i];
    }
  }

  /**
    Multiple-row extraction that fails passes on the exception of the first row
    the mapper throws on; every row before it was mapped.
  */
  lemma {:induction false} MapRowsStops<R>(rows: seq<Row>, mapper: RowMapper<R>)
    ensures MapRows(rows, mapper).Failure? ==>
              exists k :: 0 <= k < |rows| && mapper(rows[k]) == Failure(MapRows(rows, mapper).error) &&
                          forall i :: 0 <= i < k ==> mapper(rows[i]).Success?
    decreases |rows|
  {
    if |rows| > 0 && mapper(rows[0]).Success? && MapRows(rows, mapper).Failure? {
      MapRowsStops(rows[1..], mapper);
      var k :| 0 <= k < |rows| - 1 && mapper(rows[1..][k]) == Failure(MapRows(rows, mapper).error) &&
               forall i :: 0 <= i < k ==> mapper(rows[1..][i]).Success?;
      assert forall i :: 1 <= i < k + 1 ==> rows[1..][i - 1] == rows[i];
      assert mapper(rows[k + 1]) == Failure(MapRows(rows, mapper).error);
    }
  }

  /**
    Once the mapper throws on row k, the rows after k are never mapped: a
    mapper that agrees with it up to row k gives the same outcome.
  */
  lemma {:induction false} MapRowsIgnoresRowsAfterFailure<R>(rows: seq<Row>, mapper: RowMapper<R>, other: RowMapper<R>, k: nat)
    requires k < |rows| && mapper(rows[k]).Failure?
    requires forall i :: 0 <= i <= k ==> other(rows[i]) == mapper(rows[i])
    ensures MapRows(rows, other) == MapRows(rows, mapper)
    decreases k
  {
    if k > 0 && mapper(rows[0]).Success? {
      assert forall i :: 0 <= i <= k - 1 ==> rows[1..][i] == rows[i + 1];
      MapRowsIgnoresRowsAfterFailure(rows[1..], mapper, other, k - 1);
    }
  }

  /** Mapping rows in two parts is mapping them all: what the extraction loop relies on. */
  lemma {:induction false} MapRowsAppend<R>(front: seq<Row>, back: seq<Row>, mapper: RowMapper<R>)
    ensures MapRows(front + back, mapper) ==
            match MapRows(front, mapper)
            case Failure(e) => Failure(e)
            case Success(records) => Prepend(records, MapRows(back, mapper))
    decreases |front|
  {
    if |front| > 0 {
      assert (front + back)[0] == front[0];
      assert (front + back)[1..] == front[1..] + back;
      MapRowsAppend(front[1..], back, mapper);
      match mapper(front[0])
      case Failure(_) =>
      case Success(first) =>
        match MapRows(front[1..], mapper)
        case Failure(_) =>
        case Success(rest) =>
          match MapRows(back, mapper)
          case Failure(_) =>
          case Success(last) => assert [first] + (rest + last) == ([first] + rest) + last;
    } else {
      assert front + back == back;
      match MapRows(back, mapper)
      case Failure(_) =>
      case Success(rest) => assert [] + rest == rest;
    }
  }

  /**
    Single-row extraction: no row is "No data found"; otherwise the mapper's
    exception on the first row, or "More than one record in result" when a
    second row follows, or the first row's record.
  */
  lemma SingleRowCases<R>(rows: seq<Row>, mapper: RowMapper<R>)
    ensures |rows| == 0 ==> SingleRow(rows, mapper) == Failure(NoDataFound)
    ensures |rows| > 0 && mapper(rows[0]).Failure? ==> SingleRow(rows, mapper) == mapper(rows[0])
    ensures |rows| > 1 && mapper(rows[0]).Success? ==> SingleRow(rows, mapper) == Failure(MoreThanOneRecord)
    ensures |rows| == 1 ==> SingleRow(rows, mapper) == mapper(rows[0])
  {
  }

  /** Single-row extraction applies the mapper to the first row only, and to no row when there is none. */
  lemma SingleRowMapsFirstRowOnly<R>(rows: seq<Row>, mapper: RowMapper<R>, other: RowMapper<R>)
    requires |rows| == 0 || other(rows[0]) == mapper(rows[0])
    ensures SingleRow(rows, other) == SingleRow(rows, mapper)
  {
  }

  /**
    Single-row extraction succeeds exactly when multiple-row extraction yields
    exactly one record, and then with that record.
  */
  lemma SingleRowIsTheOnlyRecord<R>(rows: seq<Row>, mapper: RowMapper<R>)
    ensures SingleRow(rows, mapper).Success? <==> MapRows(rows, mapper).Success? && |MapRows(rows, mapper).value| == 1
    ensures SingleRow(rows, mapper).Success? ==> MapRows(rows, mapper).value == [SingleRow(rows, mapper).value]
  {
    MapRowsSucceeds(rows, mapper);
    if |rows| == 1 {
      assert rows[1..] == [];
    }
  }

  /** A query whose factory throws executes nothing, closes nothing and passes the factory's exception on. */
  lemma PerformQueryFactoryFails<R>(b: Backend, s: ConnState, factory: StatementFactory, extraction: Extraction<R>)
    requires Prepare(b, s, factory).result.Failure?
    ensures var st := PerformQuery(b, s, factory, extraction);
            st.result == Failure(Prepare(b, s, factory).result.error) &&
            exists j: nat :: FailedAt(b, s, PrepareCalls(factory), j, st)
  {
    PrepareStops(b, s, factory);
    var prepared := Prepare(b, s, factory);
    var j: nat :| FailedAt(b, s, PrepareCalls(factory), j, prepared);
    assert FailedAt(b, s, PrepareCalls(factory), j, PerformQuery(b, s, factory, extraction));
  }

  /**
    Once the statement is prepared, the query is executed once with the
    statement's SQL and parameters; if that succeeds the result set is closed;
    then the statement is closed, in every case. Nothing but the log changes.
  */
  lemma PerformQueryCloses<R>(b: Backend, s: ConnState, factory: StatementFactory, extraction: Extraction<R>)
    requires Prepare(b, s, factory).result.Success?
    ensures var st := PerformQuery(b, s, factory, extraction);
            var ps := PreparedValue(factory);
            var before := s.log + PrepareCalls(factory);
            var executed := b.fault(before, ExecuteQuery(ps.sql, ps.parameters)).None?;
            st.state == s.(log := before + [ExecuteQuery(ps.sql, ps.parameters)] +
                                  (if executed then [CloseResultSet] else []) + [CloseStatement(ps.sql)])
  {
    PrepareSucceeds(b, s, factory);
  }

  /**
    The outcome of a prepared query: the exception of executeQuery, else that of
    the extraction, else that of closing the result set, else that of closing
    the statement; with none of those, what the extraction made of the rows the
    query returned.
  */
  lemma PerformQueryOutcome<R>(b: Backend, s: ConnState, factory: StatementFactory, extraction: Extraction<R>)
    requires Prepare(b, s, factory).result.Success?
    ensures var st := PerformQuery(b, s, factory, extraction);
            var ps := PreparedValue(factory);
            var before := s.log + PrepareCalls(factory);
            var query := ExecuteQuery(ps.sql, ps.parameters);
            var extracted := Extract(extraction, b.rows(before, ps.sql, ps.parameters));
            var closeRs := b.fault(before + [query], CloseResultSet);
            var closePs := b.fault(before + [query, CloseResultSet], CloseStatement(ps.sql));
            && (b.fault(before, query).Some? ==> st.result == Failure(b.fault(before, query).value))
            && (b.fault(before, query).None? ==>
                  && (extracted.Failure? ==> st.result == extracted)
                  && (extracted.Success? && closeRs.Some? ==> st.result == Failure(closeRs.value))
                  && (extracted.Success? && closeRs.None? && closePs.Some? ==> st.result == Failure(closePs.value))
                  && (extracted.Success? && closeRs.None? && closePs.None? ==> st.result == extracted))
  {
    PrepareSucceeds(b, s, factory);
    var before := s.log + PrepareCalls(factory);
    var ps := PreparedValue(factory);
    assert before + [ExecuteQuery(ps.sql, ps.parameters), CloseResultSet] ==
           before + [ExecuteQuery(ps.sql, ps.parameters)] + [CloseResultSet];
  }

  /** A query only makes statement calls: nothing about the connection itself changes. */
  lemma PerformQueryIsStatementLevel<R>(b: Backend, s: ConnState, factory: StatementFactory, extraction: Extraction<R>)
    ensures StatementLevel(s, PerformQuery(b, s, factory, extraction).state)
  {
    var prepared := Prepare(b, s, factory);
    PrepareIsStatementLevel(b, s, factory);
    if prepared.result.Success? {
      PrepareSucceeds(b, s, factory);
      PerformQueryCloses(b, s, factory, extraction);
      var ps := PreparedValue(factory);
      var executed := b.fault(prepared.state.log, ExecuteQuery(ps.sql, ps.parameters)).None?;
      var tail := [ExecuteQuery(ps.sql, ps.parameters)] + (if executed then [CloseResultSet] else []) + [CloseStatement(ps.sql)];
      AppendIsStatementLevel(prepared.state, tail);
      assert prepared.state.(log := prepared.state.log + tail) == PerformQuery(b, s, factory, extraction).state;
      StatementLevelTransitive(s, prepared.state, PerformQuery(b, s, factory, extraction).state);
    }
  }

  /** multipleRowExtraction / extractRowsFromResultSet: maps every row from the cursor on. */
  method ExtractRowsFromResultSet<R>(rs: ResultSet, mapper: RowMapper<R>) returns (r: Result<seq<R>>)
    requires rs.Valid()
    modifies rs
    ensures r == MapRows(rs.rows[old(rs.position)..], mapper)
    ensures rs.Valid() && rs.closed == old(rs.closed)
  {
    ghost var start := rs.position;
    var records: seq<R> := [];
    var more := rs.Next();
    while more
      invariant rs.Valid() && rs.closed == old(rs.closed) && start <= rs.position
      invariant more ==> start < rs.position
      invariant !more ==> rs.position == |rs.rows|
      invariant MapRows(rs.rows[start..if more then rs.position - 1 else rs.position], mapper) == Success(records)
      decreases |rs.rows| - rs.position, more
    {
      var row := rs.Current();
      var entry := mapper(row);
      ghost var done := rs.rows[start..rs.position - 1];
      if entry.Failure? {
        assert rs.rows[start..] == done + rs.rows[rs.position - 1..];
        MapRowsAppend(done, rs.rows[rs.position - 1..], mapper);
        return Failure(entry.error);
      }
      assert rs.rows[start..rs.position] == done + [row];
      MapRowsAppend(done, [row], mapper);
      assert [row][0] == row && [row][1..] == [];
      assert MapRows([row], mapper) == Success([entry.value] + []);
      assert [entry.value] + [] == [entry.value];
      assert MapRows(rs.rows[start..rs.position], mapper) == Success(records + [entry.value]);
      ghost var position := rs.position;
      records := records + [entry.value];
      more := rs.Next();
      assert rs.rows[start..if more then rs.position - 1 else rs.position] == rs.rows[start..position];
    }
    assert rs.rows[start..rs.position] == rs.rows[start..];
    r := Success(records);
  }

  /** singleRowExtraction / extractSingleRowFromResultSet: the one row from the cursor on. */
  method ExtractSingleRowFromResultSet<R>(rs: ResultSet, mapper: RowMapper<R>) returns (r: Result<R>)
    requires rs.Valid()
    modifies rs
    ensures r == SingleRow(rs.rows[old(rs.position)..], mapper)
    ensures rs.Valid() && rs.closed == old(rs.closed)
  {
    var first := rs.Next();
    if !first {
      return Failure(NoDataFound);
    }
    var entry := mapper(rs.Current());
    if entry.Failure? {
      return Failure(entry.error);
    }
    var second := rs.Next();
    if second {
      return Failure(MoreThanOneRecord);
    }
    r := Success(entry.value);
  }

  /** Applying an extraction to a result set. */
  method ApplyExtraction<R>(rs: ResultSet, extraction: Extraction<R>) returns (r: Result<Extracted<R>>)
    requires rs.Valid()
    modifies rs
    ensures r == Extract(extraction, rs.rows[old(rs.position)..])
    ensures rs.Valid() && rs.closed == old(rs.closed)
  {
    match extraction
    case MultipleRowExtraction(mapper) =>
      var records := ExtractRowsFromResultSet(rs, mapper);
      r := if records.Failure? then Failure(records.error) else Success(Records(records.value));
    case SingleRowExtraction(mapper) =>
      var record := ExtractSingleRowFromResultSet(rs, mapper);
      r := if record.Failure? then Failure(record.error) else Success(Record(record.value));
  }

  /** databaseQuery(factory, extraction) applied to a connection: performQueryOnConnection. */
  method PerformQueryOnConnection<R>(conn: Connection, factory: StatementFactory, extraction: Extraction<R>)
    returns (r: Result<Extracted<R>>)
    modifies conn
    ensures Step(r, conn.State()) == PerformQuery(conn.backend, old(conn.State()), factory, extraction)
  {
    var prepared := Apply(conn, factory);
    if prepared.Failure? {
      return Failure(prepared.error);
    }
    var ps := prepared.value;
    var executed := ps.ExecuteQuery();
    if executed.Failure? {
      var closedPs := ps.Close();
      return Closing(Failure(executed.error), closedPs);
    }
    var rs := executed.value;
    var extracted := ApplyExtraction(rs, extraction);
    var closedRs := rs.Close();
    var closedPs := ps.Close();
    r := Closing(Closing(extracted, closedRs), closedPs);
  }
}
