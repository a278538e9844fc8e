/**
  The earlier single-class revision, `DatabaseOperations`. Its doInDatabase,
  databaseUpdate, multipleDatabaseUpdates, statement factories and
  withinTransaction are the same code as in the later per-concern classes and
  are modelled there. What differs is its databaseQuery: it takes a row mapper
  and returns the list of mapped rows directly, with the row loop written
  inside performQueryOnConnection.
*/
module DatabaseOperations {
  import opened Jdbc
  import opened DatabaseStatementFunctions
  import opened DatabaseQueryFunctions

  /** Reference semantics of the list-returning performQueryOnConnection. */
  function PerformListQuery<R>(b: Backend, s: ConnState, factory: StatementFactory, mapper: RowMapper<R>): Step<seq<R>>
  {
    var prepared := Prepare(b, s, factory);
    if prepared.result.Failure? then Step(Failure(prepared.result.error), prepared.state)
    else
      var ps := prepared.result.value;
      var executed := ExecuteQueryStep(b, prepared.state, ps);
      if executed.result.Failure? then
        var closedPs := CloseStatementStep(b, executed.state, ps);
        Step(Closing(Failure(executed.result.error), closedPs.result), closedPs.state)
      else
        var records := MapRows(executed.result.value, mapper);
        var closedRs := CloseResultSetStep(b, executed.state);
        var closedPs := CloseStatementStep(b, closedRs.state, ps);
        Step(Closing(Closing(records, closedRs.result), closedPs.result), closedPs.state)
  }

  /**
    The list-returning query is the later databaseQuery with
    multipleRowExtraction: the same calls, the same exceptions, the same records.
  */
  lemma ListQueryIsMultipleRowQuery<R>(b: Backend, s: ConnState, factory: StatementFactory, mapper: RowMapper<R>)
    ensures var list := PerformListQuery(b, s, factory, mapper);
            var query := PerformQuery(b, s, factory, MultipleRowExtraction(mapper));
            && list.state == query.state
            && list.result.Success? == query.result.Success?
            && (list.result.Success? ==> query.result.value == Records(list.result.value))
            && (list.result.Failure? ==> query.result.error == list.result.error)
  {
  }

  /**
    When the list-returning query succeeds it holds one record per row the
    query returned, each the mapper's record for that row, in row order; when
    the query returned no rows and nothing threw, the list is empty.
  */
  lemma ListQueryMapsEveryRow<R>(b: Backend, s: ConnState, factory: StatementFactory, mapper: RowMapper<R>)
    requires Prepare(b, s, factory).result.Success?
    ensures var list := PerformListQuery(b, s, factory, mapper);
            var ps := PreparedValue(factory);
            var rows := b.rows(s.log + PrepareCalls(factory), ps.sql, ps.parameters);
            list.result.Success? ==>
              |list.result.value| == |rows| &&
              forall i :: 0 <= i < |rows| ==> mapper(rows[i]) == Success(list.result.value[i])
  {
    PrepareSucceeds(b, s, factory);
    var prepared := Prepare(b, s, factory);
    var ps := PreparedValue(factory);
    var executed := ExecuteQueryStep(b, prepared.state, ps);
    if executed.result.Success? {
      MapRowsSucceeds(executed.result.value, mapper);
    }
  }

  /**
    databaseQuery(factory, mapper) applied to a connection. Its inline row loop
    is the loop of extractRowsFromResultSet.
  */
  method PerformListQueryOnConnection<R>(conn: Connection, factory: StatementFactory, mapper: RowMapper<R>)
    returns (r: Result<seq<R>>)
    modifies conn
    ensures Step(r, conn.State()) == PerformListQuery(conn.backend, old(conn.State()), factory, mapper)
  {
    var prepared := Apply(conn, factory);
    if prepared.Failure? {
      return Failure(prepared.error);
    }
    var ps := prepared.value;
    var executed := ps.ExecuteQuery();
    if executed.Failure? {
      var closedPs := ps.Close();
      return Closing(Failure(executed.error), closedPs);
    }
    var rs := executed.value;
    var records := ExtractRowsFromResultSet(rs, mapper);
    var closedRs := rs.Close();
    var closedPs := ps.Close();
    r := Closing(Closing(records, closedRs), closedPs);
  }
}
