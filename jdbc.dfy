/**
  The part of JDBC that the combinator layer uses, modelled abstractly.

  A `Connection`, the `PreparedStatement`s prepared on it and the `ResultSet`s
  they return are objects with mutable state. Every JDBC call made through them
  is appended to the connection's log. What the database does is not modelled:
  a `Backend` of pure oracles decides, from the calls made so far, whether a call
  throws an SQLException, which rows a query yields and how many rows an update
  touches.

  Next to the classes, each call has a pure counterpart over a snapshot of the
  connection (`ConnState`) that returns a `Step`: the call's outcome and the
  snapshot afterwards. The combinators' reference semantics are built from these.
*/
module Jdbc {
  import opened Optional

  /** Java's `int`: the type of an update count. */
  newtype int32 = x: int | -0x8000_0000 <= x < 0x8000_0000

  /** A parameter or column value (the `Object`s handed to `setObject`). */
  datatype Value = IntValue(i: int) | StringValue(s: string) | DateValue(year: int, month: int, day: int) | NullValue

  /** One row of a result set, by column label. */
  datatype Row = Row(columns: map<string, Value>)

  /** An SQLException, known by its message. */
  datatype SqlError = SqlError(message: string)

  /** The outcome of a call that may throw an SQLException. */
  datatype Result<+T> = Success(value: T) | Failure(error: SqlError)

  /** A JDBC call, as it is recorded in a connection's log. */
  datatype Call =
    | PrepareStatement(sql: string)
    | SetObject(index: nat, value: Value)
    | ExecuteQuery(sql: string, parameters: map<nat, Value>)
    | ExecuteUpdate(sql: string, parameters: map<nat, Value>)
    | CloseResultSet
    | CloseStatement(sql: string)
    | GetAutoCommit
    | SetAutoCommit(enabled: bool)
    | Commit
    | Rollback
    | Close

  /**
    The database behind a connection. Each answer may depend on everything done
    on the connection before the call.
  */
  datatype Backend = Backend(
    fault: (seq<Call>, Call) -> Option<SqlError>,
    rows: (seq<Call>, string, map<nat, Value>) -> seq<Row>,
    count: (seq<Call>, string, map<nat, Value>) -> int32)

  /** A snapshot of a connection's state. */
  datatype ConnState = ConnState(autoCommit: bool, closed: bool, commits: nat, rollbacks: nat, log: seq<Call>)

  /** The value of a prepared statement: its SQL text and the parameters bound so far, by 1-based position. */
  datatype StatementState = StatementState(sql: string, parameters: map<nat, Value>)

  /** The outcome of a step and the connection's state after it. */
  datatype Step<+T> = Step(result: Result<T>, state: ConnState)

  /** Makes call `c` in state `s`: the call is logged, and the backend decides whether it throws. */
  function Invoke(b: Backend, s: ConnState, c: Call): (st: Step<()>)
    ensures st.state == s.(log := s.log + [c])
    ensures st.result.Failure? <==> b.fault(s.log, c).Some?
  {
    var s' := s.(log := s.log + [c]);
    match b.fault(s.log, c)
    case Some(e) => Step(Failure(e), s')
    case None => Step(Success(()), s')
  }

  /**
    Making `calls` one after another from `s` on, calls[..k] succeeded and
    calls[k] threw the exception `st` reports; nothing else was called and
    nothing but the log changed.
  */
  ghost predicate FailedAt<T>(b: Backend, s: ConnState, calls: seq<Call>, k: nat, st: Step<T>)
  {
    && k < |calls|
    && st.result.Failure?
    && st.state == s.(log := s.log + calls[..k + 1])
    && b.fault(s.log + calls[..k], calls[k]) == Some(st.result.error)
    && forall j :: 0 <= j < k ==> b.fault(s.log + calls[..j], calls[j]).None?
  }

  /** A call that succeeds, followed by calls that fail at k, fails at k + 1. */
  lemma FailedAfter<T>(b: Backend, s: ConnState, c: Call, calls: seq<Call>, k: nat, st: Step<T>)
    requires b.fault(s.log, c).None?
    requires FailedAt(b, s.(log := s.log + [c]), calls, k, st)
    ensures FailedAt(b, s, [c] + calls, k + 1, st)
  {
    var all := [c] + calls;
    assert s.log + all[..k + 1] == s.log + [c] + calls[..k];
    assert s.log + all[..k + 2] == s.log + [c] + calls[..k + 1];
    assert s.log + all[..0] == s.log;
    forall j | 1 <= j < k + 1
      ensures b.fault(s.log + all[..j], all[j]).None?
    {
      assert s.log + all[..j] == s.log + [c] + calls[..j - 1];
      assert all[j] == calls[j - 1];
    }
  }

  /** `r` with its success value replaced by `v`. */
  function Yield<T>(r: Result<()>, v: T): Result<T>
  {
    match r
    case Success(_) => Success(v)
    case Failure(e) => Failure(e)
  }

  /** `r` without its success value. */
  function Discard<T>(r: Result<T>): Result<()>
  {
    match r
    case Success(_) => Success(())
    case Failure(e) => Failure(e)
  }

  /** `values` in front of the values of `r`, or the exception of `r`. */
  function Prepend<R>(values: seq<R>, r: Result<seq<R>>): Result<seq<R>>
  {
    match r
    case Failure(e) => Failure(e)
    case Success(rest) => Success(values + rest)
  }

  /** A call on a statement or a result set, not on the connection itself. */
  predicate StatementCall(c: Call)
  {
    !(c.GetAutoCommit? || c.SetAutoCommit? || c.Commit? || c.Rollback? || c.Close?)
  }

  /** From `s` to `s'` only statement calls were made: nothing but the log changed, and it grew by such calls alone. */
  ghost predicate StatementLevel(s: ConnState, s': ConnState)
  {
    && s' == s.(log := s'.log)
    && s.log <= s'.log
    && forall k :: |s.log| <= k < |s'.log| ==> StatementCall(s'.log[k])
  }

  /** Statement-level stretches compose. */
  lemma StatementLevelTransitive(s: ConnState, s': ConnState, s'': ConnState)
    requires StatementLevel(s, s') && StatementLevel(s', s'')
    ensures StatementLevel(s, s'')
  {
    assert forall k :: |s.log| <= k < |s'.log| ==> s''.log[k] == s'.log[k];
  }

  /** Appending statement calls to the log is statement level. */
  lemma AppendIsStatementLevel(s: ConnState, calls: seq<Call>)
    requires forall k :: 0 <= k < |calls| ==> StatementCall(calls[k])
    ensures StatementLevel(s, s.(log := s.log + calls))
  {
    assert forall k :: |s.log| <= k < |s.log + calls| ==> (s.log + calls)[k] == calls[k - |s.log|];
  }

  /**
    The outcome of a try-with-resources block whose body ended with `primary`
    and whose resource's close() ended with `closed`: an exception of the body
    wins over one of close(), which Java would only add as suppressed.
  */
  function Closing<T>(primary: Result<T>, closed: Result<()>): (r: Result<T>)
    ensures primary.Failure? ==> r == primary
    ensures primary.Success? ==> r == Yield(closed, primary.value)
  {
    if primary.Failure? then primary
    else if closed.Failure? then Failure(closed.error)
    else primary
  }

  function PrepareStep(b: Backend, s: ConnState, sql: string): Step<StatementState>
  {
    var st := Invoke(b, s, PrepareStatement(sql));
    Step(Yield(st.result, StatementState(sql, map[])), st.state)
  }

  function SetObjectStep(b: Backend, s: ConnState, ps: StatementState, index: nat, value: Value): Step<StatementState>
  {
    var st := Invoke(b, s, SetObject(index, value));
    Step(Yield(st.result, ps.(parameters := ps.parameters[index := value])), st.state)
  }

  function ExecuteQueryStep(b: Backend, s: ConnState, ps: StatementState): Step<seq<Row>>
  {
    var st := Invoke(b, s, ExecuteQuery(ps.sql, ps.parameters));
    Step(Yield(st.result, b.rows(s.log, ps.sql, ps.parameters)), st.state)
  }

  function ExecuteUpdateStep(b: Backend, s: ConnState, ps: StatementState): Step<int32>
  {
    var st := Invoke(b, s, ExecuteUpdate(ps.sql, ps.parameters));
    Step(Yield(st.result, b.count(s.log, ps.sql, ps.parameters)), st.state)
  }

  function CloseResultSetStep(b: Backend, s: ConnState): Step<()>
  {
    Invoke(b, s, CloseResultSet)
  }

  function CloseStatementStep(b: Backend, s: ConnState, ps: StatementState): Step<()>
  {
    Invoke(b, s, CloseStatement(ps.sql))
  }

  function GetAutoCommitStep(b: Backend, s: ConnState): Step<bool>
  {
    var st := Invoke(b, s, GetAutoCommit);
    Step(Yield(st.result, s.autoCommit), st.state)
  }

  /** setAutoCommit: the flag changes only if the call does not throw. */
  function SetAutoCommitStep(b: Backend, s: ConnState, enabled: bool): Step<()>
  {
    var st := Invoke(b, s, SetAutoCommit(enabled));
    if st.result.Success? then st.(state := st.state.(autoCommit := enabled)) else st
  }

  /** commit: counted whether or not it throws. */
  function CommitStep(b: Backend, s: ConnState): Step<()>
  {
    var st := Invoke(b, s, Commit);
    st.(state := st.state.(commits := s.commits + 1))
  }

  /** rollback: counted whether or not it throws. */
  function RollbackStep(b: Backend, s: ConnState): Step<()>
  {
    var st := Invoke(b, s, Rollback);
    st.(state := st.state.(rollbacks := s.rollbacks + 1))
  }

  /** close: the connection counts as released whether or not the call throws. */
  function CloseStep(b: Backend, s: ConnState): Step<()>
  {
    var st := Invoke(b, s, Close);
    st.(state := st.state.(closed := true))
  }

  /** A connection to the database. */
  class Connection {
    const backend: Backend
    var autoCommit: bool
    var closed: bool
    var commits: nat
    var rollbacks: nat
    var log: seq<Call>

    function State(): ConnState
      reads this
    {
      ConnState(autoCommit, closed, commits, rollbacks, log)
    }

    constructor (backend: Backend, autoCommit: bool)
      ensures this.backend == backend
      ensures State() == ConnState(autoCommit, false, 0, 0, [])
    {
      this.backend := backend;
      this.autoCommit := autoCommit;
      closed, commits, rollbacks, log := false, 0, 0, [];
    }

    method PrepareStatement(sql: string) returns (r: Result<PreparedStatement>)
      modifies this
      ensures State() == PrepareStep(backend, old(State()), sql).state
      ensures Opened(this, r, PrepareStep(backend, old(State()), sql).result)
      ensures r.Success? ==> fresh(r.value)
    {
      var fault := backend.fault(log, Call.PrepareStatement(sql));
      log := log + [Call.PrepareStatement(sql)];
      if fault.Some? {
        r := Failure(fault.value);
      } else {
        var ps := new PreparedStatement(this, sql);
        r := Success(ps);
      }
    }

    method GetAutoCommit() returns (r: Result<bool>)
      modifies this
      ensures Step(r, State()) == GetAutoCommitStep(backend, old(State()))
    {
      var fault := backend.fault(log, Call.GetAutoCommit);
      log := log + [Call.GetAutoCommit];
      r := if fault.Some? then Failure(fault.value) else Success(autoCommit);
    }

    method SetAutoCommit(enabled: bool) returns (r: Result<()>)
      modifies this
      ensures Step(r, State()) == SetAutoCommitStep(backend, old(State()), enabled)
    {
      var fault := backend.fault(log, Call.SetAutoCommit(enabled));
      log := log + [Call.SetAutoCommit(enabled)];
      if fault.Some? {
        r := Failure(fault.value);
      } else {
        autoCommit := enabled;
        r := Success(());
      }
    }

    method Commit() returns (r: Result<()>)
      modifies this
      ensures Step(r, State()) == CommitStep(backend, old(State()))
    {
      var fault := backend.fault(log, Call.Commit);
      log := log + [Call.Commit];
      commits := commits + 1;
      r := if fault.Some? then Failure(fault.value) else Success(());
    }

    method Rollback() returns (r: Result<()>)
      modifies this
      ensures Step(r, State()) == RollbackStep(backend, old(State()))
    {
      var fault := backend.fault(log, Call.Rollback);
      log := log + [Call.Rollback];
      rollbacks := rollbacks + 1;
      r := if fault.Some? then Failure(fault.value) else Success(());
    }

    method Close() returns (r: Result<()>)
      modifies this
      ensures Step(r, State()) == CloseStep(backend, old(State()))
    {
      var fault := backend.fault(log, Call.Close);
      log := log + [Call.Close];
      closed := true;
      r := if fault.Some? then Failure(fault.value) else Success(());
    }
  }

  /** `r` is an open statement on `conn` whose value is the one `spec` holds, or the same failure. */
  ghost predicate Opened(conn: Connection, r: Result<PreparedStatement>, spec: Result<StatementState>)
    reads if r.Success? then {r.value} else {}
  {
    match r
    case Failure(e) => spec == Failure(e)
    case Success(ps) => spec.Success? && ps.Value() == spec.value && ps.conn == conn && !ps.closed
  }

  /** A statement prepared on a connection. */
  class PreparedStatement {
    const conn: Connection
    const sql: string
    var parameters: map<nat, Value>
    var closed: bool

    function Value(): StatementState
      reads this
    {
      StatementState(sql, parameters)
    }

    constructor (conn: Connection, sql: string)
      ensures this.conn == conn && Value() == StatementState(sql, map[]) && !closed
    {
      this.conn := conn;
      this.sql := sql;
      parameters := map[];
      closed := false;
    }

    method SetObject(index: nat, value: Value) returns (r: Result<()>)
      modifies this, conn
      ensures var st := SetObjectStep(conn.backend, old(conn.State()), old(Value()), index, value);
              conn.State() == st.state && r == Discard(st.result) &&
              Value() == (if st.result.Success? then st.result.value else old(Value()))
      ensures closed == old(closed)
    {
      var fault := conn.backend.fault(conn.log, Call.SetObject(index, value));
      conn.log := conn.log + [Call.SetObject(index, value)];
      if fault.Some? {
        r := Failure(fault.value);
      } else {
        parameters := parameters[index := value];
        r := Success(());
      }
    }

    method ExecuteQuery() returns (r: Result<ResultSet>)
      modifies conn
      ensures var st := ExecuteQueryStep(conn.backend, old(conn.State()), Value());
              conn.State() == st.state && r.Success? == st.result.Success? &&
              (r.Failure? ==> r.error == st.result.error) &&
              (r.Success? ==> fresh(r.value) && r.value.conn == conn && r.value.rows == st.result.value &&
                              r.value.position == 0 && !r.value.closed)
    {
      var fault := conn.backend.fault(conn.log, Call.ExecuteQuery(sql, parameters));
      var rows := conn.backend.rows(conn.log, sql, parameters);
      conn.log := conn.log + [Call.ExecuteQuery(sql, parameters)];
      if fault.Some? {
        r := Failure(fault.value);
      } else {
        var rs := new ResultSet(conn, rows);
        r := Success(rs);
      }
    }

    method ExecuteUpdate() returns (r: Result<int32>)
      modifies conn
      ensures Step(r, conn.State()) == ExecuteUpdateStep(conn.backend, old(conn.State()), Value())
    {
      var fault := conn.backend.fault(conn.log, Call.ExecuteUpdate(sql, parameters));
      var count := conn.backend.count(conn.log, sql, parameters);
      conn.log := conn.log + [Call.ExecuteUpdate(sql, parameters)];
      r := if fault.Some? then Failure(fault.value) else Success(count);
    }

    method Close() returns (r: Result<()>)
      modifies this, conn
      ensures Step(r, conn.State()) == CloseStatementStep(conn.backend, old(conn.State()), Value())
      ensures closed && parameters == old(parameters)
    {
      var fault := conn.backend.fault(conn.log, Call.CloseStatement(sql));
      conn.log := conn.log + [Call.CloseStatement(sql)];
      closed := true;
      r := if fault.Some? then Failure(fault.value) else Success(());
    }
  }

  /** A forward-only cursor over the rows a query returned. */
  class ResultSet {
    const conn: Connection
    const rows: seq<Row>
    /** How many rows next() has moved onto; the current row is rows[position - 1]. */
    var position: nat
    var closed: bool

    ghost predicate Valid()
      reads this
    {
      position <= |rows|
    }

    constructor (conn: Connection, rows: seq<Row>)
      ensures this.conn == conn && this.rows == rows && position == 0 && !closed
    {
      this.conn := conn;
      this.rows := rows;
      position := 0;
      closed := false;
    }

    /** next(): moves onto the following row, if there is one. */
    method Next() returns (more: bool)
      requires Valid()
      modifies this
      ensures Valid() && closed == old(closed)
      ensures more == (old(position) < |rows|)
      ensures position == if more then old(position) + 1 else old(position)
    {
      more := position < |rows|;
      if more {
        position := position + 1;
      }
    }

    /** The row the cursor is on, as a row mapper reads it. */
    function Current(): Row
      requires Valid() && 0 < position
      reads this
    {
      rows[position - 1]
    }

    method Close() returns (r: Result<()>)
      modifies this, conn
      ensures Step(r, conn.State()) == CloseResultSetStep(conn.backend, old(conn.State()))
      ensures closed && position == old(position)
    {
      var fault := conn.backend.fault(conn.log, Call.CloseResultSet);
      conn.log := conn.log + [Call.CloseResultSet];
      closed := true;
      r := if fault.Some? then Failure(fault.value) else Success(());
    }
  }
}
