/**
  Statement factories: `statement(sql)` and `statement(sql, parameters...)`
  return a function from a connection to a freshly prepared statement. The
  function is represented by what it captures; `Apply` is what calling it does.
  Building a factory touches no connection.
*/
module DatabaseStatementFunctions {
  import opened Jdbc

  datatype StatementFactory =
    | Statement(sql: string)
    | StatementWithParameters(sql: string, parameters: seq<Value>)

  /** The setObject calls that bind the parameters from index i on, in order. */
  function BindCalls(parameters: seq<Value>, i: nat): (calls: seq<Call>)
    requires i <= |parameters|
    ensures |calls| == |parameters| - i
    decreases |parameters| - i
  {
    if i == |parameters| then [] else [SetObject(i + 1, parameters[i])] + BindCalls(parameters, i + 1)
  }

  /** The k-th of those calls binds parameter i + k at its 1-based position i + k + 1. */
  lemma {:induction false} BindCallsInOrder(parameters: seq<Value>, i: nat, k: nat)
    requires i + k < |parameters|
    ensures BindCalls(parameters, i)[k] == SetObject(i + k + 1, parameters[i + k])
    decreases k
  {
    if k > 0 {
      BindCallsInOrder(parameters, i + 1, k - 1);
    }
  }

  /** The parameter map once `parameters[..n]` are bound: position i + 1 holds parameters[i]. */
  function Positional(parameters: seq<Value>, n: nat): (m: map<nat, Value>)
    requires n <= |parameters|
    ensures forall k :: k in m <==> 1 <= k <= n
    ensures forall k :: 1 <= k <= n ==> m[k] == parameters[k - 1]
  {
    if n == 0 then map[] else Positional(parameters, n - 1)[n := parameters[n - 1]]
  }

  /** Reference semantics of the binding loop, from parameter i on. */
  function BindFrom(b: Backend, s: ConnState, ps: StatementState, parameters: seq<Value>, i: nat): Step<StatementState>
    requires i <= |parameters|
    decreases |parameters| - i
  {
    if i == |parameters| then Step(Success(ps), s)
    else
      var bound := SetObjectStep(b, s, ps, i + 1, parameters[i]);
      if bound.result.Failure? then bound
      else BindFrom(b, bound.state, bound.result.value, parameters, i + 1)
  }

  /** Reference semantics of prepareStatementWithParameters. */
  function PrepareWithParameters(b: Backend, s: ConnState, sql: string, parameters: seq<Value>): Step<StatementState>
  {
    var prepared := PrepareStep(b, s, sql);
    if prepared.result.Failure? then prepared
    else BindFrom(b, prepared.state, prepared.result.value, parameters, 0)
  }

  /** Reference semantics of applying a factory to a connection. */
  function Prepare(b: Backend, s: ConnState, factory: StatementFactory): Step<StatementState>
  {
    match factory
    case Statement(sql) => PrepareStep(b, s, sql)
    case StatementWithParameters(sql, parameters) => PrepareWithParameters(b, s, sql, parameters)
  }

  /** The calls a factory makes when every one of them succeeds. */
  function PrepareCalls(factory: StatementFactory): seq<Call>
  {
    match factory
    case Statement(sql) => [PrepareStatement(sql)]
    case StatementWithParameters(sql, parameters) => [PrepareStatement(sql)] + BindCalls(parameters, 0)
  }

  /** The statement a factory yields when every call succeeds. */
  function PreparedValue(factory: StatementFactory): StatementState
  {
    match factory
    case Statement(sql) => StatementState(sql, map[])
    case StatementWithParameters(sql, parameters) => StatementState(sql, Positional(parameters, |parameters|))
  }

  /** A binding loop that completes binds parameter k at position k + 1, for every k, and nothing else. */
  lemma {:induction false} BindFromValue(b: Backend, s: ConnState, ps: StatementState, parameters: seq<Value>, i: nat)
    requires i <= |parameters|
    requires ps.parameters == Positional(parameters, i)
    ensures var st := BindFrom(b, s, ps, parameters, i);
            st.result.Success? ==> st.result.value == StatementState(ps.sql, Positional(parameters, |parameters|))
    decreases |parameters| - i
  {
    if i < |parameters| {
      var bound := SetObjectStep(b, s, ps, i + 1, parameters[i]);
      if bound.result.Success? {
        BindFromValue(b, bound.state, bound.result.value, parameters, i + 1);
      }
    }
  }

  /** A binding loop that completes has made one setObject call per remaining parameter, in order, and changed nothing else. */
  lemma {:induction false} BindFromCompletes(b: Backend, s: ConnState, ps: StatementState, parameters: seq<Value>, i: nat)
    requires i <= |parameters|
    ensures var st := BindFrom(b, s, ps, parameters, i);
            st.result.Success? ==> st.state == s.(log := s.log + BindCalls(parameters, i))
    decreases |parameters| - i
  {
    if i < |parameters| {
      var bound := SetObjectStep(b, s, ps, i + 1, parameters[i]);
      if bound.result.Success? {
        BindFromCompletes(b, bound.state, bound.result.value, parameters, i + 1);
        assert s.log + BindCalls(parameters, i) == bound.state.log + BindCalls(parameters, i + 1);
      }
    }
  }

  /**
    A binding loop that fails stopped at the first setObject that threw: the
    calls before it succeeded, none after it was made, nothing but the log
    changed, and its exception is passed on.
  */
  lemma {:induction false} BindFromStops(b: Backend, s: ConnState, ps: StatementState, parameters: seq<Value>, i: nat)
    requires i <= |parameters|
    ensures var st := BindFrom(b, s, ps, parameters, i);
            st.result.Failure? ==> exists j: nat :: FailedAt(b, s, BindCalls(parameters, i), j, st)
    decreases |parameters| - i
  {
    if i < |parameters| {
      var calls, rest := BindCalls(parameters, i), BindCalls(parameters, i + 1);
      var bound := SetObjectStep(b, s, ps, i + 1, parameters[i]);
      if bound.result.Success? {
        BindFromStops(b, bound.state, bound.result.value, parameters, i + 1);
        var st := BindFrom(b, bound.state, bound.result.value, parameters, i + 1);
        if st.result.Failure? {
          var j: nat :| FailedAt(b, bound.state, rest, j, st);
          FailedAfter(b, s, SetObject(i + 1, parameters[i]), rest, j, st);
        }
      } else {
        assert s.log + calls[..0] == s.log;
        assert s.log + calls[..1] == s.log + [calls[0]];
        assert FailedAt(b, s, calls, 0, bound);
      }
    }
  }

  /**
    A factory applied to a connection changes only the connection's log. When it
    succeeds, the statement is prepared from exactly the factory's SQL with
    parameter k bound at position k + 1 and nothing else bound, after one
    prepareStatement call and one setObject call per parameter, in order.
  */
  lemma PrepareSucceeds(b: Backend, s: ConnState, factory: StatementFactory)
    ensures var st := Prepare(b, s, factory);
            st.result.Success? ==>
              st.result.value == PreparedValue(factory) && st.state == s.(log := s.log + PrepareCalls(factory))
  {
    match factory
    case Statement(sql) =>
    case StatementWithParameters(sql, parameters) =>
      var prepared := PrepareStep(b, s, sql);
      if prepared.result.Success? {
        BindFromValue(b, prepared.state, prepared.result.value, parameters, 0);
        BindFromCompletes(b, prepared.state, prepared.result.value, parameters, 0);
        assert s.log + PrepareCalls(factory) == prepared.state.log + BindCalls(parameters, 0);
      }
  }

  /**
    A factory that fails stopped at the first call that threw, prepareStatement
    or one of the setObject calls, and passes its exception on; the statement
    it was binding is not closed.
  */
  lemma PrepareStops(b: Backend, s: ConnState, factory: StatementFactory)
    ensures var st := Prepare(b, s, factory);
            st.result.Failure? ==> exists j: nat :: FailedAt(b, s, PrepareCalls(factory), j, st)
  {
    var st := Prepare(b, s, factory);
    var calls := PrepareCalls(factory);
    var prepared := PrepareStep(b, s, factory.sql);
    if prepared.result.Failure? {
      assert s.log + calls[..0] == s.log;
      assert s.log + calls[..1] == s.log + [PrepareStatement(factory.sql)];
      assert FailedAt(b, s, calls, 0, st);
    } else if st.result.Failure? {
      var parameters := factory.parameters;
      var bindings := BindCalls(parameters, 0);
      BindFromStops(b, prepared.state, prepared.result.value, parameters, 0);
      var j: nat :| FailedAt(b, prepared.state, bindings, j, st);
      FailedAfter(b, s, PrepareStatement(factory.sql), bindings, j, st);
    }
  }
  /** A factory only makes statement calls: it never touches the connection's auto-commit mode, transaction or lifetime. */
  lemma PrepareIsStatementLevel(b: Backend, s: ConnState, factory: StatementFactory)
    ensures StatementLevel(s, Prepare(b, s, factory).state)
  {
    var calls := PrepareCalls(factory);
    forall k | 0 <= k < |calls|
      ensures StatementCall(calls[k])
    {
      if k > 0 {
        BindCallsInOrder(factory.parameters, 0, k - 1);
      }
    }
    var st := Prepare(b, s, factory);
    if st.result.Success? {
      PrepareSucceeds(b, s, factory);
      AppendIsStatementLevel(s, calls);
    } else {
      PrepareStops(b, s, factory);
      var j: nat :| FailedAt(b, s, calls, j, st);
      AppendIsStatementLevel(s, calls[..j + 1]);
    }
  }

  /** statement(sql) behaves exactly as statement(sql) with an empty parameter list. */
  lemma StatementIsStatementWithoutParameters(b: Backend, s: ConnState, sql: string)
    ensures Prepare(b, s, Statement(sql)) == Prepare(b, s, StatementWithParameters(sql, []))
  {
  }

  /** prepareStatementWithParameters: prepares `sql` and binds parameter i at position i + 1, in order. */
  method PrepareStatementWithParameters(conn: Connection, sql: string, parameters: seq<Value>)
    returns (r: Result<PreparedStatement>)
    modifies conn
    ensures conn.State() == PrepareWithParameters(conn.backend, old(conn.State()), sql, parameters).state
    ensures Opened(conn, r, PrepareWithParameters(conn.backend, old(conn.State()), sql, parameters).result)
    ensures r.Success? ==> fresh(r.value)
  {
    ghost var spec := PrepareWithParameters(conn.backend, conn.State(), sql, parameters);
    var prepared := conn.PrepareStatement(sql);
    if prepared.Failure? {
      return prepared;
    }
    var ps := prepared.value;
    for i := 0 to |parameters|
      invariant ps.conn == conn && !ps.closed && fresh(ps)
      invariant spec == BindFrom(conn.backend, conn.State(), ps.Value(), parameters, i)
    {
      var bound := ps.SetObject(i + 1, parameters[i]);
      if bound.Failure? {
        return Failure(bound.error);
      }
    }
    r := Success(ps);
  }

  /** Applying a factory to a connection. */
  method Apply(conn: Connection, factory: StatementFactory) returns (r: Result<PreparedStatement>)
    modifies conn
    ensures conn.State() == Prepare(conn.backend, old(conn.State()), factory).state
    ensures Opened(conn, r, Prepare(conn.backend, old(conn.State()), factory).result)
    ensures r.Success? ==> fresh(r.value)
  {
    match factory
    case Statement(sql) =>
      r := conn.PrepareStatement(sql);
    case StatementWithParameters(sql, parameters) =>
      r := PrepareStatementWithParameters(conn, sql, parameters);
  }
}
