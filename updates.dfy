/**
  Updates: `databaseUpdate(factory)` prepares a statement, executes it as an
  update and closes it, returning the update count; `multipleDatabaseUpdates`
  does that for each factory of a list in turn and returns the counts as an
  array, one per factory.
*/
module DatabaseUpdateFunctions {
  import opened Jdbc
  import opened DatabaseStatementFunctions

  /**
    Reference semantics of performUpdateOnConnection: the statement is closed
    whether or not executeUpdate threw; the first exception thrown wins.
  */
  function PerformUpdate(b: Backend, s: ConnState, factory: StatementFactory): Step<int32>
  {
    var prepared := Prepare(b, s, factory);
    if prepared.result.Failure? then Step(Failure(prepared.result.error), prepared.state)
    else
      var ps := prepared.result.value;
      var executed := ExecuteUpdateStep(b, prepared.state, ps);
      var closed := CloseStatementStep(b, executed.state, ps);
      Step(Closing(executed.result, closed.result), closed.state)
  }

  /** Reference semantics of performUpdatesOnConnection: one update per factory, in order, until one throws. */
  function PerformUpdates(b: Backend, s: ConnState, factories: seq<StatementFactory>): Step<seq<int32>>
    decreases |factories|
  {
    if |factories| == 0 then Step(Success([]), s)
    else
      var first := PerformUpdate(b, s, factories[0]);
      if first.result.Failure? then Step(Failure(first.result.error), first.state)
      else
        var rest := PerformUpdates(b, first.state, factories[1..]);
        Step(Prepend([first.result.value], rest.result), rest.state)
  }

  /** An update whose factory throws executes nothing, closes nothing and passes the factory's exception on. */
  lemma PerformUpdateFactoryFails(b: Backend, s: ConnState, factory: StatementFactory)
    requires Prepare(b, s, factory).result.Failure?
    ensures var st := PerformUpdate(b, s, factory);
            st.result == Failure(Prepare(b, s, factory).result.error) &&
            exists j: nat :: FailedAt(b, s, PrepareCalls(factory), j, st)
  {
    PrepareStops(b, s, factory);
    var prepared := Prepare(b, s, factory);
    var j: nat :| FailedAt(b, s, PrepareCalls(factory), j, prepared);
    assert FailedAt(b, s, PrepareCalls(factory), j, PerformUpdate(b, s, factory));
  }

  /**
    Once the statement is prepared, it is executed once as an update with its
    SQL and parameters and then closed, in every case. The outcome is the
    exception of executeUpdate, else that of close(), else the count the
    database reports for the update. Nothing but the log changes.
  */
  lemma PerformUpdateCloses(b: Backend, s: ConnState, factory: StatementFactory)
    requires Prepare(b, s, factory).result.Success?
    ensures var st := PerformUpdate(b, s, factory);
            var ps := PreparedValue(factory);
            var before := s.log + PrepareCalls(factory);
            var update := ExecuteUpdate(ps.sql, ps.parameters);
            var closeFault := b.fault(before + [update], CloseStatement(ps.sql));
            && st.state == s.(log := before + [update, CloseStatement(ps.sql)])
            && (b.fault(before, update).Some? ==> st.result == Failure(b.fault(before, update).value))
            && (b.fault(before, update).None? && closeFault.Some? ==> st.result == Failure(closeFault.value))
            && (b.fault(before, update).None? && closeFault.None? ==>
                  st.result == Success(b.count(before, ps.sql, ps.parameters)))
  {
    PrepareSucceeds(b, s, factory);
    var ps := PreparedValue(factory);
    var before := s.log + PrepareCalls(factory);
    assert before + [ExecuteUpdate(ps.sql, ps.parameters), CloseStatement(ps.sql)] ==
           before + [ExecuteUpdate(ps.sql, ps.parameters)] + [CloseStatement(ps.sql)];
  }

  /** An update only makes statement calls: nothing about the connection itself changes. */
  lemma PerformUpdateIsStatementLevel(b: Backend, s: ConnState, factory: StatementFactory)
    ensures StatementLevel(s, PerformUpdate(b, s, factory).state)
  {
    var prepared := Prepare(b, s, factory);
    PrepareIsStatementLevel(b, s, factory);
    if prepared.result.Success? {
      PrepareSucceeds(b, s, factory);
      PerformUpdateCloses(b, s, factory);
      var ps := PreparedValue(factory);
      AppendIsStatementLevel(prepared.state, [ExecuteUpdate(ps.sql, ps.parameters), CloseStatement(ps.sql)]);
      StatementLevelTransitive(s, prepared.state, PerformUpdate(b, s, factory).state);
    }
  }

  /** An empty list of factories issues no statement and yields no counts. */
  lemma NoFactoriesNoStatements(b: Backend, s: ConnState)
    ensures PerformUpdates(b, s, []) == Step(Success([]), s)
  {
  }

  /** The updates of a list that succeed give one count per factory. */
  lemma {:induction false} PerformUpdatesCountsEveryFactory(b: Backend, s: ConnState, factories: seq<StatementFactory>)
    ensures var st := PerformUpdates(b, s, factories);
            st.result.Success? ==> |st.result.value| == |factories|
    decreases |factories|
  {
    if |factories| > 0 {
      var first := PerformUpdate(b, s, factories[0]);
      if first.result.Success? {
        PerformUpdatesCountsEveryFactory(b, first.state, factories[1..]);
      }
    }
  }

  /**
    Running the updates of `front + back` is running those of `front` and then,
    if they all succeeded, those of `back` from where `front` left the
    connection; the counts are concatenated in order.
  */
  lemma {:induction false} PerformUpdatesAppend(b: Backend, s: ConnState, front: seq<StatementFactory>, back: seq<StatementFactory>)
    ensures var whole := PerformUpdates(b, s, front + back);
            var first := PerformUpdates(b, s, front);
            whole == if first.result.Failure? then first
                     else var rest := PerformUpdates(b, first.state, back);
                          Step(Prepend(first.result.value, rest.result), rest.state)
    decreases |front|
  {
    if |front| == 0 {
      assert front + back == back;
      var rest := PerformUpdates(b, s, back);
      if rest.result.Success? {
        assert [] + rest.result.value == rest.result.value;
      }
    } else {
      assert (front + back)[0] == front[0];
      assert (front + back)[1..] == front[1..] + back;
      var head := PerformUpdate(b, s, front[0]);
      if head.result.Success? {
        PerformUpdatesAppend(b, head.state, front[1..], back);
        var mid := PerformUpdates(b, head.state, front[1..]);
        if mid.result.Success? {
          var rest := PerformUpdates(b, mid.state, back);
          if rest.result.Success? {
            assert [head.result.value] + (mid.result.value + rest.result.value) ==
                   ([head.result.value] + mid.result.value) + rest.result.value;
          }
        }
      }
    }
  }

  /**
    In a batch that succeeds, count i is the count of the update of
    factories[i], run where the updates of the factories before it left the
    connection.
  */
  lemma PerformUpdatesAt(b: Backend, s: ConnState, factories: seq<StatementFactory>, i: nat)
    requires i < |factories|
    ensures var st := PerformUpdates(b, s, factories);
            var before := PerformUpdates(b, s, factories[..i]);
            st.result.Success? ==>
              && before.result.Success?
              && |st.result.value| == |factories|
              && PerformUpdate(b, before.state, factories[i]).result.Success?
              && st.result.value[i] == PerformUpdate(b, before.state, factories[i]).result.value
  {
    assert factories == factories[..i] + factories[i..];
    PerformUpdatesAppend(b, s, factories[..i], factories[i..]);
    PerformUpdatesCountsEveryFactory(b, s, factories);
    PerformUpdatesCountsEveryFactory(b, s, factories[..i]);
    assert factories[i..][0] == factories[i];
  }

  /** A list of one factory runs exactly that one update, with its count as the only element. */
  lemma PerformUpdatesSingle(b: Backend, s: ConnState, factory: StatementFactory)
    ensures var one := PerformUpdate(b, s, factory);
            PerformUpdates(b, s, [factory]) ==
            Step(if one.result.Success? then Success([one.result.value]) else Failure(one.result.error), one.state)
  {
    assert [factory][1..] == [];
    assert [factory][0] == factory;
    var one := PerformUpdate(b, s, factory);
    if one.result.Success? {
      assert [one.result.value] + [] == [one.result.value];
    }
  }

  /**
    When the updates of a list fail, some factory k failed after every one
    before it succeeded: its exception is the outcome and no factory after it
    was applied.
  */
  lemma {:induction false} PerformUpdatesAbortAtFirstFailure(b: Backend, s: ConnState, factories: seq<StatementFactory>)
    ensures var st := PerformUpdates(b, s, factories);
            st.result.Failure? ==>
              exists k :: 0 <= k < |factories| && AbortedAt(b, s, factories, k, st)
    decreases |factories|
  {
    var st := PerformUpdates(b, s, factories);
    if |factories| > 0 && st.result.Failure? {
      var first := PerformUpdate(b, s, factories[0]);
      assert factories[..0] == [];
      if first.result.Failure? {
        assert AbortedAt(b, s, factories, 0, st);
      } else {
        var tail := factories[1..];
        PerformUpdatesAbortAtFirstFailure(b, first.state, tail);
        var k :| 0 <= k < |tail| && AbortedAt(b, first.state, tail, k, st);
        assert factories[..k + 1] == [factories[0]] + tail[..k];
        PerformUpdatesAppend(b, s, [factories[0]], tail[..k]);
        PerformUpdatesSingle(b, s, factories[0]);
        assert factories[k + 1] == tail[k];
        assert AbortedAt(b, s, factories, k + 1, st);
      }
    }
  }

  /** The updates of factories[..k] all succeeded, that of factories[k] threw, and `st` is where that left things. */
  ghost predicate AbortedAt(b: Backend, s: ConnState, factories: seq<StatementFactory>, k: nat, st: Step<seq<int32>>)
    requires k < |factories|
  {
    var before := PerformUpdates(b, s, factories[..k]);
    var failed := PerformUpdate(b, before.state, factories[k]);
    && before.result.Success?
    && failed.result.Failure?
    && st == Step(Failure(failed.result.error), failed.state)
  }

  /** A list of updates only makes statement calls. */
  lemma {:induction false} PerformUpdatesIsStatementLevel(b: Backend, s: ConnState, factories: seq<StatementFactory>)
    ensures StatementLevel(s, PerformUpdates(b, s, factories).state)
    decreases |factories|
  {
    if |factories| > 0 {
      var first := PerformUpdate(b, s, factories[0]);
      PerformUpdateIsStatementLevel(b, s, factories[0]);
      if first.result.Success? {
        PerformUpdatesIsStatementLevel(b, first.state, factories[1..]);
        StatementLevelTransitive(s, first.state, PerformUpdates(b, s, factories).state);
      }
    }
  }

  /** databaseUpdate(factory) applied to a connection: performUpdateOnConnection. */
  method PerformUpdateOnConnection(conn: Connection, factory: StatementFactory) returns (r: Result<int32>)
    modifies conn
    ensures Step(r, conn.State()) == PerformUpdate(conn.backend, old(conn.State()), factory)
  {
    var prepared := Apply(conn, factory);
    if prepared.Failure? {
      return Failure(prepared.error);
    }
    var ps := prepared.value;
    var executed := ps.ExecuteUpdate();
    var closed := ps.Close();
    r := Closing(executed, closed);
  }

  /** multipleDatabaseUpdates(factories) applied to a connection: performUpdatesOnConnection. */
  method PerformUpdatesOnConnection(conn: Connection, factories: seq<StatementFactory>) returns (r: Result<array<int32>>)
    modifies conn
    ensures var spec := PerformUpdates(conn.backend, old(conn.State()), factories);
            conn.State() == spec.state && r.Success? == spec.result.Success? &&
            (r.Failure? ==> r.error == spec.result.error) &&
            (r.Success? ==> fresh(r.value) && r.value[..] == spec.result.value)
  {
    ghost var start := conn.State();
    var result := new int32[|factories|];
    assert factories[0..] == factories;
    ghost var all := PerformUpdates(conn.backend, start, factories);
    if all.result.Success? {
      assert [] + all.result.value == all.result.value;
    }
    for i := 0 to |factories|
      invariant PerformUpdates(conn.backend, start, factories) ==
                (var rest := PerformUpdates(conn.backend, conn.State(), factories[i..]);
                 Step(Prepend(result[..i], rest.result), rest.state))
    {
      ghost var before := conn.State();
      var count := PerformUpdateOnConnection(conn, factories[i]);
      assert factories[i..][0] == factories[i] && factories[i..][1..] == factories[i + 1..];
      if count.Failure? {
        return Failure(count.error);
      }
      ghost var rest := PerformUpdates(conn.backend, conn.State(), factories[i + 1..]);
      if rest.result.Success? {
        assert result[..i] + ([count.value] + rest.result.value) == (result[..i] + [count.value]) + rest.result.value;
      }
      result[i] := count.value;
      assert result[..i + 1] == result[..i] + [count.value];
    }
    assert factories[|factories|..] == [];
    assert result[..|factories|] == result[..];
    r := Success(result);
  }
}
