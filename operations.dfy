/**
  The runner `doInDatabase(connectionFactory, dbFunction)`: obtain a
  connection, apply the operation to it and close it in every case; the
  operation's result comes back as a Left, an SQLException from anywhere in
  between as a Right. No SQLException leaves the runner; other exceptions
  are not modelled.
*/
module DatabaseOperationFunctions {
  import opened Jdbc
  import opened Either
  import opened DatabaseTransactionFunctions

  /** What the runner returns, and the connection's state afterwards. */
  datatype Outcome<R> = Outcome(result: Either<Output<R>, SqlError>, state: ConnState)

  /**
    Reference semantics of doInDatabase once the connection is obtained: the
    connection is closed after the operation, and an exception of the
    operation wins over one of close().
  */
  function InDatabase<R>(b: Backend, s: ConnState, op: Operation<R>): Outcome<R>
  {
    var ran := Run(b, s, op);
    var closed := CloseStep(b, ran.state);
    var r := Closing(ran.result, closed.result);
    Outcome(if r.Success? then Left(r.value) else Right(r.error), closed.state)
  }

  /**
    The result is a Left exactly when the operation and close() both succeed,
    and then it holds the operation's result. Otherwise it is a Right holding
    the operation's exception, or close()'s when only close() threw.
  */
  lemma InDatabaseResult<R>(b: Backend, s: ConnState, op: Operation<R>)
    ensures var o := InDatabase(b, s, op);
            var ran := Run(b, s, op);
            var close := b.fault(ran.state.log, Close);
            && (o.result.IsLeft() <==> ran.result.Success? && close.None?)
            && (o.result.IsLeft() ==> o.result == Left(ran.result.value))
            && (ran.result.Failure? ==> o.result == Right(ran.result.error))
            && (ran.result.Success? && close.Some? ==> o.result == Right(close.value))
  {
  }

  /**
    The connection is closed once, whether the operation succeeded or threw:
    close() is the last call made on it, and the operation made none.
  */
  lemma InDatabaseClosesOnce<R>(b: Backend, s: ConnState, op: Operation<R>)
    ensures var o := InDatabase(b, s, op);
            && o.state.closed
            && |s.log| < |o.state.log| && o.state.log[|o.state.log| - 1] == Close
            && s.log <= o.state.log
            && forall k :: |s.log| <= k < |o.state.log| - 1 ==> o.state.log[k] != Close
  {
    RunNeverCloses(b, s, op);
    var ran := Run(b, s, op);
    var o := InDatabase(b, s, op);
    assert o.state.log == ran.state.log + [Close];
    assert forall k :: |s.log| <= k < |o.state.log| - 1 ==> o.state.log[k] == ran.state.log[k];
  }

  /**
    doInDatabase(connectionFactory, dbFunction). `acquired` is what
    connectionFactory.get() returned: when it threw, the result is a Right with
    its exception and there is nothing to apply the operation to or to close.
  */
  method DoInDatabase<R>(acquired: Result<Connection>, op: Operation<R>) returns (e: Either<Output<R>, SqlError>)
    modifies if acquired.Success? then {acquired.value} else {}
    ensures acquired.Failure? ==> e == Right(acquired.error)
    ensures acquired.Success? ==>
              var spec := InDatabase(acquired.value.backend, old(acquired.value.State()), op);
              e == spec.result && acquired.value.State() == spec.state
  {
    if acquired.Failure? {
      return Right(acquired.error);
    }
    var connection := acquired.value;
    var result := Perform(connection, op);
    var closed := connection.Close();
    var r := Closing(result, closed);
    e := if r.Success? then Left(r.value) else Right(r.error);
  }
}
