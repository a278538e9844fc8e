/**
  Database operations and transactions. An operation is a function from a
  connection to a result: one of the library's queries or updates, a function
  of the caller's that makes no call on the connection, or `withinTransaction`
  wrapped around another operation. `withinTransaction(op)` switches
  auto-commit off if it was on, runs `op`, commits, and switches auto-commit
  back on; when `op` or the commit throws it rolls back and passes the
  exception on, or the rollback's own when rollback() throws, leaving
  auto-commit off.
*/
module DatabaseTransactionFunctions {
  import opened Jdbc
  import opened DatabaseStatementFunctions
  import opened DatabaseQueryFunctions
  import opened DatabaseUpdateFunctions

  /** What an operation returns, by the kind of operation. */
  datatype Output<R> =
    | QueryResult(extracted: Extracted<R>)
    | UpdateCount(count: int32)
    | UpdateCounts(counts: seq<int32>)
    | Returned(value: R)

  /** A function from a connection, represented by what it captures. */
  datatype Operation<R> =
    | Query(factory: StatementFactory, extraction: Extraction<R>)
    | Update(factory: StatementFactory)
    | Updates(factories: seq<StatementFactory>)
    | Returning(outcome: Result<R>)
    | WithinTransaction(operation: Operation<R>)

  /** Reference semantics of applying an operation to a connection. */
  function Run<R>(b: Backend, s: ConnState, op: Operation<R>): Step<Output<R>>
    decreases op, 0
  {
    match op
    case Query(factory, extraction) =>
      var q := PerformQuery(b, s, factory, extraction);
      Step(match q.result case Failure(e) => Failure(e) case Success(x) => Success(QueryResult(x)), q.state)
    case Update(factory) =>
      var u := PerformUpdate(b, s, factory);
      Step(match u.result case Failure(e) => Failure(e) case Success(n) => Success(UpdateCount(n)), u.state)
    case Updates(factories) =>
      var u := PerformUpdates(b, s, factories);
      Step(match u.result case Failure(e) => Failure(e) case Success(ns) => Success(UpdateCounts(ns)), u.state)
    case Returning(outcome) =>
      Step(match outcome case Failure(e) => Failure(e) case Success(v) => Success(Returned(v)), s)
    case WithinTransaction(inner) => PreserveAutoCommit(b, s, inner)
  }

  /**
    Reference semantics of preserveAutoCommit around performWithinTransaction:
    auto-commit is switched off if it was on and switched back on only after
    the transaction succeeded.
  */
  function PreserveAutoCommit<R>(b: Backend, s: ConnState, inner: Operation<R>): Step<Output<R>>
    decreases inner, 2
  {
    var got := GetAutoCommitStep(b, s);
    if got.result.Failure? then Step(Failure(got.result.error), got.state)
    else
      var initiallyEnabled := got.result.value;
      var disabled := if initiallyEnabled then SetAutoCommitStep(b, got.state, false) else Step(Success(()), got.state);
      if disabled.result.Failure? then Step(Failure(disabled.result.error), disabled.state)
      else
        var performed := PerformWithinTransaction(b, disabled.state, inner);
        if performed.result.Failure? || !initiallyEnabled then performed
        else
          var restored := SetAutoCommitStep(b, performed.state, true);
          Step(Yield(restored.result, performed.result.value), restored.state)
  }

  /**
    Reference semantics of performWithinTransaction: commit after the operation;
    when the operation or the commit throws, roll back and rethrow. An exception
    of rollback() replaces the one being rethrown.
  */
  function PerformWithinTransaction<R>(b: Backend, s: ConnState, inner: Operation<R>): Step<Output<R>>
    decreases inner, 1
  {
    var done := Run(b, s, inner);
    if done.result.Failure? then RollingBack(b, done.state, done.result.error)
    else
      var committed := CommitStep(b, done.state);
      if committed.result.Failure? then RollingBack(b, committed.state, committed.result.error)
      else Step(done.result, committed.state)
  }

  /** The catch block: roll back, then rethrow `e`, or the exception of rollback() if it threw. */
  function RollingBack<T>(b: Backend, s: ConnState, e: SqlError): Step<T>
  {
    var rolledBack := RollbackStep(b, s);
    Step(Failure(if rolledBack.result.Failure? then rolledBack.result.error else e), rolledBack.state)
  }

  /** An operation of the library (not a transaction) makes statement calls only. */
  lemma RunIsStatementLevel<R>(b: Backend, s: ConnState, op: Operation<R>)
    requires !op.WithinTransaction?
    ensures StatementLevel(s, Run(b, s, op).state)
  {
    match op
    case Query(factory, extraction) => PerformQueryIsStatementLevel(b, s, factory, extraction);
    case Update(factory) => PerformUpdateIsStatementLevel(b, s, factory);
    case Updates(factories) => PerformUpdatesIsStatementLevel(b, s, factories);
    case Returning(_) =>
  }

  /** From `s` to `s'` the connection stayed as open as it was, and close() was not called on it. */
  ghost predicate KeepsOpen(s: ConnState, s': ConnState)
  {
    && s'.closed == s.closed
    && s.log <= s'.log
    && forall k :: |s.log| <= k < |s'.log| ==> s'.log[k] != Close
  }

  lemma KeepsOpenTransitive(s: ConnState, s': ConnState, s'': ConnState)
    requires KeepsOpen(s, s') && KeepsOpen(s', s'')
    ensures KeepsOpen(s, s'')
  {
    assert forall k :: |s.log| <= k < |s'.log| ==> s''.log[k] == s'.log[k];
  }

  /** No operation closes its connection, and none calls close() on it: that is left to the runner. */
  lemma {:induction false} RunNeverCloses<R>(b: Backend, s: ConnState, op: Operation<R>)
    ensures KeepsOpen(s, Run(b, s, op).state)
    decreases op, 0
  {
    match op
    case WithinTransaction(inner) => PreserveAutoCommitNeverCloses(b, s, inner);
    case _ => RunIsStatementLevel(b, s, op);
  }

  lemma {:induction false} PreserveAutoCommitNeverCloses<R>(b: Backend, s: ConnState, inner: Operation<R>)
    ensures KeepsOpen(s, PreserveAutoCommit(b, s, inner).state)
    decreases inner, 2
  {
    var got := GetAutoCommitStep(b, s);
    if got.result.Success? {
      var disabled := if got.result.value then SetAutoCommitStep(b, got.state, false) else Step(Success(()), got.state);
      assert KeepsOpen(s, disabled.state);
      if disabled.result.Success? {
        PerformWithinTransactionNeverCloses(b, disabled.state, inner);
        var performed := PerformWithinTransaction(b, disabled.state, inner);
        KeepsOpenTransitive(s, disabled.state, performed.state);
        if performed.result.Success? && got.result.value {
          var restored := SetAutoCommitStep(b, performed.state, true);
          assert KeepsOpen(performed.state, restored.state);
          KeepsOpenTransitive(s, performed.state, restored.state);
        }
      }
    }
  }

  lemma {:induction false} PerformWithinTransactionNeverCloses<R>(b: Backend, s: ConnState, inner: Operation<R>)
    ensures KeepsOpen(s, PerformWithinTransaction(b, s, inner).state)
    decreases inner, 1
  {
    var done := Run(b, s, inner);
    RunNeverCloses(b, s, inner);
    var st := PerformWithinTransaction(b, s, inner);
    if done.result.Failure? {
      assert KeepsOpen(done.state, st.state);
    } else {
      var committed := CommitStep(b, done.state);
      assert KeepsOpen(done.state, committed.state);
      if committed.result.Failure? {
        assert KeepsOpen(committed.state, st.state);
        KeepsOpenTransitive(done.state, committed.state, st.state);
      }
    }
    KeepsOpenTransitive(s, done.state, st.state);
  }

  /** getAutoCommit and, when auto-commit was on, setAutoCommit(false) do not throw, so the operation is run. */
  ghost predicate Started(b: Backend, s: ConnState)
  {
    && b.fault(s.log, GetAutoCommit).None?
    && (s.autoCommit ==> b.fault(s.log + [GetAutoCommit], SetAutoCommit(false)).None?)
  }

  /**
    The state a transaction runs its operation in: right after getAutoCommit
    and, when auto-commit was on, setAutoCommit(false), with auto-commit off.
  */
  function TransactionStart(s: ConnState): (t: ConnState)
    ensures !t.autoCommit && t.closed == s.closed && t.commits == s.commits && t.rollbacks == s.rollbacks
  {
    if s.autoCommit then s.(log := s.log + [GetAutoCommit, SetAutoCommit(false)], autoCommit := false)
    else s.(log := s.log + [GetAutoCommit])
  }

  /**
    A transaction that cannot switch auto-commit off throws the exception of
    getAutoCommit or setAutoCommit(false) and never runs its operation,
    commits or rolls back.
  */
  lemma TransactionNotStarted<R>(b: Backend, s: ConnState, inner: Operation<R>)
    requires !Started(b, s)
    ensures var st := Run(b, s, WithinTransaction(inner));
            var got := b.fault(s.log, GetAutoCommit);
            var disable := b.fault(s.log + [GetAutoCommit], SetAutoCommit(false));
            && st.state == s.(log := st.state.log)
            && (got.Some? ==> st.result == Failure(got.value) && st.state.log == s.log + [GetAutoCommit])
            && (got.None? ==>
                  st.result == Failure(disable.value) && st.state.log == s.log + [GetAutoCommit, SetAutoCommit(false)])
  {
    assert s.log + [GetAutoCommit] + [SetAutoCommit(false)] == s.log + [GetAutoCommit, SetAutoCommit(false)];
  }

  /** A transaction that starts runs its operation in TransactionStart(s), with auto-commit off. */
  lemma TransactionRunsOperation<R>(b: Backend, s: ConnState, inner: Operation<R>)
    requires Started(b, s)
    ensures PreserveAutoCommit(b, s, inner) ==
            var performed := PerformWithinTransaction(b, TransactionStart(s), inner);
            if performed.result.Failure? || !s.autoCommit then performed
            else
              var restored := SetAutoCommitStep(b, performed.state, true);
              Step(Yield(restored.result, performed.result.value), restored.state)
  {
    assert s.log + [GetAutoCommit] + [SetAutoCommit(false)] == s.log + [GetAutoCommit, SetAutoCommit(false)];
  }

  /**
    When the operation and the commit succeed: commit is called once, rollback
    never, and the operation's result is returned unchanged. When auto-commit
    was on it is switched back on afterwards (an exception of that call is the
    outcome then); when it was off, setAutoCommit is never called.
  */
  lemma TransactionCommits<R>(b: Backend, s: ConnState, inner: Operation<R>)
    requires Started(b, s) && !inner.WithinTransaction?
    ensures var st := Run(b, s, WithinTransaction(inner));
            var done := Run(b, TransactionStart(s), inner);
            done.result.Success? && b.fault(done.state.log, Commit).None? ==>
              && st.state.commits == s.commits + 1 && st.state.rollbacks == s.rollbacks && st.state.closed == s.closed
              && (s.autoCommit ==>
                    var restore := b.fault(done.state.log + [Commit], SetAutoCommit(true));
                    && st.state.log == done.state.log + [Commit, SetAutoCommit(true)]
                    && (restore.None? ==> st.result == done.result && st.state.autoCommit)
                    && (restore.Some? ==> st.result == Failure(restore.value) && !st.state.autoCommit))
              && (!s.autoCommit ==>
                    st.state.log == done.state.log + [Commit] && st.result == done.result && !st.state.autoCommit)
  {
    TransactionRunsOperation(b, s, inner);
    RunIsStatementLevel(b, TransactionStart(s), inner);
    var done := Run(b, TransactionStart(s), inner);
    assert done.state.log + [Commit] + [SetAutoCommit(true)] == done.state.log + [Commit, SetAutoCommit(true)];
  }

  /**
    When the operation throws: rollback is called once, commit never, and the
    operation's exception is rethrown (unless rollback() throws, whose exception
    replaces it). Auto-commit is not switched back on.
  */
  lemma TransactionRollsBack<R>(b: Backend, s: ConnState, inner: Operation<R>)
    requires Started(b, s) && !inner.WithinTransaction?
    ensures var st := Run(b, s, WithinTransaction(inner));
            var done := Run(b, TransactionStart(s), inner);
            var rollback := b.fault(done.state.log, Rollback);
            done.result.Failure? ==>
              && st.state.commits == s.commits && st.state.rollbacks == s.rollbacks + 1 && st.state.closed == s.closed
              && st.state.log == done.state.log + [Rollback]
              && !st.state.autoCommit
              && st.result == Failure(if rollback.Some? then rollback.value else done.result.error)
  {
    TransactionRunsOperation(b, s, inner);
    RunIsStatementLevel(b, TransactionStart(s), inner);
  }

  /**
    When the operation succeeds but commit() throws: the commit sits inside the
    try, so rollback is called once and the commit's exception is rethrown
    (unless rollback() throws). Auto-commit is not switched back on.
  */
  lemma TransactionCommitFails<R>(b: Backend, s: ConnState, inner: Operation<R>)
    requires Started(b, s) && !inner.WithinTransaction?
    ensures var st := Run(b, s, WithinTransaction(inner));
            var done := Run(b, TransactionStart(s), inner);
            var commit := b.fault(done.state.log, Commit);
            var rollback := b.fault(done.state.log + [Commit], Rollback);
            done.result.Success? && commit.Some? ==>
              && st.state.commits == s.commits + 1 && st.state.rollbacks == s.rollbacks + 1 && st.state.closed == s.closed
              && st.state.log == done.state.log + [Commit, Rollback]
              && !st.state.autoCommit
              && st.result == Failure(if rollback.Some? then rollback.value else commit.value)
  {
    TransactionRunsOperation(b, s, inner);
    RunIsStatementLevel(b, TransactionStart(s), inner);
    var done := Run(b, TransactionStart(s), inner);
    assert done.state.log + [Commit] + [Rollback] == done.state.log + [Commit, Rollback];
  }

  /** With auto-commit initially off, a transaction never calls setAutoCommit, whatever happens. */
  lemma TransactionLeavesAutoCommitOffAlone<R>(b: Backend, s: ConnState, inner: Operation<R>)
    requires !s.autoCommit && !inner.WithinTransaction?
    ensures var st := Run(b, s, WithinTransaction(inner));
            s.log <= st.state.log && (forall k :: |s.log| <= k < |st.state.log| ==> !st.state.log[k].SetAutoCommit?)
  {
    var st := Run(b, s, WithinTransaction(inner));
    if Started(b, s) {
      TransactionRunsOperation(b, s, inner);
      RunIsStatementLevel(b, TransactionStart(s), inner);
      var start := TransactionStart(s);
      var done := Run(b, start, inner);
      assert forall k :: |s.log| <= k < |start.log| ==> start.log[k] == GetAutoCommit;
      assert done.state.log <= st.state.log;
      assert forall k :: |done.state.log| <= k < |st.state.log| ==> st.state.log[k].Commit? || st.state.log[k].Rollback?;
    }
  }

  /** Applying an operation to a connection. */
  method Perform<R>(conn: Connection, op: Operation<R>) returns (r: Result<Output<R>>)
    modifies conn
    ensures Step(r, conn.State()) == Run(conn.backend, old(conn.State()), op)
    decreases op, 0
  {
    match op
    case Query(factory, extraction) =>
      var q := PerformQueryOnConnection(conn, factory, extraction);
      r := if q.Failure? then Failure(q.error) else Success(QueryResult(q.value));
    case Update(factory) =>
      var u := PerformUpdateOnConnection(conn, factory);
      r := if u.Failure? then Failure(u.error) else Success(UpdateCount(u.value));
    case Updates(factories) =>
      var u := PerformUpdatesOnConnection(conn, factories);
      r := if u.Failure? then Failure(u.error) else Success(UpdateCounts(u.value[..]));
    case Returning(outcome) =>
      r := if outcome.Failure? then Failure(outcome.error) else Success(Returned(outcome.value));
    case WithinTransaction(inner) =>
      r := PreserveAutoCommitOn(conn, inner);
  }

  /** withinTransaction(inner) applied to a connection: preserveAutoCommit around performWithinTransaction. */
  method PreserveAutoCommitOn<R>(conn: Connection, inner: Operation<R>) returns (r: Result<Output<R>>)
    modifies conn
    ensures Step(r, conn.State()) == PreserveAutoCommit(conn.backend, old(conn.State()), inner)
    decreases inner, 2
  {
    var got := conn.GetAutoCommit();
    if got.Failure? {
      return Failure(got.error);
    }
    var initiallyEnabled := got.value;
    if initiallyEnabled {
      var disabled := conn.SetAutoCommit(false);
      if disabled.Failure? {
        return Failure(disabled.error);
      }
    }
    r := PerformWithinTransactionOn(conn, inner);
    if r.Failure? {
      return;
    }
    if initiallyEnabled {
      var restored := conn.SetAutoCommit(true);
      r := Yield(restored, r.value);
    }
  }

  /** performWithinTransaction(inner, connection). */
  method PerformWithinTransactionOn<R>(conn: Connection, inner: Operation<R>) returns (r: Result<Output<R>>)
    modifies conn
    ensures Step(r, conn.State()) == PerformWithinTransaction(conn.backend, old(conn.State()), inner)
    decreases inner, 1
  {
    var done := Perform(conn, inner);
    if done.Failure? {
      r := RollBack(conn, done.error);
      return;
    }
    var committed := conn.Commit();
    if committed.Failure? {
      r := RollBack(conn, committed.error);
      return;
    }
    r := done;
  }

  /** The catch block of performWithinTransaction. */
  method RollBack<T>(conn: Connection, e: SqlError) returns (r: Result<T>)
    modifies conn
    ensures Step(r, conn.State()) == RollingBack(conn.backend, old(conn.State()), e)
  {
    var rolledBack := conn.Rollback();
    r := Failure(if rolledBack.Failure? then rolledBack.error else e);
  }
}
