# java8-functional: the JDBC combinator layer, in Dafny

The library turns JDBC work into values that are composed and then run.

- **Statement factories.** `statement(sql)` and `statement(sql, parameters...)` are functions from a connection to a prepared statement. The parameterised one binds parameters by position, 1-based.
- **Queries.** `databaseQuery(factory, extraction)` prepares, executes, extracts and closes. The extraction is `multipleRowExtraction(mapper)` for every row or `singleRowExtraction(mapper)` for exactly one row.
- **Updates.** `databaseUpdate(factory)` runs one update. `multipleDatabaseUpdates(factories)` runs a list of them in order.
- **Transactions.** `withinTransaction(operation)` runs an operation with auto-commit off and commits it, or rolls it back.
- **Runner.** `doInDatabase(connectionFactory, operation)` obtains a connection, applies the operation, always closes the connection, and returns `Left(result)`, or an `SQLException` as `Right(exception)`.
- **Helpers.** `Either` is the result container. `Function.andThen` and `Function.curry` compose functions that may throw.

## How it is modelled

- **JDBC (`jdbc.dfy`, module `Jdbc`) is abstract.**
  - `Connection`, `PreparedStatement` and `ResultSet` are classes with mutable state:
    - a connection has an auto-commit flag, a closed flag, counts of commit and rollback calls, and a log;
    - a statement has its bound parameters and a closed flag;
    - a result set has its rows, a cursor and a closed flag.
  - Every JDBC call made is appended to the connection's log.
  - A `Backend` of pure oracles stands for the database. From the calls made so far, it decides whether a call throws an `SQLException`, which rows a query returns and which count an update returns.
  - Next to each method there is a pure step function over a snapshot (`ConnState`) of the connection.
- **Operations have a reference semantics.** Each library operation is a function over snapshots, for example `PerformQuery`, `PerformUpdates` or `Run`. It returns the outcome and the snapshot afterwards.
  - The imperative code is written as methods on the objects, with the source's loops. Each method is proved to leave the connection exactly as its reference function says.
  - The properties are lemmas about the reference functions.
- **Lambdas are datatypes holding what they capture.** `StatementFactory`, `Extraction` and `Operation` stand for the lambdas the builders return. Applying one to a connection is a method call: `Apply`, `ApplyExtraction` or `Perform`.
  - An `Operation` is one of the library's queries or updates, a `withinTransaction` around another operation, or `Returning(outcome)`.
  - `Returning(outcome)` is a function of the caller's that makes no JDBC call and returns a value or throws.
- **SQLExceptions are `Result` values.** The only exception the model knows is the `SQLException` (`SqlError`). try-with-resources is modelled by `Closing`: close() always runs, and an exception of the body wins over one of close().
- **The runner's inputs are parameters.** The connection factory is represented by what `connectionFactory.get()` returned.

`DatabaseOperations.java` is the earlier single-class revision.
- Its `doInDatabase` (lines 34-42), `databaseUpdate` and `multipleDatabaseUpdates` (lines 78-101), `statement` (lines 111-134) and `withinTransaction` (lines 144-172) are the same code as in the later classes. The members that model those classes model them too.
- Its `databaseQuery` differs: it takes a row mapper and returns the list directly. It is modelled in `legacy.dfy` and proved equivalent to the later query with `multipleRowExtraction`.

## Auto-commit and rollback in the code

The model follows what `DatabaseTransactionFunctions.java` does, which is less than its names suggest.
- **Auto-commit after a failure.** The name `preserveAutoCommit` suggests the auto-commit mode is restored on every exit. The code re-enables it only after the operation returned (lines 49-51): an exception leaves `preserveAutoCommit` before `setAutoCommit(true)` is reached. `TransactionRollsBack` and `TransactionCommitFails` prove that auto-commit stays off after a failed transaction.
- **Exception from rollback().** When `rollback()` at line 37 throws, its exception propagates and the one caught at line 36 is lost. The rollback lemmas state this.

## Model

| member | source | states |
|---|---|---|
| `Either.LeftIsLeft` | src/main/java/de/henninglanghorst/functional/util/Either.java:15-17 | left(v) is a Left, not a Right; left() is Some(v), right() is empty |
| `Either.RightIsRight` | src/main/java/de/henninglanghorst/functional/util/Either.java:19-21 | right(v) is a Right, not a Left; right() is Some(v), left() is empty |
| `Either.ExactlyOneTag` | src/main/java/de/henninglanghorst/functional/util/Either.java:41-49 | exactly one of isLeft() and isRight() holds on every value |
| `Either.Either.IsLeft` | src/main/java/de/henninglanghorst/functional/util/Either.java:41-44 | isLeft(): true on a Left, false on a Right (its property is stated by `ExactlyOneTag`) |
| `Either.Either.IsRight` | src/main/java/de/henninglanghorst/functional/util/Either.java:46-49 | isRight(): true on a Right, false on a Left (its property is stated by `ExactlyOneTag`) |
| `Either.Either.LeftOption` | src/main/java/de/henninglanghorst/functional/util/Either.java:51-59 | left() is present exactly on a Left, and then holds the Left's value |
| `Either.Either.RightOption` | src/main/java/de/henninglanghorst/functional/util/Either.java:103-111 | right() is present exactly on a Right, and then holds the Right's value |
| `Either.Either.Handle` | src/main/java/de/henninglanghorst/functional/util/Either.java:61-64 | handle makes exactly one consumer call, to the consumer of the value's variant, with the value |
| `Either.HandleLeftIgnoresRightConsumer` | src/main/java/de/henninglanghorst/functional/util/Either.java:61-64 | on Left(v) only the left consumer is called, once, with v; the right consumer does not matter |
| `Either.HandleRightIgnoresLeftConsumer` | src/main/java/de/henninglanghorst/functional/util/Either.java:113-116 | on Right(v) only the right consumer is called, once, with v |
| `Either.Either.ToString` | src/main/java/de/henninglanghorst/functional/util/Either.java:66-69 | the rendering is "Left(" + value + ")" or "Right(" + value + ")" |
| `Either.ToStringTellsVariantsApart` | src/main/java/de/henninglanghorst/functional/util/Either.java:118-121 | a Left and a Right never render alike |
| `Either.ToStringOfLeftsDeterminesValue` | src/main/java/de/henninglanghorst/functional/util/Either.java:66-69 | two Lefts render alike exactly when their values render alike |
| `Either.Equals` | src/main/java/de/henninglanghorst/functional/util/Either.java:71-77 | equals holds exactly for the same variant with equal values |
| `Either.EqualsOnSameVariant` | src/main/java/de/henninglanghorst/functional/util/Either.java:123-129 | Left(a) equals Left(b) iff a == b, and likewise for Right |
| `Either.LeftNeverEqualsRight` | src/main/java/de/henninglanghorst/functional/util/Either.java:74 | a Left never equals a Right, in either order |
| `SqlFunction.AndThen` | src/main/java/de/henninglanghorst/functional/sql/function/Function.java:13-15 | andThen as a function on functions; what it computes is stated by `AndThenApply` and the laws below |
| `SqlFunction.AndThenApply` | src/main/java/de/henninglanghorst/functional/sql/function/Function.java:13-15 | f.andThen(g)(t) is g(f(t)); an exception of f is the result and g is skipped |
| `SqlFunction.AndThenShortCircuits` | src/main/java/de/henninglanghorst/functional/sql/function/Function.java:14 | when f throws, the continuation does not matter: any two give f's exception |
| `SqlFunction.AndThenAssociative` | src/main/java/de/henninglanghorst/functional/sql/function/Function.java:13-15 | how a chain of andThen is grouped does not change what it computes |
| `SqlFunction.AndThenIdentity` | src/main/java/de/henninglanghorst/functional/sql/function/Function.java:13-15 | the non-throwing identity is a unit of andThen on both sides |
| `SqlFunction.Curry` | src/main/java/de/henninglanghorst/functional/sql/function/Function.java:17-19 | f.curry(t).get() is f.apply(t) |
| `SqlFunction.CurryAndThen` | src/main/java/de/henninglanghorst/functional/sql/function/Function.java:17-19 | currying a composition is composing after currying |
| `DatabaseStatementFunctions.BindFrom` | src/main/java/de/henninglanghorst/functional/sql/DatabaseStatementFunctions.java:48-50 | reference semantics of the bind loop from parameter i on; stated by `BindFromValue`, `BindFromCompletes` and `BindFromStops` |
| `DatabaseStatementFunctions.PrepareWithParameters` | src/main/java/de/henninglanghorst/functional/sql/DatabaseStatementFunctions.java:44-52 | reference semantics of prepareStatementWithParameters; stated by `PrepareSucceeds` and `PrepareStops` |
| `DatabaseStatementFunctions.Prepare` | src/main/java/de/henninglanghorst/functional/sql/DatabaseStatementFunctions.java:26-42 | reference semantics of applying either statement factory; stated by `PrepareSucceeds`, `PrepareStops` and `PrepareIsStatementLevel` |
| `DatabaseStatementFunctions.BindCalls` | src/main/java/de/henninglanghorst/functional/sql/DatabaseStatementFunctions.java:48-50 | the bind loop makes one setObject call per remaining parameter |
| `DatabaseStatementFunctions.BindCallsInOrder` | src/main/java/de/henninglanghorst/functional/sql/DatabaseStatementFunctions.java:48-50 | the k-th bind call binds parameter i + k at position i + k + 1 |
| `DatabaseStatementFunctions.Positional` | src/main/java/de/henninglanghorst/functional/sql/DatabaseStatementFunctions.java:49 | after binding n parameters, positions 1..n are bound, position k to parameter k - 1, and no others |
| `DatabaseStatementFunctions.BindFromValue` | src/main/java/de/henninglanghorst/functional/sql/DatabaseStatementFunctions.java:48-50 | a completed bind loop binds every parameter at its 1-based position and nothing else |
| `DatabaseStatementFunctions.BindFromCompletes` | src/main/java/de/henninglanghorst/functional/sql/DatabaseStatementFunctions.java:48-50 | a completed bind loop made exactly the bind calls, in order, and changed only the log |
| `DatabaseStatementFunctions.BindFromStops` | src/main/java/de/henninglanghorst/functional/sql/DatabaseStatementFunctions.java:48-50 | a failed bind loop stopped at the setObject that threw: earlier ones succeeded, later ones were not made, its exception is the result |
| `DatabaseStatementFunctions.PrepareSucceeds` | src/main/java/de/henninglanghorst/functional/sql/DatabaseStatementFunctions.java:26-52 | a factory that succeeds prepares exactly its SQL with exactly its parameters bound, after prepareStatement and one setObject per parameter |
| `DatabaseStatementFunctions.PrepareStops` | src/main/java/de/henninglanghorst/functional/sql/DatabaseStatementFunctions.java:44-52 | a failing factory stops at the first call that threw and passes its exception on; a failed prepareStatement binds nothing, and the half-bound statement is not closed |
| `DatabaseStatementFunctions.PrepareIsStatementLevel` | src/main/java/de/henninglanghorst/functional/sql/DatabaseStatementFunctions.java:26-52 | a factory makes statement calls only and changes nothing but the log |
| `DatabaseStatementFunctions.StatementIsStatementWithoutParameters` | src/main/java/de/henninglanghorst/functional/sql/DatabaseStatementFunctions.java:26-42 | statement(sql) behaves as statement(sql) with no parameters |
| `DatabaseStatementFunctions.PrepareStatementWithParameters` | src/main/java/de/henninglanghorst/functional/sql/DatabaseStatementFunctions.java:44-52 | the loop leaves the connection and the returned statement as the reference semantics says |
| `DatabaseStatementFunctions.Apply` | src/main/java/de/henninglanghorst/functional/sql/DatabaseStatementFunctions.java:26-42 | applying a factory to a connection does what its reference semantics says |
| `DatabaseQueryFunctions.MapRows` | src/main/java/de/henninglanghorst/functional/sql/DatabaseQueryFunctions.java:58-66 | reference semantics of multiple-row extraction; stated by the `MapRows` lemmas |
| `DatabaseQueryFunctions.SingleRow` | src/main/java/de/henninglanghorst/functional/sql/DatabaseQueryFunctions.java:79-89 | reference semantics of single-row extraction; stated by the `SingleRow` lemmas |
| `DatabaseQueryFunctions.Extract` | src/main/java/de/henninglanghorst/functional/sql/DatabaseQueryFunctions.java:54-77 | the extraction an `Extraction` value stands for |
| `DatabaseQueryFunctions.PerformQuery` | src/main/java/de/henninglanghorst/functional/sql/DatabaseQueryFunctions.java:37-45 | reference semantics of performQueryOnConnection; stated by the `PerformQuery` lemmas |
| `DatabaseQueryFunctions.MapRowsSucceeds` | src/main/java/de/henninglanghorst/functional/sql/DatabaseQueryFunctions.java:58-66 | multiple-row extraction succeeds iff the mapper succeeds on every row; then one record per row, in row order (none for no rows) |
| `DatabaseQueryFunctions.MapRowsStops` | src/main/java/de/henninglanghorst/functional/sql/DatabaseQueryFunctions.java:61-64 | a failed extraction passes on the mapper's exception on the first row it threw on |
| `DatabaseQueryFunctions.MapRowsIgnoresRowsAfterFailure` | src/main/java/de/henninglanghorst/functional/sql/DatabaseQueryFunctions.java:61-64 | rows after the one the mapper threw on are never mapped |
| `DatabaseQueryFunctions.MapRowsAppend` | src/main/java/de/henninglanghorst/functional/sql/DatabaseQueryFunctions.java:61-64 | mapping rows in two parts is mapping them all, in order |
| `DatabaseQueryFunctions.SingleRowCases` | src/main/java/de/henninglanghorst/functional/sql/DatabaseQueryFunctions.java:79-89 | no row: "No data found"; mapper exception on the first row; a second row: "More than one record in result"; one row: its record |
| `DatabaseQueryFunctions.SingleRowMapsFirstRowOnly` | src/main/java/de/henninglanghorst/functional/sql/DatabaseQueryFunctions.java:81-84 | single-row extraction maps the first row only, and no row when there is none |
| `DatabaseQueryFunctions.SingleRowIsTheOnlyRecord` | src/main/java/de/henninglanghorst/functional/sql/DatabaseQueryFunctions.java:75-89 | single-row extraction succeeds iff multiple-row extraction yields exactly one record, and with that record |
| `DatabaseQueryFunctions.PerformQueryFactoryFails` | src/main/java/de/henninglanghorst/functional/sql/DatabaseQueryFunctions.java:40 | a failing factory's exception is the result; executeQuery is never called and nothing is closed |
| `DatabaseQueryFunctions.PerformQueryCloses` | src/main/java/de/henninglanghorst/functional/sql/DatabaseQueryFunctions.java:40-44 | a prepared query executes once, closes the result set if it was obtained, then closes the statement, on every path |
| `DatabaseQueryFunctions.PerformQueryOutcome` | src/main/java/de/henninglanghorst/functional/sql/DatabaseQueryFunctions.java:37-45 | the outcome is the first exception of executeQuery, extraction, result-set close, statement close; else the extraction of the returned rows |
| `DatabaseQueryFunctions.PerformQueryIsStatementLevel` | src/main/java/de/henninglanghorst/functional/sql/DatabaseQueryFunctions.java:37-45 | a query makes statement calls only |
| `DatabaseQueryFunctions.ExtractRowsFromResultSet` | src/main/java/de/henninglanghorst/functional/sql/DatabaseQueryFunctions.java:58-66 | the while-next loop computes the multiple-row extraction of the rows from the cursor on |
| `DatabaseQueryFunctions.ExtractSingleRowFromResultSet` | src/main/java/de/henninglanghorst/functional/sql/DatabaseQueryFunctions.java:79-89 | the two next() calls compute the single-row extraction of the rows from the cursor on |
| `DatabaseQueryFunctions.ApplyExtraction` | src/main/java/de/henninglanghorst/functional/sql/DatabaseQueryFunctions.java:54-77 | applying either extraction to a result set computes its reference semantics |
| `DatabaseQueryFunctions.PerformQueryOnConnection` | src/main/java/de/henninglanghorst/functional/sql/DatabaseQueryFunctions.java:37-45 | the query leaves the connection and returns as its reference semantics says |
| `DatabaseUpdateFunctions.PerformUpdate` | src/main/java/de/henninglanghorst/functional/sql/DatabaseUpdateFunctions.java:32-38 | reference semantics of performUpdateOnConnection; stated by the `PerformUpdate` lemmas |
| `DatabaseUpdateFunctions.PerformUpdates` | src/main/java/de/henninglanghorst/functional/sql/DatabaseUpdateFunctions.java:53-62 | reference semantics of performUpdatesOnConnection; stated by the `PerformUpdates` lemmas |
| `DatabaseUpdateFunctions.PerformUpdateFactoryFails` | src/main/java/de/henninglanghorst/functional/sql/DatabaseUpdateFunctions.java:35 | a failing factory's exception is the result; nothing is executed or closed |
| `DatabaseUpdateFunctions.PerformUpdateCloses` | src/main/java/de/henninglanghorst/functional/sql/DatabaseUpdateFunctions.java:32-38 | a prepared update executes once and closes the statement on every path; the result is executeUpdate's count, or its exception, or close()'s |
| `DatabaseUpdateFunctions.PerformUpdateIsStatementLevel` | src/main/java/de/henninglanghorst/functional/sql/DatabaseUpdateFunctions.java:32-38 | an update makes statement calls only |
| `DatabaseUpdateFunctions.NoFactoriesNoStatements` | src/main/java/de/henninglanghorst/functional/sql/DatabaseUpdateFunctions.java:53-62 | an empty list yields no counts and makes no call |
| `DatabaseUpdateFunctions.PerformUpdatesCountsEveryFactory` | src/main/java/de/henninglanghorst/functional/sql/DatabaseUpdateFunctions.java:56-61 | a successful batch has one count per factory |
| `DatabaseUpdateFunctions.PerformUpdatesAppend` | src/main/java/de/henninglanghorst/functional/sql/DatabaseUpdateFunctions.java:58-60 | a batch runs its factories in list order, each one after the previous one finished; counts are concatenated in order |
| `DatabaseUpdateFunctions.PerformUpdatesAt` | src/main/java/de/henninglanghorst/functional/sql/DatabaseUpdateFunctions.java:58-60 | in a successful batch, count i is the count of the update of factory i, run after the updates of all factories before it |
| `DatabaseUpdateFunctions.PerformUpdatesSingle` | src/main/java/de/henninglanghorst/functional/sql/DatabaseUpdateFunctions.java:58-60 | the count for a factory is exactly the single update's count |
| `DatabaseUpdateFunctions.PerformUpdatesAbortAtFirstFailure` | src/main/java/de/henninglanghorst/functional/sql/DatabaseUpdateFunctions.java:58-61 | a failed batch failed at some factory after all earlier ones succeeded; its exception is the result and no later factory is applied |
| `DatabaseUpdateFunctions.PerformUpdatesIsStatementLevel` | src/main/java/de/henninglanghorst/functional/sql/DatabaseUpdateFunctions.java:53-62 | a batch makes statement calls only |
| `DatabaseUpdateFunctions.PerformUpdateOnConnection` | src/main/java/de/henninglanghorst/functional/sql/DatabaseUpdateFunctions.java:32-38 | the update leaves the connection and returns as its reference semantics says |
| `DatabaseUpdateFunctions.PerformUpdatesOnConnection` | src/main/java/de/henninglanghorst/functional/sql/DatabaseUpdateFunctions.java:53-62 | the indexed fill of a fresh int array yields exactly the batch's counts, or its exception |
| `DatabaseTransactionFunctions.Run` | src/main/java/de/henninglanghorst/functional/sql/DatabaseTransactionFunctions.java:26-29 | reference semantics of applying any operation, withinTransaction included; stated by `RunNeverCloses` and the transaction lemmas |
| `DatabaseTransactionFunctions.PreserveAutoCommit` | src/main/java/de/henninglanghorst/functional/sql/DatabaseTransactionFunctions.java:42-54 | reference semantics of preserveAutoCommit; stated by the transaction lemmas |
| `DatabaseTransactionFunctions.PerformWithinTransaction` | src/main/java/de/henninglanghorst/functional/sql/DatabaseTransactionFunctions.java:31-40 | reference semantics of performWithinTransaction; stated by `TransactionCommits`, `TransactionRollsBack` and `TransactionCommitFails` |
| `DatabaseTransactionFunctions.RollingBack` | src/main/java/de/henninglanghorst/functional/sql/DatabaseTransactionFunctions.java:36-39 | the catch block: rollback, then rethrow, with rollback()'s exception replacing the caught one |
| `DatabaseTransactionFunctions.TransactionStart` | src/main/java/de/henninglanghorst/functional/sql/DatabaseTransactionFunctions.java:43-46 | the operation runs with auto-commit off; counts and closed flag are untouched |
| `DatabaseTransactionFunctions.TransactionNotStarted` | src/main/java/de/henninglanghorst/functional/sql/DatabaseTransactionFunctions.java:43-46 | if getAutoCommit or setAutoCommit(false) throws, that exception is the result and nothing else is called |
| `DatabaseTransactionFunctions.TransactionRunsOperation` | src/main/java/de/henninglanghorst/functional/sql/DatabaseTransactionFunctions.java:42-54 | once started, the operation runs after getAutoCommit and, only if auto-commit was on, setAutoCommit(false) |
| `DatabaseTransactionFunctions.TransactionCommits` | src/main/java/de/henninglanghorst/functional/sql/DatabaseTransactionFunctions.java:32-53 | on success: one commit, no rollback, the result unchanged, auto-commit back on if it was on, no setAutoCommit if it was off |
| `DatabaseTransactionFunctions.TransactionRollsBack` | src/main/java/de/henninglanghorst/functional/sql/DatabaseTransactionFunctions.java:32-39 | on failure: one rollback, no commit, the exception rethrown, auto-commit left off |
| `DatabaseTransactionFunctions.TransactionCommitFails` | src/main/java/de/henninglanghorst/functional/sql/DatabaseTransactionFunctions.java:32-39 | if commit throws: rollback once and rethrow the commit's exception; auto-commit left off |
| `DatabaseTransactionFunctions.TransactionLeavesAutoCommitOffAlone` | src/main/java/de/henninglanghorst/functional/sql/DatabaseTransactionFunctions.java:44-51 | with auto-commit initially off, setAutoCommit is never called, on any path |
| `DatabaseTransactionFunctions.RunNeverCloses` | src/main/java/de/henninglanghorst/functional/sql/DatabaseTransactionFunctions.java:26-29 | no operation, transactional or not, calls close() on the connection |
| `DatabaseTransactionFunctions.PreserveAutoCommitNeverCloses` | src/main/java/de/henninglanghorst/functional/sql/DatabaseTransactionFunctions.java:42-54 | preserveAutoCommit does not close the connection |
| `DatabaseTransactionFunctions.PerformWithinTransactionNeverCloses` | src/main/java/de/henninglanghorst/functional/sql/DatabaseTransactionFunctions.java:31-40 | performWithinTransaction does not close the connection |
| `DatabaseTransactionFunctions.Perform` | src/main/java/de/henninglanghorst/functional/sql/DatabaseTransactionFunctions.java:26-29 | applying any operation to a connection does what its reference semantics says |
| `DatabaseTransactionFunctions.PreserveAutoCommitOn` | src/main/java/de/henninglanghorst/functional/sql/DatabaseTransactionFunctions.java:42-54 | the auto-commit handling leaves the connection as its reference semantics says |
| `DatabaseTransactionFunctions.PerformWithinTransactionOn` | src/main/java/de/henninglanghorst/functional/sql/DatabaseTransactionFunctions.java:31-40 | commit or rollback leave the connection as their reference semantics says |
| `DatabaseTransactionFunctions.RollBack` | src/main/java/de/henninglanghorst/functional/sql/DatabaseTransactionFunctions.java:36-39 | the catch block rolls back and rethrows, as its reference semantics says |
| `DatabaseOperationFunctions.InDatabase` | src/main/java/de/henninglanghorst/functional/sql/DatabaseOperationFunctions.java:29-37 | reference semantics of doInDatabase on an obtained connection; stated by `InDatabaseResult` and `InDatabaseClosesOnce` |
| `DatabaseOperationFunctions.InDatabaseResult` | src/main/java/de/henninglanghorst/functional/sql/DatabaseOperationFunctions.java:29-37 | Left iff the operation and close() succeed, with the operation's result; otherwise Right with its exception, or close()'s |
| `DatabaseOperationFunctions.InDatabaseClosesOnce` | src/main/java/de/henninglanghorst/functional/sql/DatabaseOperationFunctions.java:31 | the connection is closed on every path by exactly one close() call, the last call made |
| `DatabaseOperationFunctions.DoInDatabase` | src/main/java/de/henninglanghorst/functional/sql/DatabaseOperationFunctions.java:29-37 | a failed connection factory gives Right with its exception; otherwise the result and connection are as the reference semantics says |
| `DatabaseOperations.PerformListQuery` | src/main/java/de/henninglanghorst/functional/sql/DatabaseOperations.java:57-70 | reference semantics of the legacy performQueryOnConnection; stated by the two `ListQuery` lemmas |
| `DatabaseOperations.ListQueryIsMultipleRowQuery` | src/main/java/de/henninglanghorst/functional/sql/DatabaseOperations.java:52-70 | the list-returning query makes the same calls and has the same outcome as databaseQuery with multipleRowExtraction |
| `DatabaseOperations.ListQueryMapsEveryRow` | src/main/java/de/henninglanghorst/functional/sql/DatabaseOperations.java:57-70 | a successful list query holds every returned row mapped, in row order; none for no rows |
| `DatabaseOperations.PerformListQueryOnConnection` | src/main/java/de/henninglanghorst/functional/sql/DatabaseOperations.java:57-70 | the query with its inline row loop leaves the connection and returns as its reference semantics says |

## Left out

- Errors from `ResultSet.next()` are not modelled, and next() calls are not logged: the cursor only moves.
- Unchecked exceptions are not modelled. A row mapper or a caller's function can throw one, for example a `NullPointerException`. Every failure in the model is an `SQLException`.
  - In Java an unchecked exception still closes the result set, the statement and the connection on its way out.
  - It is not caught by `catch (SQLException e)` in `performWithinTransaction` (DatabaseTransactionFunctions.java line 36), so there is no rollback. Auto-commit is not restored either.
  - It is not caught in `doInDatabase` (DatabaseOperationFunctions.java line 34), so it leaves the runner after the connection is closed and never becomes a `Right`.
- Exceptions that Java attaches to another as suppressed, in try-with-resources, are not modelled. Only the exception that propagates is.
- Use after close is not checked. No JDBC object in the model refuses a call once it is closed.
- What the database does behind the calls is not modelled: SQL, `setObject` conversions, driver behaviour. Each call's outcome comes from the `Backend` oracles.
- Parameters and columns range over a small `Value` type of integers, strings, dates and null, not arbitrary Java objects.
- A caller-written operation is modelled only as `Returning(outcome)`, which makes no JDBC call.
  - A caller's function that uses the connection itself is not modelled.
  - Neither is an extraction other than the two the library provides.
- `Function.andThen` and `curry` are modelled on plain functions. Composing connection operations with `andThen` is not part of `Operation`.
- SqlFunction.Curry: curry defers the call to f until get(), but pure functions in the model cannot observe when f is applied.
- Either.Either.LeftOption / RightOption: when the held value is null, Java's `Optional.of` makes left() and right() throw a NullPointerException (Either.java lines 53 and 110); the model has no null and no such case.
- Either.Either.Handle: consumers are modelled by the value each one produces, not by side effects.
- `hashCode` of `Either` is not modelled, because it depends on `Objects.hash`.
- DatabaseTransactionFunctions.TransactionCommits, TransactionRollsBack, TransactionCommitFails and TransactionLeavesAutoCommitOffAlone require the wrapped operation not to be a `withinTransaction` itself.
  - Nested transactions on one connection have no defined meaning.
  - `Run` still gives nested transactions the code's behaviour, and `RunNeverCloses` covers them.
- Int overflow of the array index in `performUpdatesOnConnection` is not modelled. A list has at most as many factories as an int counts.
- The demo programs, the example `PersonDbFunctions`, the `Person` value classes and the bare `Supplier`/`Consumer`/`BiFunction` interfaces are not part of this model. Suppliers and functions are Dafny function types into `Result`.
- `handleResult` is not modelled. The demo and a test call it, but no `Either` revision in this model has it; `handle` is what is modelled.
