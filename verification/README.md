# Verified model of cpplinq

cpplinq is a C++ library that builds SQL from expression trees and runs it through pools, batches and drivers. This
project models its hardest parts in Dafny and proves what they promise, for all inputs and all runs.

* **The SQL compiler** (`SqlAst`, `SqlGenerator`, `SqlStatements`). `visit` and the statement generators are methods on a
  mutable context that append text, slots and parameters. Each is proved equal to a layout tree (`LayoutTree`), and the
  theorems are about all trees: placeholders and slots agree exactly when nothing with a slot is hidden or swapped
  (`SqlConditions`, `StatementProperties`); PostgreSQL's second pass numbers exactly those placeholders
  (`PlaceholderScanner`); binding slots later equals compiling with the arguments written in (`PreparedQuery`); and a
  tokenizer (`SqlLexer`) and a precedence parser for section 8.12 of SQL-92 read the printed predicate back exactly when
  NOT and NULL tests stand where the grammar has them (`PredicateParser`, `PredicateText`, `PredicateTokens`), with its
  three-valued meaning (`PredicateMeaning`).
* **A reader of finished statements** (`SqlReader`, `SqlTokens`, `StatementRows`, `ClauseReader`, `SelectReader`,
  `SetOperationReader`, `JoinReader`, `InsertReader`, `UpdateReader`, `StatementMeaning`). It cuts the characters into
  tokens, the tokens into clauses at their keywords outside parentheses, and the clauses into their parts, and knows
  nothing of the generators; from any generated statement it gives back every clause the caller asked for.
* **The executor and the pool** (`Executor`, `TaskExecutor`, `ConnectionPool`, `PoolState`, `StopTokens`, `AsyncPool`). Each is a state
  machine over atomic steps with an invariant for every reachable state, and an object whose methods are those steps.
  What became of each job and each connection is read off the actions of the run alone (`ExecutorHistory`, `PoolHistory`).
* **Exact codecs** (`DecimalOrder`, `SqlNumeric`, `NumericStruct`, `NumericForms`, `Interval`, `IntervalText`, `IntervalForms`,
  `Unicode`).
* **Batches** (`CopyWriter`, `CopyReader`, `CopyValues`, `ColumnArrays`, `ColumnTypes`, `Batch`, `BatchContext`,
  `BatchPaths`, `BatchStatements`, `BatchUpdates`) and the **chunked container** (`ChunkedBuffer`).

Dialects are PostgreSQL and SQL Server. Strings are byte strings. Waiting, scheduling, memory, callbacks, failures of
statements and what the database does with a statement are parameters or nondeterministic steps.

Where the code does not meet the plain promise, the model keeps the code and states the exact condition:

* An empty `IN` list over an operand with a parameter, and SQL Server's `DATEADD` with parameters in both operands, leave
  placeholders and slots out of step (`EmptyInListMisaligns`, `SqlServerDateAddMisaligns`, `AlignedIffGuarded`).
* Comparisons, LIKE, BETWEEN and NULL tests print a NOT operand without parentheses, so SQL reads the NOT around the
  whole predicate (`NotOperandIsMisread`, `TextReadsBack`). A NULL test then never keeps its meaning; a comparison of
  truth values keeps it for `=` and `<>` (`MisreadComparisonMeans`, `MisreadNullTestMeans`).
* A pool waiter that leaves for its stop token can take a `notify_one` with it, in two ways and no other; a
  sleeper beside an idle connection then waits until its own timeout
  (`WakeupIsLostIffTaken`, `CancelledWaiterTakesTheWakeup`).
* On the array path a table whose columns are all auto-increment has nothing inserted, and success is reported
  (`PathsAgreeIffColumns`, `AutoIncrementTableGetsNothing`).
* The numeric structure keeps 38 digits after the point and 128 bits (`RoundTripIffFits`); intervals read back only with
  fields that fit an `int` (`DayTextRoundTripIffFits`, `YearTextRoundTripIffFits`).
* A column bound as an array is declared with other types than its values bound one by one for unsigned numbers and for
  times, and numerics with a fixed precision (`ColumnsAgreeIff`).

`dafny verify dfyconfig.toml` checks the project.

## Model

| member | source | states |
|---|---|---|
| Dialects.QuoteIdentifier | src/dialect/postgres_dialect.cpp:7-18 | the loop quotes an identifier of any characters, doubling the quote character (and `]` in SQL Server) |
| Dialects.QuotingIsReversible | src/dialect/postgres_dialect.cpp:7-18 | reading a delimited identifier by the rules of SQL-92 section 5.2 gives back every identifier, whatever follows it |
| SqlStatements.FindOffset | src/sql_generator.cpp:309-313 | searching the printed paging clause for OFFSET is the same as asking which clauses were requested and how the dialect prints them |
| SqlGenerator.Visit | src/sql_generator.cpp:21-219 | the recursive, mutating visit returns the layout's text for the current placeholder count and appends exactly the layout's slots, and to the parameters exactly the static ones |
| SqlGenerator.VisitList | src/sql_generator.cpp:92-104 | the comma loop over list elements leaves text and slots of the list's layout |
| SqlGenerator.VisitWindow | src/sql_generator.cpp:181-216 | the OVER clause, with its PARTITION BY and ORDER BY loops |
| SqlStatements.GenerateCteSelect | src/sql_generator.cpp:221-318 | text, slots and parameters are those of the statement's layout; nothing is generated exactly for SQL Server with a limit of zero |
| SqlStatements.GenerateSetOperation | src/sql_generator.cpp:452-540 | the same for UNION, INTERSECT and EXCEPT chains with their ORDER BY by column or expression |
| SqlStatements.GenerateJoinedSelect | src/sql_generator.cpp:355-424 | the same for joins with qualified columns |
| SqlStatements.GenerateInsert | src/sql_generator.cpp:557-609 | the same for INSERT with DEFAULT VALUES, RETURNING and OUTPUT |
| SqlStatements.GenerateUpdate | src/sql_generator.cpp:630-661 | the same for UPDATE with expression assignments |
| SqlTokens.ExprSpells | src/sql_generator.cpp:21-219 | the text of every expression, of any kind and nesting, is cut into the tokens that SQL writes it with: columns, operators, calls, subqueries, EXTRACT and casts, date arithmetic, and windows with their PARTITION BY and ORDER BY |
| ClauseReader.PageReadsBack | src/dialect/mssql_dialect.cpp:23-38 | the reader of LIMIT, OFFSET and FETCH gives back limit and offset from the tokens of the page in both dialects; where SQL Server is given only a limit it finds the offset zero |
| SelectReader.SelectReadsBack | src/sql_generator.cpp:221-318 | the reader gives back from the characters of a generated SELECT its CTEs, DISTINCT, columns, table, WHERE, GROUP BY, HAVING, sort keys with their directions, limit and offset |
| SetOperationReader.SetOperationReadsBack | src/sql_generator.cpp:452-540 | the same for set operations: each operator with its query, the sort keys and the page |
| JoinReader.JoinReadsBack | src/sql_generator.cpp:355-424 | the same for joins: the qualified columns of each table, each join with its kind, table and condition |
| InsertReader.InsertReadsBack | src/sql_generator.cpp:557-609 | the same for INSERT: table, columns, one placeholder for each value or DEFAULT VALUES, and the key returned or output |
| UpdateReader.UpdateReadsBack | src/sql_generator.cpp:630-661 | the same for UPDATE: table, each assigned column with its expression, and the condition |
| StatementMeaning.SelectMeansItsQuery | src/sql_generator.cpp:221-318 | from characters and slots together: the clauses of a SELECT over predicates, and its expressions in order with their values, if and only if they are well placed |
| StatementMeaning.SetOperationMeansItsQuery | src/sql_generator.cpp:452-540 | the same for set operations, whose sort keys are columns without tables |
| StatementMeaning.JoinMeansItsQuery | src/sql_generator.cpp:355-424 | the same for joins |
| StatementMeaning.UpdateMeansItsQuery | src/sql_generator.cpp:630-661 | the same for UPDATE |
| LayoutTree.AlignedIffStraight | src/sql_generator.cpp:21-219 | over all layouts: the k-th placeholder printed is the one of slot k for all k, if and only if no subtree with slots is hidden and no two are swapped |
| SqlConditions.AlignedIffGuarded | src/sql_generator.cpp:21-219 | for every expression and both dialects: placeholders and slots agree if and only if no empty IN list has an operand with a parameter and no SQL Server date addition has parameters in both operands |
| SqlConditions.SlotsOfShape | src/sql_generator.cpp:30-38 | an expression records a slot exactly when a literal or a parameter occurs in it |
| StatementProperties.SelectAlignedIffGuarded | src/sql_generator.cpp:221-318 | a SELECT with CTEs is aligned if and only if every expression inside is guarded |
| StatementProperties.SetOperationAlignedIffGuarded | src/sql_generator.cpp:452-540 | the same for set operations |
| StatementProperties.JoinAlignedIffGuarded | src/sql_generator.cpp:355-424 | the same for joins |
| StatementProperties.UpdateAlignedIffGuarded | src/sql_generator.cpp:630-661 | the same for updates |
| StatementProperties.EmptyInListMisaligns | src/sql_generator.cpp:85-90 | an empty IN list over a parameter prints no placeholder and records one slot |
| StatementProperties.SqlServerDateAddMisaligns | src/dialect/mssql_dialect.cpp:150-152 | SQL Server's date addition of two parameters prints the second slot's placeholder first |
| PlaceholderScanner.ConvertPlaceholdersToPg | src/driver/postgres_connection.cpp:16-39 | the loop over two quote flags and a counter computes the scan |
| PlaceholderScanner.ScanOfPieces | src/driver/postgres_connection.cpp:16-39 | on generated text the scan replaces the generated placeholders by consecutive numbers and nothing inside an identifier or constant, and ends outside quotes |
| PlaceholderScanner.BothPassesAgree | src/driver/postgres_connection.cpp:16-39 | printing and then scanning puts `$k` exactly where slot k-1 was printed, for every straight layout |
| SqlConditions.GeneratedExpressionReachesPostgres | src/driver/postgres_connection.cpp:16-39 | the same for every guarded expression with plain function names |
| StatementProperties.SelectReachesPostgres | src/sql_generator.cpp:221-318 | the same for a whole generated SELECT, with as many numbers as slots |
| StatementProperties.SetOperationReachesPostgres | src/sql_generator.cpp:452-540 | the same for set operations |
| StatementProperties.JoinReachesPostgres | src/sql_generator.cpp:355-424 | the same for joins |
| StatementProperties.UpdateReachesPostgres | src/sql_generator.cpp:630-661 | the same for updates |
| StatementProperties.InsertReachesPostgres | src/sql_generator.cpp:557-609 | the same for every INSERT, without any guard |
| StatementProperties.InsertBindsItsValues | src/sql_generator.cpp:585-597 | the parameters of an INSERT are its values in order, every slot static, or none when it has no columns |
| PreparedQuery.BindSlots | include/cpplinq/core/prepared_query.h:141-165 | the statement ends bound to the slots' values at their positions if every dynamic slot has an argument; otherwise it stops at the first that has none, the earlier ones bound |
| PreparedQuery.ShapeOfSubstitute | src/sql_generator.cpp:30-38 | the layout of an expression with its parameters replaced by literals is the layout with its slots filled in |
| PreparedQuery.CompileThenBind | include/cpplinq/core/prepared_query.h:141-165 | compiling and then binding gives the text and the value sequence of substituting first and compiling then |
| PreparedQuery.ParamsAreTheStaticValues | src/sql_generator.cpp:30-38 | without parameters, the values recorded while compiling are the values of the slots in order |
| PreparedQuery.PreparedSelectIsDirectSelect | include/cpplinq/core/prepared_query.h:141-165 | a prepared SELECT and the same SELECT generated with its arguments have one text, and the bound values are the direct one's parameters |
| PreparedQuery.PreparedUpdateIsDirectUpdate | include/cpplinq/core/prepared_query.h:141-165 | the same for UPDATE |
| PredicateParser.ParseOfPrinted | src/sql_generator.cpp:39-96 | parsing the printed form of any predicate, by the precedence of SQL-92 section 8.12, gives its reading |
| PredicateParser.ReadsBackIffWellPlaced | src/sql_generator.cpp:63-73 | the reading is the predicate itself if and only if NOT and NULL tests stand only where a condition is expected |
| PredicateText.ParseInvertsGenerate | src/sql_generator.cpp:21-96 | printer and parser round trip on lexemes for columns, literals, parameters, comparisons, AND, OR, NOT, NULL tests, BETWEEN, LIKE and IN lists: the original comes back from lexemes and slots, if and only if it is well placed |
| PredicateTokens.TokenizesPieces | src/sql_generator.cpp:21-96 | the printed text is cut into the tokens of its lexemes, identifiers of any characters included, when no identifier stands right behind another |
| PredicateTokens.TextReadsBack | src/sql_generator.cpp:21-96 | the round trip on characters: what the generator prints, with the slots it recorded, is read as the original if and only if it is well placed |
| PredicateMeaning.TextKeepsMeaning | src/sql_generator.cpp:21-96 | the text of a well-placed predicate has its three-valued meaning for all columns and arguments |
| PredicateMeaning.NotMovesOverEqualityOnly | src/sql_generator.cpp:51-67 | moving NOT from the first operand of a comparison to the whole keeps its value for all truth values if and only if it is `=` or `<>` |
| PredicateMeaning.MisreadComparisonMeans | src/sql_generator.cpp:51-67 | what the text of a comparison of NOT x with y is read as, and that `=` and `<>` of truth values keep their meaning |
| PredicateMeaning.MisreadNullTestMeans | src/sql_generator.cpp:63-73 | the text of a NULL test of NOT x never means it, whatever the truth value of x |
| PredicateText.NotOperandIsMisread | src/sql_generator.cpp:51-73 | a comparison or NULL test of NOT x is read as NOT of the comparison or test of x, for all x |
| Executor.RunKeepsInvariant | include/cpplinq/driver/async_executor.h:87-179 | every run of atomic steps keeps the executor's invariant |
| Executor.NoJobWaitsBesideASleeper | include/cpplinq/driver/async_executor.h:88-124 | in every reachable state before shutdown: if a worker sleeps, the queue is no longer than the notifications pending plus the workers woken; so with no wakeup on its way a queued job means that every worker is running one |
| Executor.ExactlyOnce | include/cpplinq/driver/async_executor.h:35-60 | in every reachable state a submitted job is rejected, queued, running, finished or cancelled, exactly one of them, on one worker at most, and its promise is settled at most once, exactly when the job is at rest |
| Executor.StartsInOrder | include/cpplinq/driver/async_executor.h:152-171 | the started jobs are the first accepted ones in order of submission, the queue keeps to its capacity and the workers to their number |
| Executor.NothingAfterStop | include/cpplinq/driver/async_executor.h:126-133 | once shutdown has taken the queue no job is ever queued, started or dropped |
| Executor.EveryRunEnds | include/cpplinq/driver/async_executor.h:152-171 | no run of the executor's own steps is longer than a computed measure, spurious wakeups before shutdown aside |
| Executor.RestIsSettled | include/cpplinq/driver/async_executor.h:152-171 | when no step is left the queue is empty, nothing runs and every promise is settled |
| Executor.ShutdownTerminates | include/cpplinq/driver/async_executor.h:126-149 | from the start of shutdown until it returns there are at most as many steps as the measure says, whoever takes them, and it is never stuck |
| Executor.ShutdownQuiesces | include/cpplinq/driver/async_executor.h:126-149 | no worker is left asleep after `notify_all`; when shutdown returns all have exited and every future is settled |
| ExecutorHistory.OutcomeOfRun | include/cpplinq/driver/async_executor.h:35-138 | over every run, from its actions alone: a job's promise holds a value if and only if a worker running it finished normally, an exception if and only if it threw, a rejection for a reason if and only if that reason held when it was submitted, cancelled if and only if shutdown took it; it is accepted if and only if there was no stop, room, and a thread |
| TaskExecutor.BoundedTaskExecutor.SubmitLocked | include/cpplinq/driver/async_executor.h:88-124 | the object's lock region is the submit step: reject when stopping or full or without threads, else start workers and queue |
| TaskExecutor.BoundedTaskExecutor.StartWorkersLocked | include/cpplinq/driver/async_executor.h:173-179 | the loop starts the missing workers, or as many as the system allows |
| TaskExecutor.BoundedTaskExecutor.NextJob | include/cpplinq/driver/async_executor.h:152-169 | the worker's lock region is the check step: sleep, leave, or take the front job |
| TaskExecutor.BoundedTaskExecutor.NotifyOneSleeper | include/cpplinq/driver/async_executor.h:122-122 | after the lock region one sleeper is woken, or nobody when nobody sleeps |
| TaskExecutor.BoundedTaskExecutor.RunJob | include/cpplinq/driver/async_executor.h:35-46 | a callback's value or exception settles the promise of the job the worker runs, and the worker is free again |
| TaskExecutor.BoundedTaskExecutor.TakeQueue | include/cpplinq/driver/async_executor.h:127-133 | the flag is set and the queue swapped out in one step |
| TaskExecutor.BoundedTaskExecutor.CancelTaken | include/cpplinq/driver/async_executor.h:135-137 | the loop is the run of one cancel step for each job taken |
| TaskExecutor.CancelsSettleTheTaken | include/cpplinq/driver/async_executor.h:135-137 | that run settles each taken job once and touches nothing else |
| TaskExecutor.BoundedTaskExecutor.WakeAll | include/cpplinq/driver/async_executor.h:138-138 | every sleeper is woken and nobody else is changed |
| ConnectionPool.Clamp | include/cpplinq/driver/connection_pool.h:38-54 | a clamped configuration has minimum and workers within a positive maximum and is unchanged exactly if it had |
| ConnectionPool.RunKeepsInvariant | include/cpplinq/driver/connection_pool.h:93-128 | every run of pool steps keeps conservation, exclusive leases, one role for each caller and an empty closed pool |
| ConnectionPool.ConnectionsAreConserved | include/cpplinq/driver/connection_pool.h:249-267 | in every reachable state the counter is idle plus leased plus being made and within the maximum; a connection is idle once or held by one lease; after close it reaches 0 exactly with the last lease and creation |
| ConnectionPool.CounterNeverUnderflows | include/cpplinq/driver/connection_pool.h:261-265 | every decrement finds something counted, also after a creation that fails outside the mutex |
| ConnectionPool.LastBranchIsDead | include/cpplinq/driver/connection_pool.h:249-269 | the throw at the end of `acquire` is unreachable, and a timeout is reported exactly when time is up and the wait predicate is false |
| ConnectionPool.ClosedPoolDrains | include/cpplinq/driver/connection_pool.h:93-128 | after close nothing becomes idle, and over any run the counter falls by exactly one with each return or failed creation |
| ConnectionPool.NewPoolLosesNoWakeup | include/cpplinq/driver/connection_pool.h:224-253 | over every run of a new pool without stop requests, spare connections never outnumber the woken waiters while others sleep |
| PoolHistory.DiscardedNeverComesBack | include/cpplinq/driver/connection_pool.h:110-128 | over every run of a new pool: a connection that a step gave back broken, or to a closed pool, is never idle or leased afterwards, and no later answer hands it out |
| PoolHistory.OpenOnesReturnToThePool | include/cpplinq/driver/connection_pool.h:110-128 | one given back open to a pool no action has closed is idle right after that step |
| PoolHistory.AnswersFollowTheRun | include/cpplinq/driver/connection_pool.h:230-267 | a caller is given an idle connection if and only if there is one, may make one if and only if there is none and room, on a pool no action has closed and without a stop; he is told the pool is closed only if it was, and sleeps only on a full one |
| StopTokens.StepProjects | include/cpplinq/driver/connection_pool.h:213-239 | every step with tokens, callbacks included, is a run of the pool's own steps |
| StopTokens.NoTokensNoLoss | include/cpplinq/driver/connection_pool.h:217-239 | over every run in which nobody registers a stop callback no wakeup is lost |
| StopTokens.WakeupIsLostIffTaken | include/cpplinq/driver/connection_pool.h:217-239 | while anyone sleeps beside a spare connection a woken waiter or a pending callback is on its way; a step ends that if and only if a needed waiter leaves for its token with no callback pending, or the last needed callback is deregistered |
| StopTokens.CancelledWaiterTakesTheWakeup | include/cpplinq/driver/connection_pool.h:217-239 | a run of a new pool of one connection, in which a token fires and notifies between a caller's predicate and its sleep, ends with an idle connection, a waiter asleep until its timeout, and neither wakeup nor callback on its way |
| PoolState.ConnectionPoolState.Initialize | include/cpplinq/driver/connection_pool.h:329-341 | the first connections enter the pool together, or none does if one cannot be made |
| PoolState.ConnectionPoolState.Acquire | include/cpplinq/driver/connection_pool.h:213-267 | a token that has fired is answered without the mutex and without a change; otherwise the first lock region is the arrival step with its decision |
| PoolState.ConnectionPoolState.Resume | include/cpplinq/driver/connection_pool.h:230-267 | a woken or timed-out caller's region is the recheck step |
| PoolState.ConnectionPoolState.GiveUpCreation | include/cpplinq/driver/connection_pool.h:261-266 | the catch block is the failed creation step |
| PoolState.ConnectionPoolState.ReturnConnection | include/cpplinq/driver/connection_pool.h:110-128 | a returned connection becomes idle, or is dropped when it or the pool is closed, and closed by the caller exactly in the latter case |
| PoolState.ConnectionPoolState.CloseIdle | include/cpplinq/driver/connection_pool.h:93-108 | the idle connections are taken for closing and uncounted; a second close does nothing |
| AsyncPool.AvailableToJob | include/cpplinq/driver/connection_pool.h:47-50 | when only jobs use the pool, a job without a connection finds one idle or room for one |
| AsyncPool.JobsNeverWait | include/cpplinq/driver/connection_pool.h:435-486 | over every run of pool and executor together no job waits: on an open pool `acquire` reuses or creates at once |
| AsyncPool.ClosingLeavesNothing | include/cpplinq/driver/connection_pool.h:409-413 | when the executor of a closed pool has shut down no connection is left or counted and every promise is settled |
| DecimalOrder.LexicographicIsNumeric | include/cpplinq/mapping/data_types.h:370-383 | character order is numeric order for digit strings of one length and for fractions without trailing zeros |
| DecimalOrder.WholeOrderIsNumeric | include/cpplinq/mapping/data_types.h:367-372 | length and then character order is numeric order for integers without leading zeros |
| SqlNumeric.AssignString | include/cpplinq/mapping/data_types.h:386-444 | the loops store what the specification says, blanks, signs, zero and garbage included |
| SqlNumeric.AssignKeepsDigits | include/cpplinq/mapping/data_types.h:386-444 | a written decimal is stored with its digits and point, and a minus sign exactly if it is negative and not zero |
| SqlNumeric.CompareMagnitudes | include/cpplinq/mapping/data_types.h:348-384 | the trimming and comparing loops compute the order of magnitudes |
| SqlNumeric.OrderIsExact | include/cpplinq/mapping/data_types.h:308-332 | the comparison of any two written decimals is the comparison of the real numbers they denote |
| SqlNumeric.OrderIsTotal | include/cpplinq/mapping/data_types.h:308-336 | equality is equality of values and the order is total |
| NumericStruct.MultiplyAdd | src/driver/odbc_utils.h:202-206 | the byte loop computes ten times the number plus the digit, modulo two to the width |
| NumericStruct.DivideByTen | src/driver/odbc_utils.h:123-130 | the byte loop leaves the quotient by ten and returns the remainder, and reports zero exactly when the quotient is |
| NumericStruct.DecimalDigits | src/driver/odbc_utils.h:121-134 | repeated division ends, with exactly the decimal digits |
| NumericStruct.NumericStructToString | src/driver/odbc_utils.h:108-150 | the text is the number's digits placed by scale and sign |
| NumericStruct.StoreDigits | src/driver/odbc_utils.h:198-208 | the bytes hold the digit string's value modulo 2^128 |
| NumericStruct.StringToNumericStruct | src/driver/odbc_utils.h:152-210 | sign, scale, precision and bytes for any text and default scale |
| NumericStruct.StoresTheDigits | src/driver/odbc_utils.h:169-208 | a written decimal is stored with the digits it keeps, and 38 digits are below 2^128 |
| NumericStruct.PrintDenotes | src/driver/odbc_utils.h:116-149 | the text printed denotes the number in units of its scale |
| NumericStruct.RoundTripIffFits | src/driver/odbc_utils.h:108-210 | text to structure to text stays equal under the numeric order if and only if the digits after the 38th are zero and the digits kept are below 2^128; with 38 digits in all it always does |
| NumericForms.ScaledDenotes | src/driver/odbc_utils.h:169-192 | with a default scale the structure has that scale, and its number is the written one in units of it, cut towards zero (past 38 digits, after the 38th) |
| NumericForms.PrecisionIsLeast | src/driver/odbc_utils.h:194-197 | the precision is the least that holds the number's digits and its scale, or 38 |
| NumericForms.NegativeScaleDenotes | src/driver/odbc_utils.h:143-145 | at a scale below zero the text denotes the number times that power of ten |
| Interval.DurationRoundTrip | include/cpplinq/mapping/data_types.h:802-848 | every int64 count of nanoseconds survives, -2^63 included, with all fields in range |
| Interval.IntervalRoundTripIffNormal | include/cpplinq/mapping/data_types.h:802-848 | an interval survives the way to a duration and back if and only if its fields are in range, it is no negative zero and its length fits |
| IntervalText.FromString | include/cpplinq/mapping/data_types.h:868-948 | the parser's branches and loops compute the specified parse of any text |
| IntervalText.DayTextRoundTripIffFits | include/cpplinq/mapping/data_types.h:850-948 | a day-to-second interval reads back from its text if and only if its fields are ints and its fraction is below 10^9 |
| IntervalText.YearTextRoundTripIffFits | include/cpplinq/mapping/data_types.h:850-948 | a year-to-month interval reads back if and only if both parts are ints |
| IntervalForms.FractionDenotes | include/cpplinq/mapping/data_types.h:880-897 | a fraction of any number of digits is read as the whole nanoseconds in it |
| IntervalForms.TimeAlone | include/cpplinq/mapping/data_types.h:936-945 | any written hours, minutes, seconds and fraction, with any sign, are read as those fields and no days, or as nothing if one is no int |
| IntervalForms.DaysAndTime | include/cpplinq/mapping/data_types.h:908-922 | the same with days and the word `day` or `days` before it; days too large are cut to the largest int |
| IntervalForms.DaysBlankTime | include/cpplinq/mapping/data_types.h:926-935 | the same with days and a blank, where all is read or nothing |
| Unicode.WstringToUtf8 | include/cpplinq/mapping/data_types.h:64-84 | the loop appends the encoding of each character |
| Unicode.Utf8ToWstring | include/cpplinq/mapping/data_types.h:97-121 | the decoder ends on arbitrary bytes, stays inside them, and computes the specified decoding |
| Unicode.Utf8RoundTrip | include/cpplinq/mapping/data_types.h:63-121 | decoding inverts encoding for every sequence of code points up to 0x10FFFF (section 3 of RFC 3629) |
| Unicode.WstringToSqlwchar | src/driver/odbc_utils.h:87-102 | the loop appends the units of each character and a final zero |
| Unicode.SqlwcharToWstring | src/driver/odbc_utils.h:61-85 | the loop reads pairs, single units, and stops at a zero |
| Unicode.Utf16RoundTrip | src/driver/odbc_utils.h:61-102 | reading inverts writing for every NUL-free text of scalar values, with or without the final zero (section 2 of RFC 2781) |
| Unicode.Utf16RoundTripIffReadable | src/driver/odbc_utils.h:61-102 | for arbitrary characters it does so if and only if there is no NUL and no high surrogate followed by a low one |
| CopyWriter.AppendCopyEscaped | src/driver/postgres_connection.cpp:536-544 | the loop appends the escaped text |
| CopyWriter.AppendValue | src/driver/postgres_connection.cpp:576-607 | every kind of value is appended as the escape of its meaning, numbers and blobs without the escaper, NULL as `\N` |
| CopyWriter.CopyRows | src/driver/postgres_connection.cpp:569-645 | the buffers of the rows are sent in order, all of them or as many as the connection takes; they join to the stream of the rows whatever the flush points, and none is empty; success is reported exactly if all are taken and the end of the copy is accepted |
| CopyReader.FieldRoundTrip | src/driver/postgres_connection.cpp:536-607 | a field ends where it was ended and reads as what was written, NULL never as a string nor `\N` as NULL |
| CopyReader.CopyRoundTrip | src/driver/postgres_connection.cpp:569-631 | the server's rules for COPY text format read every row and column back from the stream |
| CopyReader.BulkInsertArrives | src/driver/postgres_connection.cpp:546-631 | what the server reads at row r and column c is the meaning of the flat value r * columns + c |
| CopyValues.MeaningDenotes | src/driver/postgres_connection.cpp:576-607 | the text written for a value is read as the value by independent readers: signed decimals, `t` and `f`, hexadecimal bytes, UTF-8 |
| CopyValues.BulkInsertDelivers | src/driver/postgres_connection.cpp:546-631 | of all rows sent, the field the server reads at row r and column c is read as the flat value r * columns + c, and is NULL exactly for NULL |
| ColumnArrays.PassOne | src/driver/odbc_utils.h:421-562 | the loop over a column settles type, stride and buffers as specified |
| ColumnArrays.WidestCoversAll | src/driver/odbc_utils.h:428-476 | what pass 1 settles is enough for every value of a homogeneous column, large unsigned numbers turning it to text in whatever order they come |
| ColumnArrays.CoveredFits | src/driver/odbc_utils.h:483-561 | each such value then fits its row, a uint64 as text too |
| ColumnArrays.PutReads | src/driver/odbc_utils.h:564-638 | a cell written in pass 2 reads as the value ODBC carries |
| ColumnArrays.PutSpares | src/driver/odbc_utils.h:564-638 | writing a cell stays inside its row: every other cell reads as before |
| ColumnArrays.FillColumns | src/driver/odbc_utils.h:421-638 | after both passes every cell reads as what binding its row would have bound |
| ColumnTypes.ColumnsAgreeIff | src/driver/odbc_connection.cpp:556-745 | a column is declared with the types and digits of its values bound one by one, and the least size that covers theirs, if and only if it holds no unsigned numbers or times; a numeric one has 28 digits, 6 after the point, which is a value's own declaration exactly for that precision and scale |
| ColumnTypes.UnsignedColumn | src/driver/odbc_utils.h:433-442 | unsigned numbers are declared as a text of 24 characters if one is beyond int64, and else as a big integer |
| Batch.GuardIsExact | src/driver/connection.cpp:41-44 | the guard by division refuses exactly the values that are too few, so every flat index is in range |
| Batch.Connection.InsertManyBatch | src/driver/connection.cpp:35-55 | the generic loop binds each flat row at its positions and executes it once: table and count are those of the run over the rows; a failure is reported exactly when that run fails, with exactly the rows before the failing one executed |
| Batch.Connection.InsertBatch | include/cpplinq/driver/connection.h:150-155 | the virtual call leaves what the driver's own batch leaves, or the generic loop |
| Batch.RunInParts | include/cpplinq/core/db_context.h:166-183 | a run over rows may be cut into chunks anywhere |
| Batch.Transaction.Commit | include/cpplinq/driver/connection.h:171-176 | the guard commits once, and stays open when the commit fails |
| Batch.Transaction.Destroy | include/cpplinq/driver/connection.h:177-177 | what was not committed is rolled back to the state at the beginning; a rollback that throws is swallowed and leaves the transaction open, and the database keeps what it had before |
| BatchContext.ValuesMeetTheirPlaceholders | include/cpplinq/core/db_context.h:330-354 | within the keys and within the other columns, every value bound is the entity's value of the column listed at its place |
| BatchStatements.InsertManyBindsEntities | include/cpplinq/core/db_context.h:151-181 | the statement generated once with dummy values is the statement of every entity, and the row bound is that statement's own parameter list, each value at the placeholder of its column, as the reader finds them in the text |
| BatchUpdates.GenerateUpdateMany | include/cpplinq/core/db_context.h:330-354 | the loops over columns print the update with a placeholder for each column to set and then for each key |
| BatchUpdates.UpdateManyReadsBack | include/cpplinq/core/db_context.h:344-354 | the reader finds in that text the table, the columns set, the columns of the condition, and the columns its placeholders stand beside, in order |
| BatchUpdates.UpdateManyBindsEntities | include/cpplinq/core/db_context.h:344-392 | over the whole row: the value bound to the p-th placeholder of the text is the entity's value of the column named beside it, first the columns set, which are no keys, and then the keys |
| BatchContext.FlatRoundTrip | include/cpplinq/core/db_context.h:171-181 | the flat values read row by row are the rows |
| BatchContext.ChunkLands | include/cpplinq/core/db_context.h:166-183 | one chunk through a faithful batch leaves the table of the run over its rows |
| BatchContext.RunChunks | include/cpplinq/core/db_context.h:360-392 | for any chunk size and any faithful batch the chunks execute every entity once and in order: the table is that of one run over all rows |
| BatchPaths.CopyLands | src/driver/postgres_connection.cpp:546-647 | COPY is a faithful batch when the server converts a row's text as it converts the bound row |
| BatchPaths.CopyBatch | src/driver/postgres_connection.cpp:569-647 | what is written, flushed, sent, read and inserted is that batch exactly if the connection takes all buffers and the end of the copy is accepted; otherwise nothing lands |
| BatchPaths.ArraysLand | src/driver/odbc_utils.h:421-638 | ODBC parameter arrays are a faithful batch when executing a row's cells does what executing the bound row does |
| BatchPaths.ArrayBatch | src/driver/odbc_utils.h:421-638 | filling the arrays in two passes and reading them row by row is that batch |
| BatchContext.RunRows | include/cpplinq/core/db_context.h:397-420 | the row loop does the same |
| BatchContext.ExecuteMany | include/cpplinq/core/db_context.h:142-217 | inserting or updating many leaves the database with all effects of the row loop, or as it was, even when the rollback fails, with the generic or any faithful batch; an update without a key is refused |
| BatchContext.PathsAgreeIffColumns | include/cpplinq/core/db_context.h:151-215 | result and table are the same by arrays as row by row, for every statement, table and commit, if and only if there is nothing to do, it is an update, or there is a column to write; otherwise arrays report success and write nothing where the loop writes every entity |
| BatchContext.AutoIncrementTableGetsNothing | include/cpplinq/core/db_context.h:151-185 | with one auto-increment column and one entity the row loop inserts a row and the array path none |
| BatchContext.StatementsCover | include/cpplinq/core/db_context.h:257-298 | the statements of either path hold every key once and in order |
| BatchContext.DeletesTogether | include/cpplinq/core/db_context.h:252-282 | however the keys are spread over statements that succeed, the rows gone and counted are those of deleting all keys at once, duplicates counted once |
| BatchContext.DeleteMany | include/cpplinq/core/db_context.h:219-317 | by array binding or by lists in chunks, the rows with these keys are gone and counted exactly if every statement and the commit succeed; otherwise nothing has changed |
| ChunkedBuffer.ContentsAt | include/cpplinq/core/chunked_buffer.h:203-213 | element i of the sequence is in cell i mod size of chunk i div size, and is alive |
| ChunkedBuffer.ChunkedBuffer.EmplaceBack | include/cpplinq/core/chunked_buffer.h:174-184 | the element is appended by one constructor in a raw cell; without memory or with a constructor that throws nothing is constructed, the sequence is unchanged and the counters still agree |
| ChunkedBuffer.ChunkedBuffer.Get | include/cpplinq/core/chunked_buffer.h:203-213 | indexing agrees with the sequence |
| ChunkedBuffer.ChunkedBuffer.At | include/cpplinq/core/chunked_buffer.h:215-227 | the checked access fails exactly out of range |
| ChunkedBuffer.ChunkedBuffer.Back | include/cpplinq/core/chunked_buffer.h:237-249 | the last element, or the exception when empty |
| ChunkedBuffer.ChunkedBuffer.ToVector | include/cpplinq/core/chunked_buffer.h:302-314 | all elements in order |
| ChunkedBuffer.ChunkedBuffer.MoveToVector | include/cpplinq/core/chunked_buffer.h:317-330 | all elements in order; their cells are raw afterwards, and one destructor has run for each |
| ChunkedBuffer.ChunkedBuffer.ForEachChunk | include/cpplinq/core/chunked_buffer.h:333-351 | the pieces are not empty, no longer than a chunk, and join to the sequence |
| ChunkedBuffer.ChunkedBuffer.Clear | include/cpplinq/core/chunked_buffer.h:353-365 | the destructor runs once on each element, in order, on nothing else, and leaves every cell raw |
| ChunkedBuffer.ChunkedBuffer.MoveFrom | include/cpplinq/core/chunked_buffer.h:153-160 | the chunks, the sequence and the record of constructions and destructions change hands, and the other buffer is empty |
| ChunkedBuffer.ChunkedBuffer.Assign | include/cpplinq/core/chunked_buffer.h:162-172 | the old elements are destroyed and their cells raw, the others and their record are taken over; self-assignment does nothing |
| ChunkedBuffer.RunAll | include/cpplinq/core/chunked_buffer.h:144-184 | any run of emplacements, failed ones, clears, moves out, move assignments, self-assignments and move constructions on two real buffers: their sequences are those of the run, and each value constructed is in one of them or was destroyed once |
| ChunkedBuffer.NothingLeaks | include/cpplinq/core/chunked_buffer.h:146-148 | after such a run and the end of both buffers the destructors have run for exactly the values the constructors ran for |

## Left out

- The SQLite, MySQL, Informix and Oracle dialects: they print other quotes and functions but add no new rule.
- DELETE, COUNT, aggregate, CREATE TABLE and upsert text, and the second `generate_update` that binds plain values: simpler than the statements modelled.
- The SQL text of the batched delete: only which column each placeholder stands for is modelled.
- Expressions outside the predicates (calls, subqueries, dates, windows) are tied to the tokens SQL writes them with, and not parsed back into trees.
- Names of functions that are no words or that head a clause, and join words other than INNER JOIN and LEFT JOIN, which the query builder does not use: reading back is not stated of those.
- The COPY statement itself, which the driver cuts out of the INSERT text.
- The Oracle branch of the single-row binder, which sends integers as text.
- The meaning of SQL beyond predicates, such as the precedence of set operations, is the vendors'.
- Overflow of the `int` that counts placeholders in the scanner.
- Real threads, clocks and fairness: timeouts and spurious wakeups are steps that may happen at any time (endless spurious wakeups of an idle executor are not counted as work); callbacks are assumed to terminate and not to submit to or shut down their own executor, so detaching the calling worker is not modelled.
- Tokens shared by several callers, which fire for each of them in turn.
- Nested acquisitions by a job's callback: the composed pool and executor let a job hold one connection at a time.
- The difference in error reports between `acquire` and `try_acquire`: both have the same steps, one throws where the other returns nothing.
- A connection's own `open` and `close`, beyond whether a creation fails and whether a returned connection is open.
- Doubles, dates, times and timestamps as text: their formats are parameters; a double's text is assumed free of the characters COPY escapes.
- `to_duration` of intervals with years or months, which goes through calendar averages of the C++ library, and other duration types than nanoseconds.
- IntervalText.FromString: for a text of blanks only the code looks at the first character of an empty string, whose value no standard gives; the model gives the default interval.
- Windows branches of the Unicode conversions.
- Columns of mixed types in the array binder, and `SQLBindParameter` itself.
- A `prepare` or `begin` that fails: nothing has been executed by then.
- Iterators of the chunked buffer, which are indices, and alignment of its storage.
- ChunkedBuffer.ChunkedBuffer.MoveToVector: does not model the value of a moved-from element, which is recorded as destroyed under the value it was constructed with.
- BatchContext.RunChunks: does not tie the count to the rows with a driver's own batch, because several report the number of rows they were given.
- The MySQL driver's own batch, which writes the rows as literals that its client library escapes.
