# exOdbc: a verified model

exOdbc is a C++ library over the ODBC driver. This project models the parts of it that keep state and
proves what they promise. The driver appears as a small state (allocated handles, bindings per statement,
the autocommit attribute, pending and committed work) whose calls return anything the ODBC
Programmer's Reference allows; everything the library does to its own state follows its code.

The files, by topic:

* Binding and lifetime. `BindingSpec` gives the two-way relation between statement handles, column buffers
  and the driver as a value, with the invariant every run keeps; `Binding` is the same protocol imperatively
  (`SqlHandle`'s signals, `ColumnBindable`'s two connection maps and its destructor), each method proved equal
  to its step; `Statement` is the class `ExecutableStatement` on top of it.
* `Table`. `TableColumns`, `TableBuffers` and `TableAuto` are `m_columns` with its flags; `SqlBuilder` holds the
  loops that build SQL text; `TableStatements` allocates, resets and frees the five statements; `TableBinding`
  and `TableOpen` bind them; `TablePrepare` is the middle of `Open`, and `TableCondition` says when it succeeds and what it leaves, apart from the steps;
  `Table` is the class; `TableMarkers` shows that texts and bindings of an open table agree; `TableRuns` follows a
  table through any calls of its member functions.
* `Transactions` and `Database`: the cached commit mode against the driver's autocommit attribute.
* `HandleSpec` and `Handles`: allocating and freeing environment, connection and statement handles with any
  return code, and the order in which destructors release them.
* Algorithms: `WordWrap`, `PatternEscape`, `DisplaySize` (on `Decimal`), `ColumnValue`, `Timestamp`, `Flags`, `Text`.

The main results, each for every input, run or return code:

* the relation between handles, buffers and driver in every run (`BindingSpec.EveryRunKeepsInv`), and what a buffer's
  destructor makes of it whichever unbindings fail (`DestroyedMeaning`, `Memory.DestroyBuffer`);
* `Table.Open` is all or nothing, succeeds exactly on the condition of `TableCondition.WillOpenIff`, and whichever way it
  ends `Aftermath` says what becomes of columns, flags and buffers; `Close` frees every handle once; a run keeps `isOpen` truthful and
  leaks no handle (`TableRuns.Run`, `RunLeaksNothing`); statements, texts, markers and bindings of an
  open table are what its flags ask for (`TableMarkers.OpenTableMatches`), and when they stop to (`ReplacedColumnsMatchIff`);
* cached commit mode, committed, rolled back and pending work in every run (`Transactions.EveryRun`); parents and children in every run:
  whatever the driver returns, a handle is released while another is allocated under it only if a destructor's
  attempt to release that one was refused before (`HandleSpec.EveryRunKeepsInv`);
* the wrap is minimal (`WrapIsMinimal`), escaping is faithful exactly if the escape does not occur
  (`EscapeFaithfulIff`), and every value of a column comes back from the buffer made for it (`StoreAndRead`).

How the model is built. Handle objects and buffers refer to each other, so the fields of all of them are kept
in one object, a map per field (`Binding.Memory`, `TableBuffers.FlagMemory`, `Handles.HandleMemory`). An exception is a
`false` result. What the driver or the catalog answers is either a parameter or chosen arbitrarily. With
`Memory.reliable` no call of the driver fails; with `Memory.unbinds` SQLFreeStmt does not, and any other call may.
`kept` parameters name the buffers to which the caller still has a `shared_ptr`. `Table.intact` is the claim that a
closed table has nothing initialised and an open one exactly what it should have; it is given up only when freeing
the statements failed with something bound, or when `CreateAutoColumnBufferPtrs` replaced the columns of an open table.

Where the code differs from its comments, or from what one would expect, the code is modelled:

* `SqlHandle::Free` nulls the handle before it fires the signals, so no slot finds its entry; the binding relation
  survives a Free by hand exactly when nothing is bound (`FreedByHandIff`).
* Binding with SQL_SUCCESS_WITH_INFO throws after the driver has bound the buffer, and the buffer then has no entry:
  the one way in which a bind leaves the driver with a buffer that will not unbind itself (`BoundKeepsInv`).
* `ExecutableStatement::Reset` leaves `m_isPrepared` set, and `Init` leaves `m_pDb` set when allocating fails.
* The WHERE list by key is joined with ", ", so it is treated as a list of columns and markers, not as a condition.
* CF_NULLABLE leaks from a nullable column to all later ones (`NullableLeakIff` says when every flag is right).
* `CheckSqlTypes` with skipping may drop a key column, and the WHERE list is then shorter than the key (`OutcomeHasKeys`).
* An Open that fails may leave key flags set, columns of unsupported types dropped, and the table's name known (`Aftermath`).
* A handle whose release a destructor is refused with SQL_ERROR stays allocated for good, and may outlive its connection
  (`StatementOutlivesConnection`).
* `m_autoCreatedColumns` is never set back, so later columns set by hand go when the table is closed.
* `Table::CreateAutoColumnBufferPtrs` may be called on an open table and may replace its columns. The statements stay bound
  to the old ones, or lose their bindings when one of the old buffers goes; the select list agrees with what is bound only
  if no new column is selected and nothing stays bound (`ReplacedColumnsMatchIff`; `ReplaceColumnsOfOpenTable` is a case).
* `SetCommitMode(UNKNOWN)` switches autocommit on but caches UNKNOWN; and `Close` rolls back only when MANUAL is
  cached (`Transactions.SetModeAgreesIff`, `CloseLosesIff`).
* The size for REAL has room for 8 significant digits in scientific notation, one less than a REAL can need; that for DOUBLE
  has room for the 17 it can need (`FloatTextFitsIff`).
* `SetValue` with SQL_NTS needs a non-empty vector, so `SetString("")` fails (`SetGetRoundTrip`).
* An escape character that occurs in the input is not escaped itself (`EscapeFaithfulIff`). A pattern that ends in a
  lone escape character, which ODBC leaves undefined, is taken to match nothing.

## Model

| member | source | states |
|---|---|---|
| Flags.FlagsAreIndependent | include/exodbc/EnumFlags.h:43-160 | the flags of a kind are different, and setting or clearing one bears on the test of no other |
| BindingSpec.OneSlotPerEntry | include/exodbc/ColumnBuffer.h:289-306 | a buffer has a map entry for a statement exactly when the statement has a slot for it, and never two slots |
| BindingSpec.BoundKeepsInv | include/exodbc/ColumnBuffer.h:289-329 | binding or rebinding keeps the relation for every return code; bindings stay tracked unless the driver answers with information to a buffer without entry, and not then |
| BindingSpec.NotifiedIsUnbound | include/exodbc/ColumnBuffer.h:251-275 | when all listeners have reacted to the signal, exactly this statement's slots, entries and ownerships of this kind are gone |
| BindingSpec.FreeStmtKeepsInv | include/exodbc/SqlHandle.h:218-245 | ResetParams and UnbindColumns keep the relation, whether SQLFreeStmt succeeds or not |
| BindingSpec.FreedByHandIff | include/exodbc/SqlHandle.h:175-211 | a Free by hand keeps the relation if and only if no slot is connected to the handle, and always keeps the driver's bindings tracked |
| BindingSpec.DestroyedMeaning | include/exodbc/ColumnBuffer.h:214-245 | after a buffer's destruction no statement mentions it, and other buffers have lost exactly their entries for the statements that were unbound |
| BindingSpec.DestroyedKeepsInv | include/exodbc/ColumnBuffer.h:214-245 | destroying a buffer bound to any number of statements keeps the relation, whichever calls of SQLFreeStmt fail |
| BindingSpec.DestroyedTrackedIff | include/exodbc/ColumnBuffer.h:214-245 | after it the driver holds no buffer that is gone, exactly when no call that failed was for a statement to which this buffer was bound and which someone keeps owning: neither this buffer nor an entry that is unbound; all of it over the state before |
| BindingSpec.SurvivesIff | include/exodbc/ColumnBuffer.h:214-245 | a statement the buffer was bound to outlives it if and only if it has an owner that is neither this buffer nor an entry that the destruction removes |
| BindingSpec.DestroyedBound | include/exodbc/ColumnBuffer.h:214-245 | the driver keeps exactly the bindings of statements that were not unbound and did not die |
| BindingSpec.EveryRunKeepsInv | include/exodbc/ColumnBuffer.h:214-333 | in every run of creating, binding, unbinding, releasing, destroying, and freeing by hand what is unbound, the relation holds; and every bound buffer is alive with an entry unless one of two named events has happened |
| Binding.Memory.Bind | include/exodbc/ColumnBuffer.h:289-329 | the imperative bind is the specified step for every return code |
| Binding.Memory.Notify | include/exodbc/SqlHandle.h:218-245 | firing the signal has every listener react, although the slots disconnect themselves meanwhile |
| Binding.Memory.FreeStmt | include/exodbc/SqlHandle.h:218-245 | ResetParams and UnbindColumns are the specified step |
| Binding.Memory.Collect | include/exodbc/SqlHandle.h:97-110 | every handle object without owner is destroyed and its native handle freed once |
| Binding.Memory.DestroyBuffer | include/exodbc/ColumnBuffer.h:214-245 | the destructor, parameters before columns, disconnecting before each unbind, is the specified step; where SQLFreeStmt does not fail, nothing stays bound |
| Statement.ResetDestroys | src/ExecutableStatement.cpp:112-126 | after Reset no buffer has an entry for the handle, the handle object is gone, the native handle has been freed exactly once more, and other statements are as before |
| Statement.AllocatedAndDropped | src/ExecutableStatement.cpp:89-109 | a statement that is allocated and let go again leaves no trace but one freed handle |
| Statement.ExecutableStatement.Init | src/ExecutableStatement.cpp:89-109 | fails without effect when initialised already; on success a fresh handle with nothing bound; on failure no handle, though m_pDb may be set |
| Statement.ExecutableStatement.Reset | src/ExecutableStatement.cpp:112-126 | success means as constructed but for the prepared flag; a failing unbind leaves the statement with its handle |
| Statement.ExecutableStatement.Destroy | src/ExecutableStatement.cpp:60-86 | unbinds what was bound, all of it where SQLFreeStmt does not fail, lets the handle object go, and keeps the relation |
| Statement.DestroyFreesIff | src/ExecutableStatement.cpp:60-86 | the destructor removes exactly the entries of the kinds it could unbind, and the native handle is freed, once, if and only if no entry for it is left |
| Statement.ExecutableStatement.BindColumn | src/ExecutableStatement.cpp:249-254 | on success exactly this column is bound to this buffer, and exactly its entry is added; other statements are untouched |
| SqlBuilder.BuildSelectFields | src/Table.cpp:389-410 | the append-and-erase loop yields the names of the selected columns joined with ", " |
| SqlBuilder.BuildMarkers | src/Table.cpp:413-453 | the loop yields the marker list of the matching columns and these columns in the same order |
| SqlBuilder.BuildUpdatePk | src/Table.cpp:456-511 | keys go to WHERE, other columns to be updated to SET, each in index order, with the text that belongs to them |
| SqlBuilder.BuildInsert | src/Table.cpp:514-554 | fields, markers and columns to bind side by side, in a text that InsertMarkers and Prepared spell out |
| SqlBuilder.UpdateMarkers | src/Table.cpp:456-511 | the SET columns own the first markers, the WHERE columns the others, and there are no more |
| SqlBuilder.KeyMarkers | src/Table.cpp:413-453 | in a text that ends in a key list each key column owns one marker, in order |
| SqlBuilder.InsertMarkers | src/Table.cpp:514-554 | the text starts with "INSERT INTO table (fields) VALUES(", and up to marker k it is that and then k + 1 marks: marker k stands at element k of VALUES; there are as many as columns |
| SqlBuilder.UpdateCountIff | src/Table.cpp:456-511 | markers and parameters agree in number if and only if no name contains a question mark |
| SqlBuilder.DeleteCountIff | src/Table.cpp:413-453 | the same for DELETE by key |
| SqlBuilder.SelectCountIff | src/Table.cpp:557-596 | the same for SELECT by key, whose field list brings in stray marks as well |
| SqlBuilder.InsertCountIff | src/Table.cpp:514-554 | the same for INSERT, whose field list does too |
| SqlBuilder.SetAndWhereDisjoint | src/Table.cpp:468-487 | no column is both set and compared, none is listed twice, and both lists follow the index order |
| Text.EraseLastJoins | src/Table.cpp:389-410 | appending "item, " for each item and erasing the last ", " is joining, for any items |
| TableColumns.NullableLeakIff | src/Table.cpp:231-265 | every created column is flagged nullable as the catalog says if and only if no column that is not nullable follows one that is |
| TableColumns.CreatedMeaning | src/Table.cpp:245-295 | the columns made are those for which a buffer could be created, all of them, in the catalog's order |
| TableBuffers.MarkKeys | src/Table.cpp:634-651 | flags exactly the first match of every reported key; fails if and only if one has none; and changes no other flag |
| TableBuffers.MarkIndexes | src/Table.cpp:1122-1137 | flags exactly the columns with the given indexes; fails if and only if one is missing |
| TableBuffers.CheckSqlTypes | src/Table.cpp:683-716 | erasing while iterating leaves exactly the supported columns; without skipping it fails if and only if one is unsupported |
| TableBuffers.SupportedIs | src/Table.cpp:683-716 | what is looked at and left are the columns whose SQL type is among those the database reports, in their order |
| TableAuto.CreateBuffers | src/Table.cpp:245-295 | one new buffer per catalog column that may have one, numbered and flagged as the loop does; on an exception none of them is left; no binding and no other flag changes |
| TableStatements.AllocateStatements | src/Table.cpp:161-210 | initialises exactly the statements the access flags call for, with new handles; or lets the count buffer go and resets all five, whichever call failed, if nothing was bound or SQLFreeStmt does not fail; no other native handle stays allocated |
| TableStatements.FreeStatements | src/Table.cpp:375-386 | succeeds if and only if all five end up uninitialised, and always where SQLFreeStmt does not fail; then each native handle has been freed exactly once and no buffer has an entry for it; otherwise it stopped at one statement, which keeps its handle, and those after it are untouched |
| TableStatements.DestroyAll | include/exodbc/ColumnBuffer.h:214-245 | buffers that lose their last owner go; statements keep their handles; a statement loses all bindings of a kind exactly when one of these buffers had an entry for it, and none otherwise |
| TableBinding.BindUpdatePkParameters | src/Table.cpp:456-511 | prepares the text and binds the SET columns, then the key columns, from parameter 1 on; succeeds exactly when neither list is empty, as far as the driver goes along |
| TableOpen.BindAll | src/Table.cpp:1158-1208 | all bindings and prepared texts of Open, in order, as one change of the five statements |
| TableOpen.StepsOpen | src/Table.cpp:1158-1208 | from bare statements that change leads to exactly what the access flags call for |
| TablePrepare.MadeAllowed | src/Table.cpp:230-243 | columns created by Open pass CheckColumnFlags for every set of access flags, whichever are flagged as keys |
| TablePrepare.CreateColumns | src/Table.cpp:213-316 | succeeds exactly when the catalog has columns, not too many, each can be made or skipped, and where keys are asked for, the catalog names them and each name is a column's; the columns are those of the catalog, with exactly the first of each name flagged as key |
| TablePrepare.MarkPrimaryKeys | src/Table.cpp:1122-1147 | succeeds exactly when every key column is found, and then flags exactly those, by index or else by the catalog's names |
| TablePrepare.ProvidedSettles | src/Table.cpp:1115-1209 | for columns that Open creates as for those it finds: whether they pass its checks, whether they suffice for what is to be bound, and what they end up as, is determined by the state before the call and the catalog's answers |
| TablePrepare.OutcomeHasKeys | src/Table.cpp:1122-1147 | every column that the primary key is made of, by index or first of the catalog's name, is flagged when Open has done its checks; it is in the open table if and only if types are not checked or its type is supported |
| TableCondition.WillOpenIff | src/Table.cpp:1067-1209 | Open has no reason to fail exactly when: the table is found, or known and, where asked for, still there; each key column is there; each column flag has a use among the access flags; types that are checked are supported or may be skipped; and of the columns left there is a key for work by key, one to set that is no key for UPDATE, and one to insert. Where columns come from the catalog, the same of what it reports |
| TableCondition.GivenOutcome | src/Table.cpp:1122-1155 | of columns set by hand exactly those of served types are left, in order; exactly the key columns are flagged as such, and no other flag changes |
| TableCondition.CatalogOutcome | src/Table.cpp:213-316 | created columns have the catalog's names, types and order, flags for exactly what the access flags allow, keys where they are keys, and nullable if one up to them is |
| TableMarkers.OpenTableMatches | src/Table.cpp:413-596 | by the access flags alone: COUNT has a handle, with the count buffer bound as its only result column, if and only if AF_COUNT_WHERE is set, and so for the other four statements, each with exactly its columns and parameters bound in order; every prepared text is spelled out word for word; where no name holds a question mark, marker k, INSERT's VALUES included, belongs to the column bound as parameter k and the counts agree; and name k of the select list belongs to result column k |
| TableMarkers.OpenCountsIff | src/Table.cpp:413-596 | in an open table each prepared text has as many markers as parameters are bound if and only if neither the table's name nor that of a column it lists holds a question mark |
| TableMarkers.UpdateParametersMatch | src/Table.cpp:456-511 | for UPDATE by key each SET marker, and after them each WHERE marker, is bound to its own column |
| TableMarkers.InsertParametersMatch | src/Table.cpp:514-554 | for INSERT the text starts with the literal prefix, parameter k is the column whose name is field k, and its marker element k of VALUES |
| TableMarkers.ReplacedColumnsMatchIff | src/Table.cpp:309-313 | with an open table's columns replaced and some buffers destroyed, select list and bound columns agree if and only if nothing is selected now and either nothing was, or a buffer that was bound is among those destroyed |
| Table.Table.Open | src/Table.cpp:1067-1231 | all or nothing: open with exactly what the access flags call for, or closed with all five statements uninitialised, whatever fails, as long as SQLFreeStmt does not or nothing had been bound; then what OpenTableMatches says holds of the five statements; succeeds only if, and with a driver that refuses nothing exactly if, the state before the call and the catalog's answers satisfy WillOpen (WillOpenIff); whichever way it ends: which columns are left (after a failure those set by hand, but for what the type check dropped, and none the table made), that only key flags were added, which buffers went and came in terms of those the caller keeps, and that no native handle, binding or entry is there but those before and the open table's own |
| Table.EffectiveMeans | src/Table.cpp:1076-1080 | for a database that cannot report keys they are never asked for, and no other flag of the call changes |
| Table.FlagChangedMeans | src/Table.cpp:319-337 | setting or clearing a column's flag changes that flag of that buffer, and no other |
| Table.Table.Close | src/Table.cpp:1234-1250 | each native handle is freed exactly once, no buffer has an entry for it and none is allocated or bound that was not before; exactly the count buffer and the created columns' buffers that the caller does not keep are gone; where SQLFreeStmt fails the table stays open, with the statements reset up to that one |
| Table.Table.Select | src/Table.cpp:795-813 | the text it executes, word for word: SELECT, the names of exactly the columns flagged CF_SELECT in index order, FROM and the table, then WHERE and ORDER BY where given; its k-th field is the column bound as result column k |
| Table.Table.CreateAutoColumnBufferPtrs | src/Table.cpp:213-316 | its exact success condition and the columns it makes; the statements stay as they were unless its columns replace the table's; then exactly the bindings are left that the destroyed buffers had no part in, and for an open table select list and bindings agree if and only if ReplacementAgrees holds of the columns before, the catalog's and the buffers kept |
| TableRuns.Run | src/Table.cpp:213-1290 | any calls in any order lead from state to state as specified call by call, failed ones included; from an intact table isOpen tells the truth after every call that no disturbing one precedes: closed means nothing initialised, open means exactly what the access flags call for; and whenever the table is closed nothing of what it took is left, unless SQLFreeStmt has failed |
| TableRuns.RunStaysTruthful | src/Table.cpp:1067-1250 | the induction over the run; whenever the table is open, it has exactly the statements, bindings and prepared texts that its access flags call for, and name k of the select list built from its columns is bound as result column k |
| TableRuns.RunLeaksNothing | src/Table.cpp:1067-1250 | the induction that no handle leaks: beside those at the start no native handle is allocated, bound or entered but those the five statements hold, and none when the table is closed, in any run in which SQLFreeStmt does not fail with something bound, columns replaced while open included |
| TableRuns.ReplaceColumnsOfOpenTable | src/Table.cpp:309-313 | a table opened on one column whose columns are then replaced: list and bindings disagree, whether the old buffers are kept or not |
| Transactions.StepKeepsInv | src/Database.cpp:116-559 | while the database is open, a cached AUTO or MANUAL is what the driver does, whatever the calls return |
| Transactions.CommitsExactly | src/Database.cpp:382-559 | committed work grows by CommitTrans and by executing with autocommit on, and by nothing else |
| Transactions.RollsBackExactly | src/Database.cpp:382-559 | lost work grows by all that is pending in RollbackTrans, in SetCommitMode and SetTransactionIsolationMode unless AUTO is cached, and in Close, and by nothing else; nothing is pending then; and otherwise pending work grows by what is executed in manual mode alone |
| Transactions.OpenSucceedsIff | src/Database.cpp:116-295 | Open succeeds exactly when each call it needs does, switching to manual mode, with the rollback before it, only where transactions are supported and the driver is not in it |
| Transactions.CloseSucceedsIff | src/Database.cpp:382-409 | Close succeeds exactly when the rollback that MANUAL calls for does and the statement handle is freed |
| Transactions.ModeChangesExactly | src/Database.cpp:458-555 | the cached mode changes by reading and setting it, the driver's by setting it, the connection by neither |
| Transactions.SetCommitModeCommitsIff | src/Database.cpp:507-535 | switching the mode would commit pending work exactly when AUTO is cached for a driver that has some |
| Transactions.SetModeAgreesIff | src/Database.cpp:507-535 | the mode that was set is cached, and says what the driver does if and only if it is not UNKNOWN |
| Transactions.CloseLosesIff | src/Database.cpp:382-409 | Close disconnects with work still pending exactly when UNKNOWN is cached for a driver that has some, and never commits |
| Transactions.FailedOpen | src/Database.cpp:116-175 | a failed Open commits and loses nothing, and what it leaves behind is named |
| Transactions.OpenedManual | src/Database.cpp:152-157 | a successful Open is in manual mode wherever transactions are supported |
| Transactions.EveryRun | src/Database.cpp:116-559 | in every run the cached mode agrees, committed is what commits made of it, lost is exactly what was rolled back, and each piece of work is committed, pending or rolled back exactly once |
| Database.Database.OpenImpl | src/Database.cpp:116-175 | the step of the state machine, for every combination of return codes |
| Database.Database.Open | src/Database.cpp:184-295 | the same with the disconnect of its catch block |
| Database.Database.Close | src/Database.cpp:382-409 | the same; open afterwards exactly when something failed |
| Database.Database.SetCommitMode | src/Database.cpp:507-535 | rolls back unless AUTO is cached, then switches, then caches; stops at the first failure |
| HandleSpec.EveryRunKeepsInv | include/exodbc/SqlHandle.h:97-211 | for any return codes: parent exactly while allocated, each handle handed out is allocated, released or rejected, once; an allocated handle is held by an object or was refused to a destructor; and unless a Free by hand orphans handles, parents outlive the objects under them, and what is allocated under a handle when it is released has been refused before |
| HandleSpec.UnrefusedRun | include/exodbc/SqlHandle.h:97-211 | where no destructor meets SQL_ERROR, nothing is allocated under any handle when it is released, and no handle is allocated that no object holds |
| HandleSpec.StatementOutlivesConnection | include/exodbc/SqlHandle.h:97-110 | a run with destructors only, in which a statement's release is refused and its connection is released while the statement stays allocated under it |
| HandleSpec.FreeKeepsParentsIff | include/exodbc/SqlHandle.h:175-211 | a Free by hand keeps parents of allocated handles allocated if and only if nothing was allocated under the handle |
| HandleSpec.ReleaseDestroysIff | include/exodbc/SqlHandle.h:97-110 | giving up an object destroys it if and only if no other refers to it; its handle is then no longer allocated unless SQL_ERROR comes back; and objects that are held stay |
| HandleSpec.DestroyedLast | include/exodbc/SqlHandle.h:97-110 | whatever the driver returns: what is allocated under the handle of an object that no other refers to, when its destructor frees it, has been refused to a destructor before; and the release is logged exactly on success |
| Handles.HandleMemory.AllocateWithParent | include/exodbc/SqlHandle.h:147-161 | the assertions, the allocation, and the parent remembered only on success |
| Handles.HandleMemory.Free | include/exodbc/SqlHandle.h:175-211 | the specified step for every return code, and the destructors that giving up the parent sets off |
| Handles.HandleMemory.Collect | include/exodbc/SqlHandle.h:97-110 | the chain of destructors up the parents is the specified one |
| WordWrap.Split | samples/ExodbcExec/Command.cpp:422-455 | the loop over the words returns the lines that the recursive form returns |
| WordWrap.WrapKeepsWords | samples/ExodbcExec/Command.cpp:422-455 | when the first word fits, all words are there in order, doubled blanks included, but for an empty line at the end; and only a line with a single word may exceed the limit |
| WordWrap.WrapIsMinimal | samples/ExodbcExec/Command.cpp:422-455 | no way to cut the words into fitting lines has fewer lines, and when there is one all lines fit |
| WordWrap.WrapExact | samples/ExodbcExec/Command.cpp:422-455 | the lines are a cut of the words if and only if the first word fits; otherwise a line of blanks comes first |
| PatternEscape.TwoPassesAreOne | src/DatabaseCatalog.cpp:203-210 | two passes of replace_all are one per-character map if and only if the escape has no underscore, or no percent sign occurs |
| PatternEscape.EscapedMatchesOnlyInput | src/DatabaseCatalog.cpp:203-210 | a string matches the escaped input if and only if it is the input |
| PatternEscape.EscapeFaithfulIff | src/DatabaseCatalog.cpp:203-210 | for an escape other than the metacharacters, an input is escaped faithfully if and only if it does not contain the escape |
| DisplaySize.IntegerTextFits | src/ColumnBuffer.cpp:129-138 | the decimal text of every value of each integer type fits its display size |
| DisplaySize.IntegerSizeTight | src/ColumnBuffer.cpp:129-138 | and no smaller buffer holds the longest value of the type |
| DisplaySize.DecimalTextMeans | src/ColumnBuffer.cpp:124-128 | the text of a decimal: a sign exactly for negative values, and the unscaled digits with s of them behind the point |
| DisplaySize.DecimalTextFitsIff | src/ColumnBuffer.cpp:124-128 | every value of DECIMAL(p,s) fits if and only if s is less than p |
| DisplaySize.DateTextFitsIff | src/ColumnBuffer.cpp:162-164 | a date fits if and only if its year has four digits, or five and no sign |
| DisplaySize.TimeTextNeeds | src/ColumnBuffer.cpp:166-175 | a time with d decimals is held by the buffer of that size and by none smaller |
| DisplaySize.TimestampTextNeeds | src/ColumnBuffer.cpp:176-186 | the same of a timestamp |
| DisplaySize.FloatTextFitsIff | src/ColumnBuffer.cpp:139-143 | all scientific texts of d significant digits fit if and only if d is at most 8 for REAL, 17 for FLOAT and DOUBLE |
| DisplaySize.BinaryTextFitsIff | src/ColumnBuffer.cpp:149-161 | a binary column takes the hexadecimal texts of exactly as many bytes as it has, 65536 where it cannot say |
| DisplaySize.GuidTextNeeds | src/ColumnBuffer.cpp:187-188 | a GUID is held by the buffer of its size and by none smaller |
| DisplaySize.CharTextFitsIff | src/ColumnBuffer.cpp:116-123 | a character column of size n takes exactly the texts of up to n characters |
| DisplaySize.StoreAndRead | src/ColumnBuffer.cpp:68-99 | the buffer made for a column, of any type but an unknown one, takes the text of every value of the column and gives it back, and of other texts exactly those that leave room for a terminator and hold none |
| DisplaySize.SizeDefinedIff | src/ColumnBuffer.cpp:68-196 | a column gets a buffer exactly when its type is known and the catalog says what its size is made of |
| ColumnValue.SetGetRoundTrip | include/exodbc/ColumnBuffer.h:516-610 | a non-empty string comes back from SetString and GetString if and only if it has no NUL and is shorter than the buffer, whatever was there |
| ColumnValue.SetValueMeans | include/exodbc/ColumnBuffer.h:516-534 | for any length indicator: which elements are written, which stay, when the terminator and the indicator are, and the two errors exactly |
| ColumnValue.SetValueReadsIff | include/exodbc/ColumnBuffer.h:516-599 | a value of any length indicator is read back if and only if it holds no terminator, leaves room for one, is not set to NULL, and a terminator follows, written or left from before |
| ColumnValue.ReadingMeans | include/exodbc/ColumnBuffer.h:585-599 | what is read is the text before the first terminator, NULL exactly for that indicator, and a read past the end exactly without terminator |
| ColumnValue.CharColumnBuffer.SetValue | include/exodbc/ColumnBuffer.h:516-534 | the copying loop over the buffer does what the value form says, error cases included |
| ColumnValue.CharColumnBuffer.ReadString | include/exodbc/ColumnBuffer.h:585-599 | the text up to the first terminator, or NULL, or a read past the end |
| Timestamp.ParseText | src/SqlStructHelper.cpp:137-148 | the text of a printable timestamp is parsed back to the fields |
| Timestamp.TextLayout | src/SqlStructHelper.cpp:137-148 | it is digits with the separators of yyyy-mm-dd hh:mm:ss between them |
| Timestamp.PrintableIff | src/SqlStructHelper.cpp:137-148 | a text has its 19 characters without sign exactly for a printable timestamp |
| Timestamp.EqualIff | src/SqlStructHelper.cpp:105-114 | timestamps are equal exactly when all fields are, the fraction included |
| Timestamp.TextOrder | src/SqlStructHelper.cpp:137-148 | lexicographic order of the texts is chronological order |
| Timestamp.TextDistinguishes | src/SqlStructHelper.cpp:105-114 | texts are equal exactly when the timestamps are equal up to the fraction |

## Left out

- One class per source class for handles and buffers: their fields are maps in one object, so that mutual references stay tractable; aliasing is kept, as the maps are keyed by object identity.
- Columns and parameters are one parameter `kind` where the source has two copies of the same code.
- Binding.Memory.Bind: the descriptor calls for SQL_C_NUMERIC, which can fail after the slot is connected, are not modelled; binding is one call.
- Binding.Memory.SQLFreeHandle: always succeeds here; every return code is the subject of HandleSpec.
- Binding.Memory.FreeStmt: a buffer's destructor keeps its copy of the shared_ptr only while it unbinds that statement; the model lets all owners that are gone be collected at its end.
- Statement.ExecutableStatement.Init: scroll-cursor flags are one outcome of SetCursorOptions; the flag members are not modelled.
- Executing statements, result sets and cursor movement: the driver's business; Insert, UpdateByPkValues, DeleteByPkValues, SelectByPkValues and Count only execute what Open has prepared or bound.
- Table::Update and Table::Delete with a WHERE text: they use a local statement that goes with the call; the loop that builds their SET list is BuildMarkers.
- Table::~Table, Init and the copy constructor: they call Close or set members.
- TableBinding.BindParams: the counters are SQLSMALLINT in the source and overflow beyond 32767 columns; indexes and counters are unbounded here.
- Table.Table.Open: where SQLFreeStmt itself fails in the catch block, the source leaves the statements after it initialised; the contract then says only that the objects hang together, as FreeStatements tells where it stopped.
- TableRuns.Run: one table in a memory that only it changes; other tables, and flags that a caller changes on a buffer directly, are not interleaved.
- Database.Database.Close: SQLDisconnect is taken to succeed; when it fails the source leaves the object half closed.
- Transactions.EveryRun: work is what the driver executes for ExecSql on the connection; the contents of transactions and isolation levels are not modelled.
- The fraction of timestamps (floating point formatting), InitUtcTimestamp, UTF-8 and UTF-16 conversion, info tables, logging, trace files, and console commands other than the word wrap: formatting or plumbing with easy facts only.
