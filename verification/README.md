# transwarp database, ORM and API helpers in Dafny

This project models the core of a small Python 2 web application, stated as
pure functions over immutable datatypes. The core has five parts:

- **Database context** (`www/transwarp/db.py`):
  - the lazy connection `_LasyConnection`, which connects on the first `cursor()` call;
  - the per-thread context `_DbCtx`, which holds that connection and a transaction depth;
  - the `with connection():` and `with transaction():` scopes (`_ConnectionCtx`, `_TransactionCtx`);
  - flat nested transactions: only the outermost exit commits or rolls back.

  The thread-local context becomes an explicit `Ctx` value. Every step returns three things: the new context, the physical events it issued on the driver connection (`Open`, `Commit`, `Rollback`, `Close`), and the value returned or the exception raised.
- **SQL helpers** (same file):
  - `?` → `%s` placeholder rewriting;
  - the `insert` statement text;
  - `Dict` rows;
  - result shaping for `select_one`, `select` and `select_int`;
  - the auto-commit rule of `_update`;
  - the `next_id` layout;
  - the `create_engine` re-initialisation guard.
- **Programs of nested scopes** (module `Nesting`): trees of connection blocks, transaction blocks, queries, updates, failing application code and application `try`/`except Exception` blocks that swallow what their body raised, run over the shared context. The headline lemmas are about these trees.
- **ORM** (`www/transwarp/orm.py`):
  - `Field` and its typed subclasses, with the class-wide declaration counter;
  - the `default` property and `__str__`;
  - the `ModelMetaclass` registration: primary-key checks, table name, trigger hooks;
  - the `create table` text of `_gen_sql`.
- **JSON API** (`www/apis.py`): `Page` arithmetic, the `APIError` classes, and the `api` decorator's mapping of return values and exceptions to JSON payloads.
- **Relative time** (`www/wsgiapp.py`): the `datetime_filter` buckets.

Python exceptions become `Err` values of a `Result`. A `with` block's exit that raises replaces the body's outcome, as in Python. A dictionary iterated by the source is a sequence in its iteration order, and the lemmas state where that order does not matter.

Files:
- `outcomes.dfy`, `values.dfy`, `text.dfy`: shared datatypes and string/digit helpers.
- `db_context.dfy`, `db_sql.dfy`, `db_nesting.dfy`: the database module.
- `orm_fields.dfy`, `orm_schema.dfy`: the ORM.
- `apis.dfy`: the JSON API.
- `time_buckets.dfy`: relative time.

## Model

| member | source | states |
|---|---|---|
| DbContext.CursorsOpenOnce | www/transwarp/db.py:69-74 | However many cursors are taken, the driver connection is opened exactly once, by the first cursor on an unopened connection, and never again |
| DbContext.CleanupIdempotent | www/transwarp/db.py:79-84 | Cleanup closes an open handle once and forgets it; a second cleanup issues nothing |
| DbContext.DbCleanup | www/transwarp/db.py:113-119 | Cleaning an initialised context uninitialises it, keeps the depth, and closes the connection only if it had been opened |
| DbContext.ConnEnter | www/transwarp/db.py:140-150 | Entering a connection scope takes ownership exactly when the context is uninitialised, installing an unopened connection at depth 0; otherwise the context is unchanged |
| DbContext.ConnExit | www/transwarp/db.py:152-162 | Only the owning scope cleans up; a non-owning exit changes nothing and issues nothing |
| DbContext.ConnScopeRestores | www/transwarp/db.py:140-162 | An empty connection scope restores an initialised context and leaves an uninitialised one uninitialised, with no physical event |
| DbContext.TxEnter | www/transwarp/db.py:169-176 | Entering a transaction goes one level deeper, owning the context exactly when it was uninitialised |
| DbContext.TxExit | www/transwarp/db.py:178-201 | Leaving a transaction goes one level up. Only the exit back to depth 0 commits or rolls back: commit with no pending exception, rollback with one. A failing commit is followed by a rollback and the commit's error re-raised; a failing rollback raises its own error instead. The owning scope closes the connection on every path. A never-opened connection makes the decision raise |
| DbContext.AsWrittenNeverRollsBack | www/transwarp/db.py:61-84 | With the lazy connection lacking `rollback`, no exit ever rolls back, and AttributeError replaces the pending exception or the commit failure |
| DbContext.RollbackMissingCounterexample | www/transwarp/db.py:199-201 | On an opened connection with an exception pending, the code as written closes without a rollback and raises AttributeError; the corrected exit rolls back |
| DbContext.Execute | www/transwarp/db.py:312-322 | An executor call in its own connection scope: it opens the connection at most once, commits only when auto-committing at depth 0, never rolls back, closes only a connection it owned, and passes the body's value through unless the commit fails |
| Nesting.RunInsideTransaction | www/transwarp/db.py:178-186 | Inside an open transaction, any nested program keeps the depth, opens the connection at most once, and issues no commit, rollback or close; only application exceptions escape |
| Nesting.RunInitialised | www/transwarp/db.py:140-162 | In an initialised context at any depth, any nested program keeps the depth and never closes the connection, opening it at most once |
| Nesting.RunFromFresh | www/transwarp/db.py:140-189 | From an uninitialised context every program leaves it uninitialised again, and every connection it opened has been closed (as many Close as Open events) |
| Nesting.OutermostTransaction | www/transwarp/db.py:169-201 | The outermost transaction around any body: a body that used the connection gives exactly Open, then Commit if it returned normally or Rollback if it raised, then Close, and the body's outcome stands; a body that never used it gives an AttributeError |
| Nesting.TransactionInsideConnection | www/transwarp/db.py:169-201 | The outermost transaction inside a connection block never closes the connection: a body that used it gives its Open (if opened there), then exactly one Commit if it returned normally or Rollback if it raised, and the body's outcome; a body that never used it gives an AttributeError |
| Nesting.NestedFailureRollsBack | www/transwarp/db.py:178-189 | An exception in an inner transaction rolls back the outer one, including an update already made, and reaches the caller |
| Nesting.CaughtInnerFailureCommits | www/transwarp/db.py:178-189 | Because an inner transaction's exit does nothing, an exception from it that application code catches leaves its update in place, and the outer transaction commits that update along with its own |
| Nesting.UpdatesCommitOutsideTransactions | www/transwarp/db.py:403-406 | Outside any transaction each update commits at once, inside one connection |
| SqlHelpers.DriverSql | www/transwarp/db.py:335 | The rewritten SQL has no `?` left and grows by one character per placeholder |
| SqlHelpers.DriverSqlRoundTrip | www/transwarp/db.py:398 | For SQL without `%`, reading `%s` back as `?` recovers the original, and the driver sees exactly one marker per `?` |
| SqlHelpers.InsertStatement | www/transwarp/db.py:428-429 | An insert with no pairs fails to unpack; otherwise the arguments are the pair values in order |
| SqlHelpers.InsertPlaceholders | www/transwarp/db.py:427-428 | With `?`-free table and column names, the statement holds exactly one `?` per argument |
| SqlHelpers.InsertColumnsReadBack | www/transwarp/db.py:427-428 | With comma-free column names, the column list splits on ',' back into the backquoted keyword names in argument order, and the value list into one `?` per argument |
| SqlHelpers.BuildRow | www/transwarp/db.py:209-212 | The row holds exactly the names given, and each holds the value of its last occurrence |
| SqlHelpers.MakeRow | www/transwarp/db.py:209-212 | `Dict(names, values)` pairs up to the shorter sequence, with a repeated name keeping its last value |
| SqlHelpers.DistinctNamesRow | www/transwarp/db.py:209-212 | With distinct column names each column reaches the row under its own name, and no other key appears |
| SqlHelpers.FetchOne | www/transwarp/db.py:340-346 | No row, or an empty one, gives None. A row without a column description fails on the unbound name. Otherwise the result is the first row as a `Dict` |
| SqlHelpers.FetchAll | www/transwarp/db.py:340-347 | One `Dict` per fetched row, in order; no rows give an empty list; rows without a description fail |
| SqlHelpers.ScalarOf | www/transwarp/db.py:373-376 | A missing row raises TypeError and a row of other than one column raises MultiColumnsError; a one-column row always gives a result, and every result is the value of a one-key row |
| SqlHelpers.SelectOne | www/transwarp/db.py:352-363 | `select_one` gives None for no rows and the first row otherwise, and never commits or rolls back |
| SqlHelpers.Select | www/transwarp/db.py:378-385 | `select` gives one row per fetched row, an empty list when there are none, and never commits or rolls back |
| SqlHelpers.SelectInt | www/transwarp/db.py:365-376 | `select_int` fails without a row, raises MultiColumnsError when the row has two or more distinct column names, and returns the single value of a one-column row |
| SqlHelpers.Update | www/transwarp/db.py:388-410 | `_update` commits iff no transaction is open, never rolls back, and returns the rowcount unless the auto-commit fails |
| SqlHelpers.Insert | www/transwarp/db.py:421-430 | `insert` with no pairs raises before touching the context; otherwise it behaves as `_update` |
| SqlHelpers.NextIdLayout | www/transwarp/db.py:273 | An id is 15 zero-padded digits that read back as the milliseconds, then the hex string, then `000` |
| SqlHelpers.CreateEngine | www/transwarp/db.py:286-307 | A second initialisation is refused. Otherwise, for keywords a Python call can pass (none naming a declared parameter again), the parameters hold `user`, `host` and `port` as given, every keyword unchanged (so a `passwd` or `db` keyword overrides the password or database), and `charset`/`autocommit` from the keywords or defaulted to `utf8`/false |
| SqlHelpers.EngineInitialisedOnce | www/transwarp/db.py:299-301 | Once an engine exists, no later `create_engine` succeeds |
| OrmFields.NewField | www/transwarp/orm.py:111-121 | Every keyword given is stored and every missing one takes its default; the field takes the counter's value, and the counter advances by one |
| OrmFields.UpdatableKeyIgnored | www/transwarp/orm.py:117 | As written, `updatable=False` is ignored and the field stays updatable; as intended, it is honoured |
| OrmFields.ColumnField | www/transwarp/orm.py:151-214 | Each typed field fills in its own default and column type only when they are not passed, and otherwise builds like the base field |
| OrmFields.VersionFieldOf | www/transwarp/orm.py:221-222 | A version field defaults to 0 with column type `bigint` and the other flags at their defaults |
| OrmFields.DeclareAll | www/transwarp/orm.py:120-121 | Fields declared one after another take strictly increasing orders: the i-th takes the counter plus i, and the counter ends advanced by the number of fields |
| OrmFields.DefaultReads | www/transwarp/orm.py:123-130 | Over any number of reads, a callable default answers with the callable's next call each time, so the i-th read is the i-th call's result; any other default is read back as stored every time |
| OrmFields.GeneratorReadsDiffer | www/transwarp/orm.py:129-130 | No read of a callable default reuses an earlier result: when the callable never repeats itself, two different reads give different values |
| OrmFields.LiteralDefaultIsFixed | www/transwarp/orm.py:129-130 | Every read of a non-callable default gives the same sequence, whatever any callable would answer |
| OrmFields.FlagsRoundTrip | www/transwarp/orm.py:141-143 | The `N`, `U`, `I` letters appear exactly when the field is nullable, updatable, insertable |
| OrmFields.FieldText | www/transwarp/orm.py:132-145 | The text is bracketed by `< ` and `>`. It opens with the class name, the field name, the column type and `default (`, and ends with the flag letters just before the closing bracket |
| OrmFields.FieldTextShowsClass | www/transwarp/orm.py:140 | The text names the field's class unambiguously: fields with the same text were built from the same class |
| OrmSchema.SortByOrder | www/transwarp/orm.py:62 | The fields sorted by declaration order: sorted, and a permutation of the input |
| OrmSchema.SortIgnoresIterationOrder | www/transwarp/orm.py:62 | Any arrangement of the same fields sorts to the same sequence when orders identify fields |
| OrmSchema.GenSqlLines | www/transwarp/orm.py:53-74 | The text has a comment, the opening, one column line per field in declaration order (`not null` unless nullable), the primary key clause naming the last primary key (or `None`), and `);` |
| OrmSchema.GenSqlShape | www/transwarp/orm.py:74 | When names and column types are single-line, splitting the text at newlines gives back exactly those lines |
| OrmSchema.GenSqlIgnoresIterationOrder | www/transwarp/orm.py:62-74 | The create-table text does not depend on the order the mappings are iterated in |
| OrmSchema.MapField | www/transwarp/orm.py:261-273 | A mapped field is named after its attribute; a primary key becomes neither updatable nor nullable; nothing else about the field changes |
| OrmSchema.FieldEntries | www/transwarp/orm.py:260-275 | The mappings hold exactly the field attributes, each named after its attribute, with every primary key forced non-updatable and non-nullable |
| OrmSchema.ScanCounts | www/transwarp/orm.py:260-275 | The scan fails, with the second-key message, exactly when more than one field is a primary key. Otherwise it maps every field attribute and finds a primary key exactly when there is one |
| OrmSchema.AsWrittenRejectsPlainAttributes | www/transwarp/orm.py:260-275 | As written, the scan fails with AttributeError exactly when some attribute is not a field (given at most one primary key) |
| OrmSchema.WithTriggers | www/transwarp/orm.py:285-287 | Every trigger hook the class does not define becomes `None`; every other attribute is unchanged |
| OrmSchema.Register | www/transwarp/orm.py:247-278 | `Model` bypasses registration. Any other class is recorded as a subclass and registers iff it has exactly one primary-key field, with the two TypeError messages for none and for more than one |
| OrmSchema.RegisteredMappings | www/transwarp/orm.py:275-284 | A registered class maps exactly its field attributes, one of them a primary key forced non-updatable and non-nullable, and carries the create-table text of those fields |
| OrmSchema.RegisteredNamespace | www/transwarp/orm.py:279-287 | A registered class keeps its own `__table__` or takes the lower-cased class name, and gets `None` for each undefined trigger |
| OrmSchema.AsWrittenRejectsModels | www/transwarp/orm.py:260-265 | As written, a class with any attribute besides its fields cannot be registered: AttributeError |
| OrmSchema.PlainAttributeCounterexample | www/transwarp/orm.py:260-278 | A class with `__module__` and one primary key fails as written and registers as intended |
| Apis.FloorDivMod | www/apis.py:30 | Python's floor quotient and remainder recombine to the dividend, and the remainder takes the divisor's sign |
| Apis.PageCountIsCeiling | www/apis.py:30 | With a positive page size, the pages hold every item and one page fewer would not |
| Apis.NewPage | www/apis.py:26-40 | A zero page size raises ZeroDivisionError. The page count is the ceiling. An empty listing or out-of-range index falls back to page 1 with nothing to fetch, and an in-range index gets its window. `has_next`/`has_previous` hold iff there is a later/earlier page |
| Apis.PageWithDefaults | www/apis.py:26 | Without a page size, pages hold 15 items and construction cannot fail; without an index, the first page is shown from the first item with no previous page |
| Apis.EveryItemOnItsPage | www/apis.py:31-38 | Every item of a listing lies inside the window of the page its position names |
| Apis.NextPageIsValid | www/apis.py:39 | Following `has_next` reaches a valid page, the next one |
| Apis.FallbackHasNoPrevious | www/apis.py:31-34 | A fallen-back page has no previous page and nothing to fetch |
| Apis.DumpPage | www/apis.py:48-56 | A page dumps to exactly five keys |
| Apis.DumpPageReadsBack | www/apis.py:50-56 | The dump carries the page's index, count, item count and navigation flags unchanged |
| Apis.Encode | www/apis.py:48-66 | Without the hook a page is refused with the encoder's TypeError naming its text; with it, a page becomes its dump; any other unencodable object always raises TypeError, whose message shows the object's `repr` from the encoder itself and its `str` from `_dump` |
| Apis.EncodeList | www/apis.py:66 | A list encodes exactly when every item does, item by item in order; otherwise the encoder raises the error of an item that does not encode |
| Apis.EncodeDictSucceedsIff | www/apis.py:66 | A dictionary encodes exactly when every value does; otherwise the encoder raises the error of a value that does not encode |
| Apis.EncodeDictValues | www/apis.py:66 | In an encoded dictionary, each key carries the encoding of its last entry |
| Apis.EncodeSucceedsIff | www/apis.py:48-66 | Encoding succeeds exactly when no unencodable object lies anywhere inside, and pages appear only with the `_dump` fallback, however deeply nested; a failure's message reads `<object> is not JSON serializable` |
| Apis.PlainDataEncodes | www/apis.py:59-66 | Data without pages or unencodable objects encodes, and the hook is never consulted |
| Apis.Api | www/apis.py:107-130 | For a handler that returns or raises an `Exception` with text data, the decorated call answers JSON. An API error reaches the client as its error, data and message; any other exception becomes an internal error naming its class. A returned value with an unencodable object anywhere inside gives an internal TypeError payload; any other returned value, pages nested anywhere included, is answered as its encoding |
| Apis.ApiErrorRoundTrip | www/apis.py:121-124 | Any API error's payload decodes back to the same error |
| Apis.ErrorCodesReachClient | www/apis.py:85-127 | Invalid-value and not-found errors reach the client under their codes with the field as data; permission errors have data `permission`; other exceptions are internal errors naming their class |
| Apis.PageDumpCounterexample | www/apis.py:59-66 | Returning a page gives an internal TypeError as written and the page's dump as intended |
| TimeBuckets.Truncate | www/wsgiapp.py:15 | `int()` of a float truncates toward zero |
| TimeBuckets.Classify | www/wsgiapp.py:15-23 | The buckets are disjoint and tried in order: under a minute (negatives included) is "just now"; minutes in 1..59, hours in 1..23, days in 1..6, each the whole units elapsed; a week or more falls in the dated bucket |
| TimeBuckets.ClassifyMonotone | www/wsgiapp.py:16-23 | More elapsed time never moves to a younger bucket or a smaller count |
| TimeBuckets.DatetimeFilter | www/wsgiapp.py:14-25 | As intended, every timestamp is shown. Under a minute (a future one included) it shows the fixed "1分钟前" text. Within a week it shows `delta // 60` minutes, `delta // 3600` hours or `delta // 86400` days, with the unit and `前`. After a week it shows the local date of the timestamp as year, month and day |
| TimeBuckets.AsWrittenFailsAfterAWeek | www/wsgiapp.py:3-25 | As written, the filter raises AttributeError exactly for timestamps a week or more old, and agrees with the intended filter on every younger one |
| TimeBuckets.DateBranchCounterexample | www/wsgiapp.py:22-25 | A timestamp exactly one week old raises as written and is shown as a date as intended |
| TimeBuckets.RenderReadsBack | www/wsgiapp.py:18-23 | Within the first week the shown count reads back from the leading digits of the text |

## Left out

- `www/transwarp/web.py`, `www/db.py` and `www/test_db.py` are not part of this model: stubs, an earlier draft of the same context logic, and a script against a live server.
- The MySQLdb driver, the `_Engine` connect function, logging and `_profiling`: outside the logic. The "Redefine class" message of the metaclass is only logged, so a subclass set records the names.
- `with_transaction`: it passes `func` to `_TransactionCtx`, which takes no arguments, so every decorated call fails before its body runs.
- Thread-local storage and concurrency: one explicit context value stands for the current thread's.
- `cursor.execute` failures and driver errors on connect or close: a driver's `commit` and `rollback` may fail (the `Physical` parameter); nothing else of the driver is modelled.
- `next_id` takes integer milliseconds and the hex string as inputs; the clock, the float product `t * 1000` and `uuid4` are left out.
- `datetime_filter` takes the clock reading as a parameter. The intended conversion of a timestamp to a local calendar date is a function parameter, since the code as written never reaches it (see Findings). Float subtraction is modelled on exact reals.
- The JSON text: payloads are JSON trees, not serialised strings. The content type is a field of the response rather than a write to the request context.
- Field aliasing: one field object bound to two attribute names is not modelled. The metaclass mutates that one object, and here each attribute holds its own field value.
- The `hasattr(f, 'ddl')` branch of `_gen_sql` (orm.py:64-65) cannot fire, since every field has `ddl`.
- Flags are booleans; Python truthiness of other flag values is not modelled.
- `str()` of a stored default is a parameter of `FieldText`, not computed.
- The `__mappings__` and `__sql__` class attributes are fields of the mapped class rather than namespace entries; `__sql__` is the text itself rather than a function producing it.
- Model instances and their database operations: none appear in the modelled files.
- Apis.Api: does not model exceptions that escape the wrapper: a `BaseException` that is not an `Exception` (apis.py:125 catches only `Exception`), and an error payload that `json.dumps` cannot encode (apis.py:124, 127), such as an `APIError` with non-text data or message. Error data and messages are strings here, so in the model the wrapper always answers.
- Nesting.OutermostTransaction: stated for a driver whose commit and rollback succeed (as is `Nesting.TransactionInsideConnection`); a failing commit or rollback at the outermost exit is covered step by step by `DbContext.TxExit`.
- SqlHelpers.SelectOne: states the empty and the described-row cases; the remaining cases follow from `SqlHelpers.FetchOne`, which it passes through `DbContext.Execute`.
- SqlHelpers.Select: states the row count, not the row contents, which `SqlHelpers.FetchAll` states.
- The statements of `Nesting` programs are abstract: one kind of query and one kind of update, without SQL or results. The `SqlHelpers` members state those separately.

## Findings

| source | as written | input that shows it | evidently intended | confidence | as-written member | corrected member |
|---|---|---|---|---|---|---|
| www/transwarp/db.py:61-84, 196, 201 | `_LasyConnection` defines no `rollback`, so each rollback attempt raises AttributeError | leaving the only transaction with an exception pending on an opened connection | the rollback reaches the driver connection, as `commit` does | high, not executed | DbContext.TxExitAsWritten (shown by DbContext.RollbackMissingCounterexample and DbContext.AsWrittenNeverRollsBack) | DbContext.TxExit |
| www/transwarp/orm.py:117 | `updatable` is read from the key `updatabla` | `StringField(updatable=False)` stays updatable | the flag is read from `updatable` | high, not executed | OrmFields.NewFieldAsWritten (shown by OrmFields.UpdatableKeyIgnored) | OrmFields.NewField |
| www/transwarp/orm.py:260-275 | the primary-key checks and the mapping run for every class attribute, not only fields | a class body holding `__module__` and one primary-key field raises AttributeError | only fields are examined and mapped | high, not executed | OrmSchema.RegisterAsWritten (shown by OrmSchema.PlainAttributeCounterexample and OrmSchema.AsWrittenRejectsModels) | OrmSchema.Register |
| www/apis.py:48-66 | `dumps` does not pass `_dump` to the encoder | a handler returning a `Page` gets an internal TypeError payload | pages are encoded through `_dump` | medium, not executed | Apis.ApiAsWritten (shown by Apis.PageDumpCounterexample) | Apis.Api |
| www/wsgiapp.py:3, 24 | `datetime` names the module, so `datetime.fromtimestamp(t)` raises AttributeError | any timestamp a week or more old, e.g. `now - t == 604800` | the date branch converts with the `datetime` class (`from datetime import datetime`) and shows the date | high, not executed | TimeBuckets.DatetimeFilterAsWritten (shown by TimeBuckets.AsWrittenFailsAfterAWeek and TimeBuckets.DateBranchCounterexample) | TimeBuckets.DatetimeFilter |
