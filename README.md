# US wind power statistics: loader, repository models and web server

This project is a Dafny model of the three parts of the US wind power statistics system that carry its logic.

- **The data loader** reads a CSV file of US states and a CSV file of wind turbines into a SQL Server database. For states, it upserts one `dbo.State` row per CSV row, then deletes every state whose id is not in the file, then counts the rows. For turbines, it inserts every distinct `(state, county)` pair into `dbo.County` and every distinct manufacturer name into `dbo.Manufacturer`, unless the row is already there; a blank manufacturer name is stored as NULL. Each statement is followed by `?`, so the first failing statement ends the program, and nothing written before it is undone.
- **The repository models** decode one row of SQL Server column values into the records `ImageSource`, `State`, `County`, `Manufacturer`, `Project`, `Model` and `Turbine`. Each decoder reads typed columns in declaration order. It also decodes the one-letter state-type code (`S`, `T`, `F`) and the confidence-level discriminant (1, 2, 3).
- **The web server** converts the repository records into its response records, and formats a turbine's image date as `%Y-%m-%d`. It maps repository errors to responses that answer 404 or 500, and judges the affected-row count of an image-source update. Every list handler sorts the records by id before converting them.

How the model is laid out:

- `ints.dfy` and `wrappers.dfy` hold the fixed-width integer types and `Option`/`Result`.
- `text.dfy` holds decimal digits, zero padding and the byte-wise string order Rust's `String::cmp` uses.
- `loader_values.dfy` holds the loader's CSV records and its pure computations: the area conversion, the state-type code, the folded id list and itertools' `unique()`.
- `loader_store.dfy` models the database the loader writes to.
  - The tables are values.
  - Every statement has a meaning (`Apply`).
  - `Run` sends a plan of statements one at a time and stops at the first failure.
  - The class `Store` has one method per statement. Its constant `faults` lists the positions, counted over every statement sent, at which the connection or the server fails. This is how the model represents I/O failure.
- `loader.dfy` holds the loader's stages as imperative methods. Each is proved to send its plan and to leave the tables `Run` gives. The lemmas cover what a whole load leaves, its idempotence, and the order in which statements are sent.
- `repository_models.dfy` holds the row decoders. Each has an encoder beside it, so every decoder has a round trip.
- `server_results.dfy` holds the response records, the record conversions and the date format.
- `server.dfy` holds the error responses, the update, and the list handlers. The handlers use an in-place insertion sort on an array.
- `consistency.dfy` connects the loader and the repository. A state row as the loader stores it decodes exactly when its CSV state type starts with `s`, `t` or `f` in either case. A manufacturer row the loader stores for a blank name has a NULL `Name`, which the repository's decoder unwraps.

## Model

| member | source | states |
|---|---|---|
| `LoaderValues.SquareMilesToKm` | dataloader/src/main.rs:79-82 | The result is `a * 2.58999` truncated toward zero and held between the bounds of `i32`: for non-negative `a` it is the largest value whose product with 100000 does not exceed `a * 258999` (or `i32::MAX`), and symmetrically for negative `a`. |
| `LoaderValues.AreaInSquareKm` | dataloader/src/main.rs:80-82 | An absent area stays absent; a present area is converted. |
| `LoaderValues.AreaOfThousandSquareMiles` | dataloader/src/main.rs:81 | 1000 square miles are stored as 2589 km²: the conversion truncates, it does not round. |
| `LoaderValues.AsciiUpper` | dataloader/src/main.rs:121 | Lower-case ASCII letters move down 32 code points, every other character is kept, and the result is never a lower-case letter. |
| `LoaderValues.StateTypeCode` | dataloader/src/main.rs:121 | The stored code is one character: the state type's first character upper-cased. |
| `LoaderValues.AppendQuoted` | dataloader/src/main.rs:130 | Definition of the closure given to `fold`: the first id is quoted, and each later one is appended after `, `. |
| `LoaderValues.FoldIds` | dataloader/src/main.rs:128-130 | Definition of `fold` with that closure over the ids, in order, from the accumulator. |
| `LoaderValues.IdList` | dataloader/src/main.rs:128-130 | Definition of the list spliced into the prune: the fold from the empty string. `IdListIsQuotedList` states what it is. |
| `LoaderValues.QuotedList` | dataloader/src/main.rs:128-130 | Reference definition, independent of the fold: every id in single quotes, separated by `, `, in order, nothing escaped. |
| `LoaderValues.IdListIsQuotedList` | dataloader/src/main.rs:128-130 | The fold builds exactly the ids quoted and separated by `, `, in input order, and the list is empty exactly when there are no ids. |
| `LoaderValues.UniqueAfter` | dataloader/src/main.rs:211-221 | Definition of itertools' `unique()` after the values in `seen` were yielded: an item is yielded when it was not yielded before. |
| `LoaderValues.Unique` | dataloader/src/main.rs:211-221 | Definition of `unique()` from nothing yielded. `UniqueProperties` states what it yields. |
| `LoaderValues.UniqueProperties` | dataloader/src/main.rs:211-221 | `unique()` yields no value twice, loses no value, and lists values in the order of their first occurrence. |
| `LoaderValues.FirstIndex` | dataloader/src/main.rs:213 | The index of a value's first occurrence: it holds the value and no earlier position does. |
| `LoaderStore.NextQuote` | dataloader/src/main.rs:132 | The position of the first quote at or after the start, with no quote before it, or the end of the text. |
| `LoaderStore.ReadLiteralList` | dataloader/src/main.rs:132 | Definition of how the server reads the `NOT IN (...)` list: quote-delimited literals separated by `, `, with the empty list and any other text rejected. `ReadQuotedList` and `ReadIdList` state what it reads. |
| `LoaderStore.ReadLiteralHead` | dataloader/src/main.rs:132 | A literal list that starts with a quote-free literal reads as that literal followed by the reading of what comes after `, `. |
| `LoaderStore.NextQuoteSkips` | dataloader/src/main.rs:132 | With no quote between the start and a quote at `k`, the next quote is at `k`. |
| `LoaderStore.ReadQuotedList` | dataloader/src/main.rs:128-132 | A non-empty list of quote-free ids, quoted and comma-separated, reads back as exactly those ids. |
| `LoaderStore.ReadIdList` | dataloader/src/main.rs:128-133 | The prune statement's list names exactly the file's ids when there is at least one and none holds a quote; with no ids, the statement is rejected (`NOT IN ()`). |
| `LoaderStore.Restrict` | dataloader/src/main.rs:132 | The prune keeps exactly the rows whose id is listed, unchanged. |
| `LoaderStore.InsertIfAbsent` | dataloader/src/main.rs:265-302 | Definition of `IF NOT EXISTS (...) INSERT`: the key is appended only when no row has it. |
| `LoaderStore.Apply` | dataloader/src/main.rs:106-302 | Definition of what each statement does to the tables: connecting and counting change nothing, an upsert sets the id's row, the prune keeps the ids its list reads as, and each insert is `InsertIfAbsent`. |
| `LoaderStore.ApplyAll` | dataloader/src/main.rs:106-302 | Definition of the effect of statements that all succeed, one after another. `ApplyAllAppend` states how it composes. |
| `LoaderStore.Run` | dataloader/src/main.rs:106-302 | Definition of sending statements one at a time, each followed by `?`: a statement at a fault position or one the server refuses fails and ends the run. `RunStopsAtFirstFailure` and `RunKeepsCompletedWrites` state what it does. |
| `LoaderStore.ApplyAllAppend` | dataloader/src/main.rs:106-133 | The effect of two successful plans in a row is the second's effect applied to the first's. |
| `LoaderStore.RunAppend` | dataloader/src/main.rs:29-36 | Running `p + q` runs `p` and, only if `p` did not fail, then runs `q` from the tables `p` left. |
| `LoaderStore.RunStopsAtFirstFailure` | dataloader/src/main.rs:122-123 | Statements are sent in plan order. Every attempt but the last succeeded. A run fails exactly when its last attempt failed. A run that did not fail sent the whole plan. An attempt succeeds exactly when its position is not a fault and the server accepts it. |
| `LoaderStore.RunKeepsCompletedWrites` | dataloader/src/main.rs:106-124 | A failure undoes nothing: the tables are those of the statements that succeeded before it. The failed statement itself is taken to have had no effect; `RunLostReply` covers the case where it did. |
| `LoaderStore.RunSucceeded` | dataloader/src/main.rs:106-124 | A run that did not fail sent every statement and has the effect of the whole plan. |
| `LoaderStore.RunSingle` | dataloader/src/main.rs:122-123 | A single statement fails, changing nothing, at a fault or when refused; otherwise it takes effect. |
| `LoaderStore.LostReplyFaults` | dataloader/src/main.rs:118-123 | Definition of the faults of a run whose failure at one position came after the server had committed the statement: that position succeeds, and the run fails at the next one. |
| `LoaderStore.RunLostReply` | dataloader/src/main.rs:118-123 | When the statement a run failed at took effect all the same, the tables are those of the run with `LostReplyFaults`: the earlier statements' effect, then that statement's. |
| `LoaderStore.LostReplyTables` | dataloader/src/main.rs:118-123 | The tables of a failed run whose failed statement took effect; they are the tables of the run with `LostReplyFaults`. |
| `LoaderStore.LostReplyIsRun` | dataloader/src/main.rs:118-123 | Those tables are the tables of some run of the same plan. |
| `LoaderStore.RunSequence` | dataloader/src/main.rs:29-36 | The second part of a sequence starts where the first part's attempts end. |
| `LoaderStore.RunExtend` | dataloader/src/main.rs:106-124 | Sending the next statement of a plan whose prefix succeeded appends one attempt; a failure there ends the whole run. |
| `LoaderStore.ProgressStart` | dataloader/src/main.rs:106 | Before any statement, nothing has been sent and nothing has changed. |
| `LoaderStore.ProgressDone` | dataloader/src/main.rs:124 | A plan whose every statement succeeded has been sent whole, and its run did not fail. |
| `LoaderStore.ProgressStep` | dataloader/src/main.rs:122-123 | One more statement, succeeding exactly when its position is not a fault and the server accepts it, continues the run or ends it. |
| `LoaderStore.RanThen` | dataloader/src/main.rs:29-36 | A successful first part followed by a second part is the run of both, failing exactly when the second does. |
| `LoaderStore.RanFailed` | dataloader/src/main.rs:29-36 | After a failed part, nothing more is sent. |
| `LoaderStore.PartFailed` | dataloader/src/main.rs:29-36 | A run whose first part fails is that part's run. |
| `LoaderStore.RunWithoutFaults` | dataloader/src/main.rs:106-124 | With no I/O fault and every statement accepted, a run succeeds and has the effect of the whole plan. |
| `LoaderStore.Store.constructor` | dataloader/src/main.rs:149-155 | The store starts with the given tables, faults and an empty log. |
| `LoaderStore.Store.Connect` | dataloader/src/main.rs:149-155 | Opening the connection succeeds unless it is a fault; it is logged and changes no table. |
| `LoaderStore.Store.UpsertState` | dataloader/src/main.rs:107-123 | On success, the row with the id is replaced or inserted; on failure, nothing changes. The attempt is logged. |
| `LoaderStore.Store.DeleteStatesNotIn` | dataloader/src/main.rs:132-133 | The server accepts the prune only when its list is a literal list, and then keeps exactly the listed ids; otherwise nothing changes. |
| `LoaderStore.Store.SelectStateCount` | dataloader/src/main.rs:136-137 | The count query changes no table and, on success, returns the number of states. |
| `LoaderStore.Store.InsertCountyIfAbsent` | dataloader/src/main.rs:266-273 | On success, a county key not yet present is appended and a present one changes nothing. |
| `LoaderStore.Store.InsertNullManufacturerIfAbsent` | dataloader/src/main.rs:286-293 | On success, a NULL name is appended unless one is present. |
| `LoaderStore.Store.InsertManufacturerIfAbsent` | dataloader/src/main.rs:296-302 | On success, the name is appended unless present. |
| `Loader.Abbreviations` | dataloader/src/main.rs:128-130 | Definition used by `AbbreviationSet`, `IdList` and the states-stage lemmas: the ids of the file, one per row, in order. |
| `Loader.RowOf` | dataloader/src/main.rs:121-123 | Definition of the upsert's parameters for one CSV row: name, capital, population, converted area and the one-letter type code. |
| `Loader.UpsertStatements` | dataloader/src/main.rs:106-124 | Definition used by `StatesStagePlan` and `UpsertStatementsEffect`: one upsert per CSV row, in order, with the row's converted parameters. |
| `Loader.StatesStagePlan` | dataloader/src/main.rs:102-141 | Definition of what the states stage sends: connect, one upsert per row, the prune against the folded list, and the count. |
| `Loader.Upserted` | dataloader/src/main.rs:108-118 | Definition of the state table after the upsert loop: each row, in order, replaces or adds the row with its id. `UpsertedProperties` states what it holds. |
| `Loader.LastIndex` | dataloader/src/main.rs:106-124 | The last row carrying an id: no later row has it. |
| `Loader.StateLoad` | dataloader/src/main.rs:102-141 | Definition of the state table after the states stage: the upserts, then the prune against the file's ids. `StateLoadExact` states what it holds. |
| `Loader.PrefixStateTypesPresent` | dataloader/src/main.rs:121 | A prefix of rows that all have a state type also does. |
| `Loader.UpsertedLast` | dataloader/src/main.rs:106-124 | Upserting rows adds the last row's id, with that row, to what the earlier rows left. |
| `Loader.UpsertedKeys` | dataloader/src/main.rs:106-124 | After the upsert loop, the ids are the old ids plus the file's ids. |
| `Loader.UpsertedLastWins` | dataloader/src/main.rs:106-124 | Each id of the file holds the row of its last occurrence. |
| `Loader.UpsertedKeepsOthers` | dataloader/src/main.rs:106-124 | A row whose id is not in the file is left as it was. |
| `Loader.UpsertedProperties` | dataloader/src/main.rs:106-124 | The upsert loop's ids, rows and untouched rows together. |
| `Loader.StateLoadExact` | dataloader/src/main.rs:102-141 | A successful states stage leaves exactly the file's ids, each with the row its last occurrence gives. |
| `Loader.UpsertedIdempotent` | dataloader/src/main.rs:106-124 | Upserting the same rows twice leaves what upserting once leaves. |
| `Loader.PrunedUpsertIdempotent` | dataloader/src/main.rs:106-133 | Upsert-then-prune repeated leaves what doing it once leaves. |
| `Loader.StateLoadIdempotent` | dataloader/src/main.rs:102-141 | Loading the same states file twice leaves the table as loading it once. |
| `Loader.UpsertStatementsEffect` | dataloader/src/main.rs:106-124 | The upsert statements have the effect of the upsert loop on the state table alone. |
| `Loader.StatesPlanBeforePrune` | dataloader/src/main.rs:105-124 | Connecting and the upserts are all accepted and leave the upserted table. |
| `Loader.StatesPlanEffect` | dataloader/src/main.rs:102-141 | When the id list reads, the whole stage is accepted and leaves the upserted table restricted to the listed ids. |
| `Loader.StatesPlanLoads` | dataloader/src/main.rs:102-141 | For a non-empty file of quote-free ids, the stage is accepted and leaves `StateLoad`. |
| `Loader.EmptyStatesFileFails` | dataloader/src/main.rs:128-133 | An empty states file makes the prune `NOT IN ()`. The server rejects it, so the stage fails after connecting, having changed nothing. |
| `Loader.LoadUsStatesToDatabase` | dataloader/src/main.rs:102-141 | The method sends the stage's plan, leaves the tables and log of its run, and reports a store error exactly when the run failed. A stage that succeeded had a non-empty file. With quote-free ids, it leaves exactly `StateLoad`. |
| `Loader.StatesStageOutcome` | dataloader/src/main.rs:102-141 | A states stage that did not fail had rows and, for quote-free ids, leaves `StateLoad`. |
| `Loader.InsertAllAbsentProperties` | dataloader/src/main.rs:265-274 | Insert-if-absent keeps the existing rows in place and adds exactly the missing keys. An existing key keeps its count and a new key appears once. |
| `Loader.InsertAllPresent` | dataloader/src/main.rs:265-274 | Inserting keys that are all present changes nothing. |
| `Loader.InsertAllAbsent` | dataloader/src/main.rs:265-302 | Definition of the insert-if-absent loop over keys in order. `InsertAllAbsentProperties` states what it leaves. |
| `Loader.InsertAllAbsentIdempotent` | dataloader/src/main.rs:265-274 | Inserting the same keys twice leaves what inserting once leaves. |
| `Loader.CountyKeys` | dataloader/src/main.rs:211-214 | Definition used by `TurbinesStagePlan` and the turbines lemmas: one `(state, county)` key per turbine row, in order. |
| `Loader.ManufacturerNames` | dataloader/src/main.rs:218-221 | Definition used by `TurbinesStagePlan` and `ManufacturersBlankIsNull`: one manufacturer name per turbine row, in order. |
| `Loader.CountyStatements` | dataloader/src/main.rs:265-274 | Definition used by `LoadCountiesToDatabase` and `CountyStatementsEffect`: one county insert per key, in order. |
| `Loader.StoredName` | dataloader/src/main.rs:286-303 | Definition used by `StoredNames` and `ManufacturersBlankIsNull`: a name is stored as NULL exactly when it is empty, and as itself otherwise. |
| `Loader.StoredNames` | dataloader/src/main.rs:283-303 | Definition used by `ManufacturerStatementsEffect` and `TurbinesStageTables`: each name as `StoredName` gives it, in order. |
| `Loader.ManufacturerStatement` | dataloader/src/main.rs:286-303 | Definition of the statement for one name: the NULL insert for a blank name, the named insert otherwise. |
| `Loader.ManufacturerStatements` | dataloader/src/main.rs:283-303 | Definition used by `LoadManufacturersToDatabase` and `ManufacturerStatementsEffect`: one manufacturer insert per name, in order. |
| `Loader.TurbinesStagePlan` | dataloader/src/main.rs:206-260 | Definition of what the turbines stage sends: connect, one insert per distinct county, then one per distinct manufacturer name. |
| `Loader.CountyStatementsEffect` | dataloader/src/main.rs:262-278 | The county inserts are accepted and insert every absent key. |
| `Loader.ManufacturerStatementsEffect` | dataloader/src/main.rs:280-308 | The manufacturer inserts are accepted and insert every absent stored name. |
| `Loader.TurbinesPlanEffect` | dataloader/src/main.rs:206-260 | The turbines stage inserts the distinct counties, then the distinct stored manufacturer names, and leaves the state table alone. |
| `Loader.ManufacturersBlankIsNull` | dataloader/src/main.rs:283-303 | After the stage, the table holds NULL exactly when it did before or some turbine has a blank manufacturer. A table without NULL before holds at most one NULL after, and the stage never adds an empty name. |
| `Loader.LoadCountiesToDatabase` | dataloader/src/main.rs:262-278 | The method sends one insert per county, leaves the tables and log of that run, and reports its failure. On success, every absent county has been added. |
| `Loader.LoadManufacturersToDatabase` | dataloader/src/main.rs:280-308 | The method sends the NULL insert for a blank name and the named insert otherwise, and leaves the tables and log of that run. On success, every absent stored name has been added. |
| `Loader.LoadUsTurbinesToDatabase` | dataloader/src/main.rs:206-260 | The method connects, loads the distinct counties and then the distinct manufacturers, and leaves the tables and log of the stage's run, reporting its failure. On success, the states are unchanged and every distinct absent county and stored manufacturer name has been added. |
| `Loader.LoaderPlan` | dataloader/src/main.rs:25-39 | Definition of what `main` sends: nothing when the states file cannot be read; otherwise the states stage when its file is given, then the turbines stage when its file was read. |
| `Loader.CsvFailure` | dataloader/src/main.rs:25-39 | Definition of the CSV error `main` reports: the states file's first, then the turbines file's. |
| `Loader.RunLoader` | dataloader/src/main.rs:25-39 | `main` runs the states stage and then the turbines stage, each only when its file is given, and stops at the first error. An unreadable CSV file is reported as a CSV error. |
| `Loader.OrderedConcat` | dataloader/src/main.rs:25-39 | Two plans in stage order, the second ranked after the first, are in stage order together. |
| `Loader.StatesPlanOrdered` | dataloader/src/main.rs:102-141 | The states stage sends upserts, then the prune, then the count. |
| `Loader.TurbinesPlanOrdered` | dataloader/src/main.rs:206-260 | The turbines stage sends every county before any manufacturer. |
| `Loader.LoaderPlanOrdered` | dataloader/src/main.rs:25-39 | The whole program's plan is in stage order: states, prune, count, counties, manufacturers. |
| `Loader.RunInStageOrder` | dataloader/src/main.rs:25-39 | A run of a plan in stage order sends its statements in stage order, each after all earlier ones succeeded. |
| `Loader.LoaderSendsInOrder` | dataloader/src/main.rs:25-39 | Every statement the loader sends comes in stage order, and only after every earlier one succeeded. |
| `Loader.StatesStageWithoutFaults` | dataloader/src/main.rs:102-141 | With no I/O fault, the states stage leaves the upserted table, pruned when its list reads. It fails exactly when the server rejects the prune. |
| `Loader.TurbinesStageWithoutFaults` | dataloader/src/main.rs:206-260 | With no I/O fault, the turbines stage succeeds and inserts exactly the distinct absent keys. |
| `Loader.StatesStageTables` | dataloader/src/main.rs:102-141 | Definition of what the states stage leaves without I/O failure: the upserts, then the prune when the server reads its list. |
| `Loader.TurbinesStageTables` | dataloader/src/main.rs:206-260 | Definition of what the turbines stage leaves without I/O failure: every distinct absent county, then every distinct absent stored name. |
| `Loader.FaultFreeTables` | dataloader/src/main.rs:25-39 | Definition of what `main` leaves without I/O failure: the states stage, then the turbines stage unless the prune was refused. |
| `Loader.SequenceWithoutFaults` | dataloader/src/main.rs:29-36 | Two plans back to back with no fault: the second starts where the first ends. |
| `Loader.TurbinesAfterWithoutFaults` | dataloader/src/main.rs:33-36 | After a first part with no fault, the turbines stage runs only if the first part succeeded and a turbines file was read. |
| `Loader.LoaderWithoutFaults` | dataloader/src/main.rs:25-39 | With no I/O fault, the loader leaves `FaultFreeTables`, and it fails only when the server rejects the prune. |
| `Loader.StatesStageTablesIdempotent` | dataloader/src/main.rs:102-141 | The fault-free states stage, applied again, changes nothing. |
| `Loader.FaultFreeTablesIdempotent` | dataloader/src/main.rs:25-39 | The fault-free program, applied again, changes nothing. |
| `Loader.LoaderIdempotent` | dataloader/src/main.rs:25-39 | Loading the same files again, with no I/O fault in either run, leaves the tables as the first run left them. |
| `Loader.UpsertedAbsorbs` | dataloader/src/main.rs:106-124 | An earlier upsert of an id in the file is overwritten by the file's own upserts. |
| `Loader.RestrictAbsorbed` | dataloader/src/main.rs:106-133 | An earlier prune against the same list, followed by the upserts and the prune, leaves what the upserts and the prune leave. |
| `Loader.StatesStepAbsorbed` | dataloader/src/main.rs:102-141 | Any one statement of the states stage, applied to any tables, leaves the fault-free states stage's result unchanged and leaves counties and manufacturers alone. |
| `Loader.StatesRunAbsorbed` | dataloader/src/main.rs:102-141 | A states stage cut short anywhere leaves tables from which the fault-free states stage leaves what it leaves from the start. |
| `Loader.StatesStageSucceeded` | dataloader/src/main.rs:102-141 | A states stage that did not fail had its id list read by the server and left the fault-free stage's tables. |
| `Loader.InsertAllAbsentAppend` | dataloader/src/main.rs:265-274 | Inserting `p + q` if absent is inserting `p`, then `q`. |
| `Loader.InsertAllAbsentPrefix` | dataloader/src/main.rs:265-274 | Inserting the first keys and then all the keys is inserting all the keys. |
| `Loader.CountyRunPrefix` | dataloader/src/main.rs:262-278 | The county inserts, cut short anywhere, have inserted exactly the counties before the failure, and all of them when nothing failed. |
| `Loader.ManufacturerRunPrefix` | dataloader/src/main.rs:280-308 | The manufacturer inserts, cut short anywhere, have inserted exactly the stored names before the failure. |
| `Loader.InsertsRunAbsorbed` | dataloader/src/main.rs:206-260 | The county then manufacturer inserts, cut short anywhere, leave the states alone and tables from which inserting all keys again gives what inserting them from the start gives. |
| `Loader.TurbinesRunAbsorbed` | dataloader/src/main.rs:206-260 | A turbines stage cut short anywhere leaves the states alone and tables from which the fault-free turbines stage leaves what it leaves from the start. |
| `Loader.LoaderConverges` | dataloader/src/main.rs:25-39 | Whatever I/O failures cut a run short, the fault-free result from the tables it leaves is the fault-free result from the start. |
| `Loader.BothStagesConverge` | dataloader/src/main.rs:25-39 | `LoaderConverges` when a states file was read: a cut-short states stage and turbines stage leave tables from which the fault-free program gives its result from the start. |
| `Loader.LoaderConvergesAfterLostReply` | dataloader/src/main.rs:25-39 | `LoaderConverges` also holds when the statement the run failed at took effect, as when the connection drops after the server committed it. |
| `Loader.LoaderRecovers` | dataloader/src/main.rs:25-39 | Re-running the loader on the same files after a run cut short by I/O failures, with no I/O failure in the second run, leaves exactly what a fault-free first run would have left. |
| `Loader.LoaderLoadsFiles` | dataloader/src/main.rs:25-39 | With both files read, a non-empty states file whose rows all have a state type, quote-free ids and no I/O fault, the loader succeeds. It leaves exactly the file's states, each as its last row gives it, and the county and manufacturer tables with every distinct new key added. (An empty states file makes the run fail: `EmptyStatesFileFails`.) |
| `Models.FirstMismatch` | rustworkspace/repository/src/models.rs:42-46 | The first column that does not have the type its reader expects lies within the columns read. |
| `Models.ColumnError` | rustworkspace/repository/src/models.rs:42-46 | Definition of the error of a failed column read: `LowLevel`, naming the column. |
| `Models.FirstMismatchProperties` | rustworkspace/repository/src/models.rs:42-46 | Every column before the first mismatch has its expected type. The mismatch is a missing or wrongly typed column. There is no mismatch exactly when every column has its type. |
| `Models.ShiftSpecs` | rustworkspace/repository/src/models.rs:42-46 | Reading columns after a well-typed first column reads the rest, and a non-NULL first column fits. |
| `Models.ReadColumns` | rustworkspace/repository/src/models.rs:42-46 | Reading typed columns succeeds exactly when each has its type, and then yields those columns unchanged. Otherwise the error names the first wrongly typed or missing column. |
| `Models.FitsCons` | rustworkspace/repository/src/models.rs:42-46 | A fitting first column followed by fitting later columns is the fitting slice of the row. |
| `Models.SplitSpecs` | rustworkspace/repository/src/models.rs:202-213 | Column requirements split over two consecutive groups of columns. |
| `Models.FirstMismatchSplit` | rustworkspace/repository/src/models.rs:202-213 | The first mismatch over two groups is that of the first group, or of the second when the first has none. |
| `Models.FitsAllPrefix` | rustworkspace/repository/src/models.rs:14-17 | A row that starts with fitting columns has the expected types there and no forbidden NULL, whatever follows. |
| `Models.FitsAllAt` | rustworkspace/repository/src/models.rs:202-213 | Fitting columns anywhere in a row have the expected types and no forbidden NULL. |
| `Models.DebugText` | rustworkspace/repository/src/models.rs:51 | Definition of `{:?}` on an `Option<&str>`: `None`, or `Some("...")` with the text between double quotes. The escapes are left out. |
| `Models.DebugU8` | rustworkspace/repository/src/models.rs:93-99 | Definition of `{:?}` on an `Option<u8>`: `None`, or `Some(n)` with `n` in decimal. |
| `Models.StateTypeColumn` | rustworkspace/repository/src/models.rs:47-50 | Definition of the one-letter code each state kind is read from: `S`, `T` or `F`. |
| `Models.DecodeStateType` | rustworkspace/repository/src/models.rs:47-51 | Exactly `S`, `T` and `F` decode, to the kind whose code they are. Anything else, NULL and lower case included, is an `UnknownStateType` that names the value in debug form. |
| `Models.StateTypeRoundTrip` | rustworkspace/repository/src/models.rs:47-51 | Every state type decodes from its code. |
| `Models.Discriminant` | rustworkspace/repository/src/models.rs:84-88 | A confidence level's discriminant is 1, 2 or 3. |
| `Models.DecodeConfidenceLevel` | rustworkspace/repository/src/models.rs:93-99 | Exactly 1, 2 and 3 decode, to the level with that discriminant. Anything else, NULL included, is an `UnknownConfidenceLevel` that names the value. |
| `Models.ConfidenceLevelRoundTrip` | rustworkspace/repository/src/models.rs:84-99 | Every level decodes from its discriminant. |
| `Models.EncodeImageSource` | rustworkspace/repository/src/models.rs:14-17 | The row an image source is read from fits its column types. |
| `Models.ImageSourceFromColumns` | rustworkspace/repository/src/models.rs:14-17 | The fields are the columns in order. |
| `Models.DecodeImageSource` | rustworkspace/repository/src/models.rs:14-18 | Decoding succeeds exactly when the `u8` and text columns are there, and yields the model those columns encode. Otherwise the error names the first bad column. |
| `Models.ImageSourceRoundTrip` | rustworkspace/repository/src/models.rs:11-19 | Any image source decodes back from its row, whatever columns follow. |
| `Models.EncodeState` | rustworkspace/repository/src/models.rs:41-52 | The row a state is read from fits its column types. |
| `Models.StateFromColumns` | rustworkspace/repository/src/models.rs:41-61 | The fields are the columns in order, and the state type is the one the code column names. |
| `Models.DecodeState` | rustworkspace/repository/src/models.rs:41-62 | Decoding succeeds exactly when the six columns have their types and the code is `S`, `T` or `F`, and yields the state those columns encode. A bad column gives a column error; otherwise an unknown code gives `UnknownStateType`. |
| `Models.StateRoundTrip` | rustworkspace/repository/src/models.rs:38-63 | Any state decodes back from its row. |
| `Models.EncodeCounty` | rustworkspace/repository/src/models.rs:75-79 | The row a county is read from fits its column types. |
| `Models.CountyFromColumns` | rustworkspace/repository/src/models.rs:75-79 | The fields are the columns in order. |
| `Models.DecodeCounty` | rustworkspace/repository/src/models.rs:75-80 | Decoding succeeds exactly when the three columns have their types, and yields the county they encode. Otherwise the first bad column is named. |
| `Models.CountyRoundTrip` | rustworkspace/repository/src/models.rs:72-81 | Any county decodes back from its row. |
| `Models.EncodeManufacturer` | rustworkspace/repository/src/models.rs:112-115 | The row a manufacturer is read from fits its column types. |
| `Models.ManufacturerFromColumns` | rustworkspace/repository/src/models.rs:112-115 | The fields are the columns in order. |
| `Models.DecodeManufacturer` | rustworkspace/repository/src/models.rs:112-116 | Decoding succeeds exactly when the two columns have their types, and yields the manufacturer they encode. Otherwise the first bad column is named. |
| `Models.ManufacturerRoundTrip` | rustworkspace/repository/src/models.rs:109-117 | Any manufacturer decodes back from its row. |
| `Models.EncodeProject` | rustworkspace/repository/src/models.rs:130-140 | The row a project is read from fits its column types. |
| `Models.ProjectFromColumns` | rustworkspace/repository/src/models.rs:130-140 | The fields are the columns in order, nullable ones kept as options. |
| `Models.DecodeProject` | rustworkspace/repository/src/models.rs:130-141 | Decoding succeeds exactly when the four columns have their types, and yields the project they encode. Otherwise the first bad column is named. |
| `Models.ProjectRoundTrip` | rustworkspace/repository/src/models.rs:127-142 | Any project decodes back from its row. |
| `Models.EncodeModel` | rustworkspace/repository/src/models.rs:159-178 | The row a model is read from fits its column types. |
| `Models.ModelFromColumns` | rustworkspace/repository/src/models.rs:159-178 | The fields are the columns in order, nullable ones kept as options. |
| `Models.DecodeModel` | rustworkspace/repository/src/models.rs:159-179 | Decoding succeeds exactly when the eight columns have their types, and yields the model they encode. Otherwise the first bad column is named. |
| `Models.ModelRoundTrip` | rustworkspace/repository/src/models.rs:156-180 | Any model decodes back from its row. |
| `Models.TurbineGroups` | rustworkspace/repository/src/models.rs:202-213 | The twelve turbine columns are well typed exactly when the head, the attributes-level column and the tail are. |
| `Models.TurbineGroupsMismatch` | rustworkspace/repository/src/models.rs:202-213 | The first bad turbine column is the first bad column of the first group that has one. |
| `Models.EncodeTurbine` | rustworkspace/repository/src/models.rs:202-213 | The row a turbine is read from fits its column types. |
| `Models.TurbineFromColumns` | rustworkspace/repository/src/models.rs:202-228 | The fields are the columns in order, with both levels stored as their discriminants. |
| `Models.DecodeLevels` | rustworkspace/repository/src/models.rs:209-210 | Both levels decode exactly when column 8 is there and both codes are 1, 2 or 3; the codes are then the levels' discriminants. The error order is: a bad attributes code, then a missing column 8, then a bad location code. |
| `Models.DecodeTurbine` | rustworkspace/repository/src/models.rs:201-229 | Decoding succeeds exactly when every column has its type and both levels decode, and yields the turbine the columns encode. |
| `Models.TurbineSlices` | rustworkspace/repository/src/models.rs:202-213 | The twelve columns are the head, column 8 and the tail. |
| `Models.UnknownLevelBeforeNullTail` | rustworkspace/repository/src/models.rs:209-213 | A row whose first eight columns are read and whose attributes code is unknown satisfies the precondition and decodes to the level error, whatever columns 9-11 hold, NULL latitude or longitude included. |
| `Models.TurbineDecodeErrors` | rustworkspace/repository/src/models.rs:202-213 | A failing decode reports, in source order, the first bad head column, then the level error, then the first bad tail column. |
| `Models.TurbineRoundTrip` | rustworkspace/repository/src/models.rs:198-230 | Any turbine decodes back from its row. |
| `Results.ImageSourceConversion` | rustworkspace/rocketserver/src/results.rs:10-17 | The conversion copies every field, and is a bijection with its inverse. |
| `Results.StateTypeConversion` | rustworkspace/rocketserver/src/results.rs:26-34 | Each kind maps to the kind of the same name. The mapping is injective and reaches every response kind. |
| `Results.StateConversion` | rustworkspace/rocketserver/src/results.rs:46-57 | Every field is copied and the state type is converted; this is a bijection with its inverse. |
| `Results.CountyConversion` | rustworkspace/rocketserver/src/results.rs:66-74 | The conversion copies every field, and is a bijection with its inverse. |
| `Results.ConfidenceLevelConversion` | rustworkspace/rocketserver/src/results.rs:83-91 | The level keeps its discriminant. The mapping is injective and reaches every response level. |
| `Results.ManufacturerConversion` | rustworkspace/rocketserver/src/results.rs:99-106 | The conversion copies every field, and is a bijection with its inverse. |
| `Results.ProjectConversion` | rustworkspace/rocketserver/src/results.rs:116-125 | The conversion copies every field, and is a bijection with its inverse. |
| `Results.ModelConversion` | rustworkspace/rocketserver/src/results.rs:139-152 | The conversion copies every field, and is a bijection with its inverse. |
| `Results.FromImageSource` | rustworkspace/rocketserver/src/results.rs:10-17 | Definition of `From<models::ImageSource>`: copies id and name. `ImageSourceConversion` states that it is a bijection. |
| `Results.FromStateType` | rustworkspace/rocketserver/src/results.rs:26-34 | Definition of `From<models::StateType>`: each variant to the variant of the same name. `StateTypeConversion` states what it keeps. |
| `Results.FromState` | rustworkspace/rocketserver/src/results.rs:46-57 | Definition of `From<models::State>`: copies the fields and converts the type. `StateConversion` states that it is a bijection. |
| `Results.FromCounty` | rustworkspace/rocketserver/src/results.rs:66-74 | Definition of `From<models::County>`: copies the fields. `CountyConversion` states that it is a bijection. |
| `Results.FromConfidenceLevel` | rustworkspace/rocketserver/src/results.rs:83-91 | Definition of `From<models::ConfidenceLevel>`: each level to the level of the same name. `ConfidenceLevelConversion` states what it keeps. |
| `Results.FromManufacturer` | rustworkspace/rocketserver/src/results.rs:99-106 | Definition of `From<models::Manufacturer>`: copies the fields. `ManufacturerConversion` states that it is a bijection. |
| `Results.FromProject` | rustworkspace/rocketserver/src/results.rs:116-125 | Definition of `From<models::Project>`: copies the fields. `ProjectConversion` states that it is a bijection. |
| `Results.FromModel` | rustworkspace/rocketserver/src/results.rs:139-152 | Definition of `From<models::Model>`: copies the fields. `ModelConversion` states that it is a bijection. |
| `Results.FormatYear` | rustworkspace/rocketserver/src/results.rs:182 | `%Y` writes at least four characters. |
| `Results.FormatDate` | rustworkspace/rocketserver/src/results.rs:182 | `%Y-%m-%d` writes at least ten characters. |
| `Results.ParseYear` | rustworkspace/rocketserver/src/results.rs:182 | Reference definition, independent of the formatter: reads four digits, or a sign and at least four digits, as a year. |
| `Results.ParseDate` | rustworkspace/rocketserver/src/results.rs:182 | Reference definition, independent of the formatter: reads a year, `-`, two digits, `-`, two digits as a date. |
| `Results.ParseFormattedYear` | rustworkspace/rocketserver/src/results.rs:182 | Every year `%Y` writes reads back as that year, sign included. |
| `Results.DateFields` | rustworkspace/rocketserver/src/results.rs:182 | In `year-mm-dd`, the dashes and two-digit fields sit at fixed places counted from the end. |
| `Results.FormatDateRoundTrip` | rustworkspace/rocketserver/src/results.rs:182 | Every date chrono can hold reads back from its `%Y-%m-%d` text. |
| `Results.FormatDateInjective` | rustworkspace/rocketserver/src/results.rs:182 | Two dates with the same text are the same date. |
| `Results.FormatDateShape` | rustworkspace/rocketserver/src/results.rs:182 | For years 0 to 9999, the text is exactly ten characters: four year digits, a dash, two month digits, a dash and two day digits, holding the date's values. |
| `Results.FormatImageDate` | rustworkspace/rocketserver/src/results.rs:182 | Definition of `image_date.map(|d| d.format("%Y-%m-%d").to_string())`: an absent date stays absent and a present one is formatted. |
| `Results.FromTurbine` | rustworkspace/rocketserver/src/results.rs:170-187 | Definition of `From<models::Turbine>`: copies the fields and converts both levels and the image date. `TurbineConversion` states what it keeps. |
| `Results.TurbineConversion` | rustworkspace/rocketserver/src/results.rs:170-187 | Every field is copied and both levels keep their discriminants. A present image date becomes text that reads back as the date; an absent one stays absent. |
| `Results.TurbineConversionInjective` | rustworkspace/rocketserver/src/results.rs:170-187 | Different turbines give different responses. |
| `Server.StatusOfErrors` | rustworkspace/rocketserver/src/main.rs:9-19 | Only `NotFound` answers 404; every other error answers 500. |
| `Server.Status` | rustworkspace/rocketserver/src/main.rs:9-19 | Definition of the status each variant of `Error` is declared to respond with. |
| `Server.FromRepositoryError` | rustworkspace/rocketserver/src/main.rs:21-30 | Definition of `From<repository::error::Error>`: `LowLevel` and `NotFound` keep their variant and both unknown codes become `ServerError`, keeping the message. |
| `Server.RepositoryErrorResponse` | rustworkspace/rocketserver/src/main.rs:21-30 | A repository error keeps its message. It answers 404 exactly when it is `NotFound`, and never becomes a framework error. Low-level errors stay low-level, and both unknown codes become server errors. |
| `Server.RepositoryErrorsDistinguished` | rustworkspace/rocketserver/src/main.rs:21-30 | Two repository errors with the same response are equal, or are unknown codes with the same message. |
| `Server.UpdateImageSource` | rustworkspace/rocketserver/src/main.rs:99 | A repository error is passed on as its response. |
| `Server.UpdateImageSourceOutcome` | rustworkspace/rocketserver/src/main.rs:99-103 | The update succeeds exactly when one row was affected. No row answers 404. Any other count answers 500 with `Unexpected row count ` followed by the count's digits, which read back as the count. |
| `Server.GetImageSource` | rustworkspace/rocketserver/src/main.rs:82-89 | The lookup succeeds exactly when the repository's does, and yields the converted row, which converts back to it; an error is passed on. |
| `Server.SortBy` | rustworkspace/rocketserver/src/main.rs:75 | Sorting in place by a total, transitive order leaves the array ordered and a permutation of what it held. |
| `Server.Insert` | rustworkspace/rocketserver/src/main.rs:75 | One insertion step extends the ordered prefix by one element and permutes the array. |
| `Server.Swap` | rustworkspace/rocketserver/src/main.rs:75 | Two elements trade places and nothing else changes. |
| `Server.SortItems` | rustworkspace/rocketserver/src/main.rs:75 | The sorted items are ordered and a permutation of the input. |
| `Server.MapSeq` | rustworkspace/rocketserver/src/main.rs:76 | Definition used by the list handlers and `MapPermutation`: the conversion applied to each item, in order. |
| `Server.MapPermutation` | rustworkspace/rocketserver/src/main.rs:75-76 | Converting a permutation gives a permutation of the converted items, so sorting before converting loses and adds nothing. |
| `Server.IntIdOrder` | rustworkspace/rocketserver/src/main.rs:75 | Comparing by an integer id is a total, transitive order. |
| `Server.GetImageSources` | rustworkspace/rocketserver/src/main.rs:72-78 | An error is passed on. Otherwise the response holds exactly the converted image sources, each once per occurrence, ordered by id. |
| `Server.GetStates` | rustworkspace/rocketserver/src/main.rs:108-114 | An error is passed on. Otherwise the response holds exactly the converted states, ordered by id in `String` order. |
| `Server.GetCounties` | rustworkspace/rocketserver/src/main.rs:118-124 | An error is passed on. Otherwise the response holds exactly the converted counties, ordered by id. |
| `Server.GetProjects` | rustworkspace/rocketserver/src/main.rs:128-134 | An error is passed on. Otherwise the response holds exactly the converted projects, ordered by id. |
| `Server.GetManufacturers` | rustworkspace/rocketserver/src/main.rs:138-146 | An error is passed on. Otherwise the response holds exactly the converted manufacturers, ordered by id. |
| `Server.GetModels` | rustworkspace/rocketserver/src/main.rs:150-156 | An error is passed on. Otherwise the response holds exactly the converted models, ordered by id. |
| `Server.GetTurbines` | rustworkspace/rocketserver/src/main.rs:160-166 | An error is passed on. Otherwise the response holds exactly the converted turbines, ordered by id. |
| `Text.NatToString` | rustworkspace/rocketserver/src/main.rs:102 | A number is written as one or more decimal digits, with no leading zero. |
| `Text.DigitChar` | rustworkspace/rocketserver/src/main.rs:102 | A digit is written as the digit character with that value. |
| `Text.DigitValue` | rustworkspace/rocketserver/src/results.rs:182 | Proof helper for reading formatted dates back: a digit character reads as a value below ten. |
| `Text.NatToStringRoundTrip` | rustworkspace/rocketserver/src/main.rs:102 | The decimal digits of a number are digits that read back as the number. |
| `Text.Pow10` | rustworkspace/rocketserver/src/results.rs:182 | Proof helper for the zero-padding lemmas: powers of ten are positive. |
| `Text.NatToStringLength` | rustworkspace/rocketserver/src/results.rs:182 | A number below `10^k` has at most `k` digits. |
| `Text.Zeros` | rustworkspace/rocketserver/src/results.rs:182 | The padding is `k` zero characters. |
| `Text.PadLeft` | rustworkspace/rocketserver/src/results.rs:182 | Zero padding writes only digits, and is exactly the requested width or the number's own length, whichever is larger. |
| `Text.ZerosValue` | rustworkspace/rocketserver/src/results.rs:182 | Zeros are digits that read as 0. |
| `Text.LeadingZerosValue` | rustworkspace/rocketserver/src/results.rs:182 | Leading zeros do not change the value of a digit string. |
| `Text.PadLeftRoundTrip` | rustworkspace/rocketserver/src/results.rs:182 | A zero-padded number reads back as the number and is exactly the width when it fits. |
| `Text.LexLeTotal` | rustworkspace/rocketserver/src/main.rs:111 | String order is total. |
| `Text.LexLeTransitive` | rustworkspace/rocketserver/src/main.rs:111 | String order is transitive. |
| `Consistency.StoredStateReadsBack` | dataloader/src/main.rs:106-123 | A state stored by the loader, selected back, decodes exactly when its CSV state type starts with `s`, `t` or `f` in either case. It then has the loader's id, name, capital, population and converted area; otherwise the error is `UnknownStateType`. |
| `Consistency.StoredManufacturerReadsBack` | dataloader/src/main.rs:283-303 | A manufacturer row as the loader stores it has the column types the decoder reads (models.rs lines 109-117 read `Id` and `Name`, both unwrapped). Its `Name` is non-NULL exactly when the CSV name is not blank, and it then reads back with that name. So the decoder would panic on the NULL row the loader writes for a blank name. |

## Left out

- CSV parsing with `csv` and `serde` is left out. Each CSV file is modelled as what reading it yields: the records, or an error message. Trimming and the `deserialize_bool_from_anything` rule are not modelled.
- The database connection, the connection string and the network are left out. Each failure of the connection or the server is a position in the store's `faults` set.
- Logging and timers (`configure_logging`, `stimer!`, `executing!`, `finish!`) are left out. They affect no data.
- All `f32` values are left out: the turbine CSV's floating point columns are reals the loader never stores.
- LoaderValues.SquareMilesToKm: the model multiplies by 2.58999 exactly before truncating. The source multiplies in `f32`, whose rounding can make the stored area one lower for large areas: exactly, 100000 square miles give 258999, and in `f32` they give 258998.
- The number of states the count query returns is only logged, so the model returns it and uses it nowhere.
- A panic is modelled as a precondition excluding it: `unwrap` on an empty state type (`StateTypesPresent`, `RowOf`), or `unwrap` on a NULL read from a NOT NULL column (`NotNullWhereRequired`, `TurbineNotNull`).
- Models.ReadColumns: the precondition also excludes a NULL in a NOT NULL column that comes after the first wrongly typed column. The source returns the column error there before it reaches that column.
- Models.DecodeImageSource: precondition stronger than the source in the same way as `Models.ReadColumns`.
- Models.DecodeState: precondition stronger than the source in the same way as `Models.ReadColumns`.
- Models.DecodeCounty: precondition stronger than the source in the same way as `Models.ReadColumns`.
- Models.DecodeManufacturer: precondition stronger than the source in the same way as `Models.ReadColumns`.
- Models.DecodeProject: precondition stronger than the source in the same way as `Models.ReadColumns`.
- Models.DecodeModel: precondition stronger than the source in the same way as `Models.ReadColumns`.
- Models.DecodeTurbine: precondition stronger than the source in the same way as `Models.ReadColumns`, for columns 0-7, and for columns 9-11 once both confidence levels have decoded. `TurbineNotNull` demands nothing of columns 9-11 on a row whose level read fails, because the source returns that error before it unwraps latitude and longitude.
- `rustworkspace/repository/src/error.rs` is not part of this model. The driver's column conversion error, and how `?` converts it, are therefore modelled as `LowLevel` with a message naming the column. The driver's own wording is not modelled.
- The debug form `{:?}` of the unknown state type is written without Rust's escaping inside the string. Rust escapes quotes and backslashes, and also `\n`, `\r`, `\t`, `\0` and the other control characters, and `DebugText` escapes none of these.
- SQL Server's string comparison is left out. The upsert's `WHERE Id = @P6` (dataloader/src/main.rs:110-111), the prune's `NOT IN (...)` (dataloader/src/main.rs:132), the county check `C2.StateId = @P1 and C2.Name = @P2` (dataloader/src/main.rs:267) and the manufacturer check `M2.Name = @P1` (dataloader/src/main.rs:298) ignore trailing spaces, and under the default collation ignore case. The model's `Apply`, `Restrict` and `InsertIfAbsent` compare exactly. So two ids or names that differ only in case or trailing spaces, such as `NY` and `ny`, or `Cook` and `COOK`, are two rows in the model but one row in the database.
- A failed statement is taken to have had no effect: `Run`, `RunSingle`, `RunKeepsCompletedWrites` and the `Store` methods (their `!ok ==> unchanged` clauses) change no table at a fault. The source's `client.execute(...).await?` (dataloader/src/main.rs:122-123, 133, 272-273, 293, 302) can also fail after the server has executed and committed the statement, for instance when the connection drops after `COMMIT TRANSACTION` (dataloader/src/main.rs:118). The model does not track such a write for the run itself. `LostReplyTables`, `RunLostReply` and `LoaderConvergesAfterLostReply` cover it: the tables are those of another run of the same plan, and the fault-free re-run still gives the fault-free result.
- Isolation and concurrency are left out. The `BEGIN TRANSACTION ... WITH (UPDLOCK, SERIALIZABLE) ... COMMIT` around each upsert (dataloader/src/main.rs:108-118) is modelled as one atomic statement. The model has no concurrent loader runs or other clients: statements take effect one at a time, in the order sent.
- The model of how the server reads the prune's id list knows no `''` escape. Ids with a quote are outside the load lemmas (`NoQuotes`); the source would splice them into the SQL unescaped.
- Server.SortBy: does not state that Rust's `sort_by` is stable. The model sorts by insertion and proves the result ordered and a permutation only.
- Server.SortItems: does not state stability, as for `Server.SortBy`.
- Server.GetImageSources: does not state that items with equal ids keep their order, as for `Server.SortBy`.
- Server.GetStates: does not state that items with equal ids keep their order, as for `Server.SortBy`.
- Server.GetCounties: does not state that items with equal ids keep their order, as for `Server.SortBy`.
- Server.GetProjects: does not state that items with equal ids keep their order, as for `Server.SortBy`.
- Server.GetManufacturers: does not state that items with equal ids keep their order, as for `Server.SortBy`.
- Server.GetModels: does not state that items with equal ids keep their order, as for `Server.SortBy`.
- Server.GetTurbines: does not state that items with equal ids keep their order, as for `Server.SortBy`.
- chrono's `%Y` is taken as the year zero-padded to four digits, with a sign only when the year is negative or above 9999. `%m` and `%d` are taken as two digits.
- The repository's queries are left out. The snapshot of `rustworkspace/repository/src/lib.rs` is older than the server. It has no `error` module and defines only `open`, `get_all_image_sources`, `get_image_source` and `update_image_source`, each failing with a `Box<dyn Error>`, with `get_image_source` returning `Result<Option<ImageSource>, Box<dyn Error>>`. The states, counties, projects, manufacturers, models and turbines queries the server calls are not in it. So each handler takes the server's view of the repository call, a `Result` with a `repository::error::Error`, as a parameter. The column order of each `SELECT` is taken from the decoder's indices.
- The Rocket framework is left out: routing, JSON, the mutex around the repository, `rocket()` and `main`, the `index` route and the `From<rocket::Error>` conversion's message.
- `repository/src/models.rs` and `rocketserver/src/main.rs` outside `rustworkspace/` are an older copy and a demo server. They are not modelled.
