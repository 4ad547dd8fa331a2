# golang-reorder: a verified model of the SQL text builders and the list reorder

This project models two parts of the golang-reorder service in Dafny and proves properties of them.

The first part is the PostgreSQL/TimescaleDB driver in `drivers/sql`. It turns a `Rows` value (schema, table, ordered fields, value tuples) into statement text. The model covers:

- the string builders `buildFieldsString`, `buildValuesString`, `buildOnConstrainString` and `buildReturningClause`;
- the statements that `BuildInsertQuery`, `Insert`, `Upsert`, `Delete`, `DeleteByID`, `Update`, `CreateTable`, `createHyperTable` and `CreateIndex` hand to the database;
- the retention branch of `DeleteValuesFromInterval`;
- the per-field query lists of the batch readers;
- the historian query and its `HistoricWhere` fragments;
- the predicates `isString` and `isJSON`, and the length check of `Unmarshal`.

The templates of `drivers/sql/queries.go` are Dafny functions that fill their verbs the way `fmt.Sprintf` does. `%q` is `strconv.Quote`: its escapes are modelled exactly for runes below U+0100. The database is not modelled. Each operation returns the call it makes: `Exec(sql)` for a statement, `Query(sql)` when rows come back. Go panics are error results:

- indexing past the fields;
- a type assertion on a `Text`/`Double` value;
- `args[0]` in `Update` when it is given no arguments.

The second part is the application-list repository in `pkg/repository`. The `application_lists` table is a sequence of `(user_id, application_id, position)` rows held by an `ApplicationLists` object. The statements of `constants.go` are applied to it the way PostgreSQL would apply them. `ReorderApplicationList` runs those statements in the code's order on that object. Lemmas then characterise the resulting table row by row. `GetAllUsers` scans a query result into users.

Modules:

| file | module | contents |
|---|---|---|
| common.dfy | Common | `Option`/`Result`, `Join`, `strings.TrimRight` as a cutset trim, decimal text, `strconv.Atoi`, `%q` quoting |
| queries.dfy | Queries | the templates, `HistoricWhere`, and a structured reading of the WHERE fragments |
| sqltypes.dfy | SqlTypes | `Datatype`, `Field`, `Value`, `Rows`, the literal of a value per column kind, `isString`/`isJSON`, `Unmarshal` |
| builders.dfy | SqlBuilders | the four builders as loops, proved equal to reference renderings |
| driver.dfy | SqlDriver | insert, upsert, delete, update and the schema statements |
| timeseries.dfy | SqlTimeSeries | retention, batch query lists and the historian query |
| repository.dfy | Repository | the `application_lists` table, `ReorderApplicationList` and `GetAllUsers` |

`QuoteString` is called by `Delete`, `Update` and `buildValuesString`, but its definition is not part of this model. It is a parameter `quote: string -> string` everywhere it is used.

## Model

| member | source | states |
|---|---|---|
| Common.TrimRight | drivers/sql/sql.go:858 | the result is a prefix of the input; only cutset characters were removed; its last character is outside the cutset |
| Common.AtoiReadsIntText | drivers/sql/sql.go:506-508 | every 64-bit integer written in decimal (as strconv.Itoa writes it) reads back through Atoi as itself |
| Common.AtoiAcceptsOnlySignAndDigits | drivers/sql/sql.go:819-824 | whatever Atoi accepts consists of an optional leading sign and digits |
| Common.GoEscape | drivers/sql/queries.go:17 | the `%q` body is at least as long as the text, and equals it when the text is printable ASCII without `"` or `\` |
| Common.GoEscapePrintable | drivers/sql/queries.go:17 | no unprintable rune survives `%q`: controls become `\a`..`\v`, `\xNN` or `\u00NN` |
| Common.GoEscapeRoundTrip | drivers/sql/queries.go:17 | reading the escapes back gives the text again, so `%q` loses nothing |
| Common.GoQuote | drivers/sql/queries.go:17 | `%q` output is a double quote, the escaped text, and a double quote |
| Common.GoQuoteInjective | drivers/sql/queries.go:17 | distinct constraint names give distinct `%q` texts |
| Queries.Ordinal | drivers/sql/queries.go:33-41 | each of the five kinds has the iota number below 5 |
| Queries.FromOrdinal | drivers/sql/queries.go:33-41 | a uint8 names a kind exactly when it is below 5, and names the kind with that number |
| Queries.OrdinalRoundTrip | drivers/sql/queries.go:33-41 | number then kind gives back the kind |
| Queries.WhereFragmentRendersConditions | drivers/sql/queries.go:22-26 | every WHERE fragment is exactly the rendering of its kind's time conditions |
| Queries.WhereSemantics | drivers/sql/queries.go:22-26 | TimeSlot admits start < t < end; EqStart admits start <= t < end; EqEnd admits start < t <= end; TimeLess admits t > start; TimeGreater admits t < start (the names are the reverse of the operators); end is unused by the one-bound kinds |
| SqlTypes.DatatypeNameRoundTrip | drivers/sql/sql.go:17-43 | a Datatype is its name: converting a name and naming a Datatype are inverse, so a known spelling is always its named kind |
| SqlTypes.Literal | drivers/sql/sql.go:869-896 | nil is NULL for every kind but Double; Timestamp/Text/JSONB/UUID give `'quote(v)'`; Blob gives `E'` + the `%s` text + `'` (`%!s(int=5)` for an int); NaN and the infinities are single-quoted; finite doubles are bare; a non-string value in a quoted column and anything but a float in a Double column panic |
| SqlTypes.IsStringIffBrace | drivers/sql/sql.go:819-831 | isString(s) holds exactly when s contains `{` |
| SqlTypes.Unmarshal | drivers/sql/sql.go:259-270 | it fails exactly when the lengths differ, with "source and destination doesn't match"; otherwise each non-nil source value replaces its destination and a nil one leaves it |
| SqlBuilders.TrimTerminated | drivers/sql/sql.go:848-859 | trimming ", " off parts each followed by ", " leaves the parts joined by ", ", when the last part ends outside the cutset |
| SqlBuilders.QuotedNames | drivers/sql/sql.go:848-859 | one double-quoted name per field, in field order |
| SqlBuilders.BuildFieldsString | drivers/sql/sql.go:848-859 | the result is `(` + the quoted names joined by ", " + `)`; an empty field list gives `()` |
| SqlBuilders.BuildReturningClause | drivers/sql/sql.go:835-844 | the bare names joined by ", ", after the cutset trim; no fields give ""; when the last name ends outside the cutset it is exactly the names joined by ", " |
| SqlBuilders.Assignments | drivers/sql/sql.go:909-927 | every assignment is `"f"=EXCLUDED."f"` for a field other than the constraint column; with no field named like the constraint there is one per field |
| SqlBuilders.OnConstrainStep | drivers/sql/sql.go:915-923 | each field writes its assignment and ", ", except the constraint column, which writes nothing |
| SqlBuilders.BuildOnConstrainString | drivers/sql/sql.go:909-927 | the result is the assignments joined by ", " |
| SqlBuilders.RowLiterals | drivers/sql/sql.go:869-896 | a tuple renders exactly when it is no longer than the fields and every entry has a literal for its column's kind; the i-th literal is the entry's literal for field i; an error is one of the two panics |
| SqlBuilders.RowLiteralsStops | drivers/sql/sql.go:869-896 | the first failing entry decides the tuple's error |
| SqlBuilders.AllLiteralsRows | drivers/sql/sql.go:866-903 | the rows render exactly when every row does, with one literal row per value row, each the literals of its tuple |
| SqlBuilders.AllLiteralsStops | drivers/sql/sql.go:866-903 | the first failing row decides the error |
| SqlBuilders.RowLiteralsStep | drivers/sql/sql.go:869-896 | one more entry either panics past the last field, stops the tuple with its literal's failure, or appends its literal |
| SqlBuilders.AllLiteralsStep | drivers/sql/sql.go:866-903 | one more tuple appends its literal row, or its panic becomes the panic of the rows so far |
| SqlBuilders.WriteTuple | drivers/sql/sql.go:869-900 | the inner loop writes each literal followed by ", ", or stops with the panic of the first bad entry |
| SqlBuilders.BuildValuesString | drivers/sql/sql.go:863-905 | the loop, with its per-row trim and its final trim of ", (", computes the values text, or the first panic |
| SqlBuilders.ValuesStringOfCleanRows | drivers/sql/sql.go:863-905 | when every row's literals survive the trim, the values text is one parenthesised tuple per row, literals joined by ", ", tuples joined by ", " |
| SqlDriver.BuildInsertQuery | drivers/sql/sql.go:272-291 | `INSERT INTO <schema>."<table>" <quoted columns> VALUES <values>`, with `public` for an empty schema, plus ` returning <bare names>` only when returned fields are given; it fails exactly when the values do, with their panic |
| SqlDriver.Insert | drivers/sql/sql.go:755-782 | without returned fields the insert is executed; with them the values are followed by ` returning ` and the quoted column list of the returned fields, run as a query |
| SqlDriver.InsertOfCleanRows | drivers/sql/sql.go:755-782 | for clean rows the values part is the parenthesised tuples joined by ", ", and zero rows give "" |
| SqlDriver.Upsert | drivers/sql/sql.go:785-800 | the upsert on `"<table>"` (the schema is not used), ON CONFLICT on the `%q` constraint, and the EXCLUDED assignments |
| SqlDriver.AssignmentsCover | drivers/sql/sql.go:909-927 | every field not named like the constraint has its assignment |
| SqlDriver.UpsertKeepsConstraintColumn | drivers/sql/sql.go:909-927 | the constraint column is never assigned, and every other field is |
| SqlDriver.ExcludedInjective | drivers/sql/sql.go:909-927 | distinct column names give distinct assignments |
| SqlDriver.Delete | drivers/sql/sql.go:510-520 | an executed `delete from <table> where <column> = ` followed by the QuoteString of the value and nothing else: the quoted value is all that follows ` = ` |
| SqlDriver.DeleteDeterminesValue | drivers/sql/sql.go:510-520 | on one table and column, two deletes are the same statement exactly when the quoted values are |
| SqlDriver.DeleteById | drivers/sql/sql.go:504-508 | the delete on column "id" with strconv.Itoa's decimal text of the id, which Atoi reads back as the id |
| SqlDriver.GoDecision | drivers/sql/sql.go:531-554 | quoting a cell unless it holds `{` is exactly isString's decision |
| SqlDriver.BuildUpdate | drivers/sql/sql.go:527-557 | with an odd count of at least five, the assignments `c = v` are joined by ", " and followed by ` where <key> = <value>`; otherwise every complete pair is followed by ", " and there is no WHERE |
| SqlDriver.QuoteArgs | drivers/sql/sql.go:524-526 | every argument is replaced in place by its QuoteString, in the same slot, and nothing else changes |
| SqlDriver.Update | drivers/sql/sql.go:523-560 | every argument is replaced by its QuoteString in place; no arguments panic; otherwise the statement is the closed form of BuildUpdate with isString's quoting |
| SqlDriver.UpdateOneColumn | drivers/sql/sql.go:523-560 | `[t, c, v, k, kv]` gives `update t set c = 'v' where k = kv` |
| SqlDriver.UpdateThreeArgsHasNoWhere | drivers/sql/sql.go:523-560 | `[t, c, v]` gives `update t set c = 'v', ` with no WHERE |
| SqlDriver.FieldDefs | drivers/sql/sql.go:651-661 | one definition per constraint name for a field, or one when there are none |
| SqlDriver.ColumnDefsCount | drivers/sql/sql.go:651-661 | the table body holds fields × max(1, constraints) definitions |
| SqlDriver.WriteFieldDefs | drivers/sql/sql.go:651-658 | the inner loop writes each of the field's definitions followed by ", " |
| SqlDriver.TableDefinitionJoins | drivers/sql/sql.go:647-663 | the body after the trim is the definitions joined by ", " in parentheses |
| SqlDriver.CreateHyperTable | drivers/sql/sql.go:677-686 | the executed `SELECT create_hypertable('"<table>"','Time',chunk_time_interval => interval '1 days',if_not_exists => TRUE)`: the double-quoted table, partitioned on Time in one-day chunks, a no-op for an existing hypertable |
| SqlDriver.CreateHyperTableInjective | drivers/sql/sql.go:677-686 | distinct tables give distinct create_hypertable calls |
| SqlDriver.CreateTable | drivers/sql/sql.go:641-675 | the create statement on the definitions, then for a time series the create_hypertable call |
| SqlDriver.ColumnDefsDuplicateColumns | drivers/sql/sql.go:651-658 | with constraints ["a", "b"], column "a" is defined twice |
| SqlDriver.IntendedColumnDefs | drivers/sql/sql.go:651-658 | one definition per field, in order, unique when the name is a constraint |
| SqlDriver.ColumnDefsAgree | drivers/sql/sql.go:651-661 | with at most one constraint name the written definitions are the intended ones |
| SqlDriver.CreateIndex | drivers/sql/sql.go:689-708 | `CREATE INDEX IF NOT EXISTS "i" ON "t" ("c1", "c2")` with the columns in order |
| SqlTimeSeries.RetentionStatementsDiffer | drivers/sql/queries.go:10-11 | helper for DeleteValuesFromInterval: the two retention branches issue different statements, so the branch taken is visible in the call |
| SqlTimeSeries.DeleteValuesFromInterval | drivers/sql/sql.go:711-752 | drop_chunks runs exactly when the probe's last row is non-empty and the table is a hypertable; otherwise the plain interval delete runs |
| SqlTimeSeries.AppendQueries | drivers/sql/sql.go:930-978 | the loop appends one query per field name, in order |
| SqlTimeSeries.GetLatestValue | drivers/sql/sql.go:930-937 | one latest-value query per field, in field order |
| SqlTimeSeries.GetTimeSeriesValues | drivers/sql/sql.go:940-950 | one BETWEEN query per field, in field order |
| SqlTimeSeries.GetDownSampledValues | drivers/sql/sql.go:953-964 | one time_bucket query per field, in field order |
| SqlTimeSeries.GetInterpolatedValues | drivers/sql/sql.go:967-978 | one gap-filled query per field, in field order |
| SqlTimeSeries.PerFieldDistinct | drivers/sql/sql.go:930-978 | distinct field names get distinct queries when the template tells fields apart |
| SqlTimeSeries.LatestValueQueryInjective | drivers/sql/queries.go:13 | the latest-value template tells fields apart |
| SqlTimeSeries.TimeSeriesQueryInjective | drivers/sql/queries.go:15 | the BETWEEN template tells fields apart |
| SqlTimeSeries.DownSampledQueryInjective | drivers/sql/queries.go:16 | the time_bucket template tells fields apart |
| SqlTimeSeries.InterpolatedQueryInjective | drivers/sql/queries.go:19 | the gap-filled template tells fields apart |
| SqlTimeSeries.HistorianQuery | drivers/sql/sql.go:1003-1039 | the query starts with the select of the field from the table and ends with `;` (the full text is HistorianQueryFilters and HistorianQueryUnknownKind) |
| SqlTimeSeries.HistorianQueryFilters | drivers/sql/sql.go:1003-1039 | select, then exactly the kind's time conditions, the not-null filter, ASC or DESC, ` LIMIT n` only when n > 0, then `;` |
| SqlTimeSeries.HistorianQueryUnknownKind | drivers/sql/sql.go:1011-1022 | a number naming no kind writes no WHERE: the not-null filter follows the table name |
| SqlTimeSeries.HistorianLimitReadsBack | drivers/sql/queries.go:21 | the limit text reads back as the limit |
| Repository.MaxPositionOf | pkg/repository/constants.go:14 | MAX(position) over the user's rows: none exactly when the user has no row, otherwise at least the position of every row of the user |
| Repository.MaxPositionAttained | pkg/repository/constants.go:14 | when there is a maximum, some row of the user sits at it |
| Repository.Matching | pkg/repository/constants.go:13 | only rows of this user and application; empty exactly when the table has none |
| Repository.MatchingIn | pkg/repository/constants.go:13 | every match is a row of the table |
| Repository.ApplicationLists.QueryItem | pkg/repository/postgres.go:100 | the SELECT returns the matching rows and changes nothing |
| Repository.ApplicationLists.InsertItem | pkg/repository/postgres.go:102 | an accepted INSERT appends the row `(user, app, position)`; a refused one leaves the table as it was |
| Repository.ApplicationLists.SetItemPosition | pkg/repository/constants.go:16 | the UPDATE moves the user's rows at `from` to `to` and leaves the rest |
| Repository.ApplicationLists.ShiftItemsDown | pkg/repository/constants.go:17 | every row of every user (the `user_id = user_id` filter) with from < position <= to goes down by one position |
| Repository.ApplicationLists.ShiftItemsUp | pkg/repository/constants.go:18 | every row of every user (the `user_id = user_id` filter) with from <= position < to goes up by one position |
| Repository.ApplicationLists.PrepareItem | pkg/repository/postgres.go:92-114 | the maximum, the lookup, the INSERT of a new item at max+1 and the clamp of the desired position leave the table and position that Prepare describes, and return the matching rows |
| Repository.ApplicationLists.MoveItem | pkg/repository/postgres.go:116-138 | an item already at the desired position leaves the table alone; otherwise park, shift and set relocate it |
| Repository.ApplicationLists.QueryMaxPosition | pkg/repository/postgres.go:92-98 | maxPosition is the user's maximum, or 0 when the MAX is NULL |
| Repository.ApplicationLists.ReorderApplicationList | pkg/repository/postgres.go:91-141 | the table and the error after the method are those of Reorder on the table before it |
| Repository.RelocateMovesRows | pkg/repository/constants.go:16-18 | park, shift, set: the item lands on d, and rows between move one step towards the gap |
| Repository.RelocateBelowOne | pkg/repository/constants.go:16-18 | a move to 0 or below, with every row in reach at 1 or above: the parked item is caught by the upward shift and lands on 1, so the statements act as a move to 1 |
| Repository.ReorderExisting | pkg/repository/postgres.go:110-139 | an item already listed lands on min(desired, max); every row between its old and new place moves one step, whoever it belongs to |
| Repository.ReorderNew | pkg/repository/postgres.go:100-139 | a new item is appended at max+1 (max 0 for no rows) and moved to min(desired, max+1) |
| Repository.ReorderBelowOne | pkg/repository/postgres.go:91-139 | a desired position of 0 or below (Go's zero value when the request leaves it out) has exactly the effect of 1 when every row the shifts reach is at 1 or above, for existing and new items and in both shift scopes |
| Repository.ReorderKeepsPositive | pkg/repository/postgres.go:100-139 | a reorder of a table whose rows are all at 1 or above leaves them all at 1 or above, whatever the desired position |
| Repository.ReorderRefused | pkg/repository/postgres.go:100-109 | a refused INSERT leaves the table unchanged and returns "unable to add application to list" |
| Repository.ReorderInPlace | pkg/repository/postgres.go:123 | when the item already sits at the clamped position, no UPDATE runs |
| Repository.ReorderShiftsOtherUsers | pkg/repository/constants.go:17-18 | moving user 1's item shifts user 2's row |
| Repository.ReorderIntendedKeepsOthers | pkg/repository/constants.go:17-18 | with the shift restricted to the caller, no other user's row changes |
| Repository.ReorderIntendedExisting | pkg/repository/postgres.go:110-139 | the restricted version moves the caller's rows as the source does and nothing else |
| Repository.UsersOf | pkg/repository/postgres.go:26-38 | one user per row, in row order, from the row's id and name (a nil keeps the zero value); any row without exactly two columns fails the read |
| Repository.UsersOfFails | pkg/repository/postgres.go:26-38 | the first row that fails to scan decides the error |
| Repository.GetAllUsers | pkg/repository/postgres.go:17-40 | a failed query is passed on; no rows give nil; otherwise the users of the rows or the first scan error |

## Left out

- The connection pool, transactions, `Copy` and the batch and cursor machinery are not modelled: they are pgx calls and goroutines. Query answers are parameters: the TimescaleDB probe rows, the hypertable names, the users rows, and whether the database accepts an INSERT.
- Statement execution errors are not modelled. Only the texts and the calls are.
- Timestamp formatting (`time.Time`, `AppendFormat`, UTC) is not modelled: start and end are already formatted texts.
- Float formatting is not modelled. A double is `Finite(text) \| NaN \| PosInf \| NegInf`, and the `%v` and `%s` texts of values other than strings, integers and doubles are given with the value.
- `Unmarshal`'s reflective assignment is modelled as "a non-nil source value replaces the destination". Go's type conversion, and its panic on a type mismatch, are not modelled.
- `QuoteString` is not part of this model. It is a parameter.
- Integers are unbounded. Positions and `maxPosition+1` do not wrap at 32 bits. `days`, `limit` and the `HistoricWhere` number carry their Go ranges as preconditions.
- The aggregate historian functions return nil, nil and have no logic. `extractRowsFromPgxRows`, `GetTablesName`, `GetFields` and `getTableFromOID` are library plumbing.
- The statement texts of `constants.go` are not rendered. Their effect on the table is modelled instead.
- Repository.Matching: the table order stands for the unspecified row order of a SELECT without ORDER BY.
- Repository.ReorderExisting: requires the user's rows at 1 or above and desired >= 1. ReorderBelowOne turns a desired position of 0 or below into 1. ReorderKeepsPositive shows that reorders keep rows at 1 or above. A table that already holds a row at 0 or below is not characterised, because the parking position 0 then collides with it.
- Repository.ReorderNew: the same restriction and the same coverage as ReorderExisting.
- Repository.RelocateMovesRows: stated for a move between positions of at least 1, with the user's rows at 1 or above. RelocateBelowOne covers a target of 0 or below. A row already at 0 or below is not characterised.
- Repository.ReorderIntendedExisting: the same restriction as ReorderExisting. ReorderBelowOne covers desired <= 0 for the caller-only scope as well.
- SqlBuilders.BuildReturningClause: its reference form holds only when the last returned name does not end in `,` or ` `. Otherwise only the trimmed text is stated.
- SqlBuilders.ValuesStringOfCleanRows: the tuple form is proved for rows whose last literal survives the trim. Other rows are covered only by the exact fold that BuildValuesString computes.
- SqlDriver.Update: an even argument count drops the last argument, and fewer than five arguments give no WHERE. Both are modelled as written, not corrected.
- Common.GoEscape: runes from U+0100 on pass unchanged. strconv.Quote escapes the unprintable ones among them as `\uNNNN` or `\UNNNNNNNN`, following a Unicode table that is not modelled.
- SqlTypes.Literal: an integer cell stands for a Go `int`, so a Blob column writes `%!s(int=…)`. A Go value of another integer width names its own type there. Any further value kind carries its `%v` and `%s` texts as given.
- The console output is not modelled: `print("down")` and `print("up")` in ReorderApplicationList (pkg/repository/postgres.go:129,132), and `fmt.Println` of the two time texts in GetInterpolatedValues (drivers/sql/sql.go:972-973).
- The handlers, services, `cmd/main.go` and the other repository methods are thin glue and are not modelled.

## Findings

| source | as written | input that shows it | evidently intended | confidence | as-written member | corrected member |
|---|---|---|---|---|---|---|
| drivers/sql/sql.go:651-658 | each field is defined once per constraint name | fields [a integer], constraints ["a", "b"] give `"a" integer not null unique, "a" integer` | one definition per field, unique when its name is a constraint | high; not executed | SqlDriver.ColumnDefsDuplicateColumns | SqlDriver.IntendedColumnDefs |
| pkg/repository/constants.go:17-18 | the shifts filter on `user_id = user_id`, which holds for every row | rows (1,10,1), (1,11,2), (2,20,1); user 1 moves application 11 to position 1; user 2's row moves to 2 | `user_id = '%d'` with the caller's id | high; not executed | Repository.ReorderShiftsOtherUsers | Repository.ReorderIntendedKeepsOthers |
