# QueryWise core in Dafny

QueryWise is a Next.js front end for querying a MySQL database. A user
can build a filtered `SELECT` by hand, or describe it in plain English.
In the English case, a language-model flow first validates the request,
then translates it into a table plus WHERE conditions, and the app runs
that. This project models the logic around the database and the language
model:

- `Actions` covers the server actions. It models the parameterised SELECT
  builder behind `executeQueryAction` and the empty-list fallbacks of the
  catalog fetches. It also models the schema shaping that `validateQueryAction`
  and `generateSqlAction` hand to the flows.
- `DbMock` covers the constant schema registry (tables, columns and sample
  rows). It also covers `columnDescriptionsForAI` and its nested loops that
  fill a map.
- `ManualBuilder` covers the manual builder. The pure clause-list transforms
  (change, add, remove, filter) are modelled as functions. The component,
  whose state fields its handlers and effects overwrite, is a class.
- `HomePage` covers the page's shared query state and the handlers the
  components report through.
- `AiQuery` covers the AI tool's `handleGenerateAndRun` decision chain.
- `DataDisplay` covers panel selection, header labels, cell texts and the
  download guard of the results panel.
- `Callbacks` holds what the components pass to the page (`onQueryStart`,
  `onQueryResult`, `onTableChange`) and the calls they make to the actions.
- `Common` holds the shared values: rows, options, results, joining, and
  the decimal text of numbers.

Some things are parameters rather than modelled code:

- The database (`query(sql, params)`) is a function parameter.
- The catalog lookups and both flows are given as their outcomes: a value,
  or what they threw.
- A component handler returns the sequence of callback and action calls it
  makes (`Callbacks.Event`). The page's handlers are methods on `HomePage.Home`.

The important specification functions carry no `ensures` of their own, so
they are stated here rather than in the table:

- `Actions.SelectText` is the statement text.
- `Actions.Params` is the bind list.
- `Actions.ExecuteOutcome` is what an execution settles to.
- `Actions.FailureMessage` is the message `executeQueryAction` rethrows
  with (src/lib/actions.ts:75). It is "Database query failed: " followed
  by the error's message, or by "Unknown error" for a non-Error value.
- `Actions.DescribeColumns` is one table's entry in the translator's
  description map (src/lib/actions.ts:103). It is the "name (type)"
  labels of the columns in catalog order, joined by ", ".
- `DbMock.Descriptions` is the description map.
- `ManualBuilder.AppendClause` is the update `addClause` applies
  (src/components/query-wise/manual-query-builder.tsx:106). It appends a
  default clause; `AppendKeepsPrefix` and `RemoveUndoesAppend` state what
  it does.
- `HomePage.OrderColumnChoices` is the order picker's options
  (src/app/page.tsx:58, 102). They are the keys of the first result row,
  and there are none for a null or empty result.
- `HomePage.OrderAfterData` is the order column kept when data arrives
  (src/app/page.tsx:33-35). `OrderAfterDataInResult` and
  `OrderKeptIffPresent` state what it keeps.
- `AiQuery.RunTrace` and `AiQuery.AfterTranslation` are the calls a run makes.
- `AiQuery.SqlAfter` is the SQL shown after a run.
- `DataDisplay.RenderContent` is the panel.
- `DataDisplay.Columns` is the table's column list
  (src/components/query-wise/data-display.tsx:17). It is the keys of the
  first row, and empty for a null or empty result.
- `DataDisplay.CellText` is `String(row[col])`
  (src/components/query-wise/data-display.tsx:79). It is "undefined" for a
  missing key and "null" for SQL NULL. A number is printed as its decimal
  text, and text is shown as it is.
- `DataDisplay.DecimalText` is `String(x)` for a number given in
  hundredths. `WholeDecimalText` and `FractionalDecimalText` state what it
  prints.
- `DataDisplay.ShowDownload` is the download button's guard
  (src/components/query-wise/data-display.tsx:97). The result must be
  present and non-empty. `TableOffersDownload` relates it to the table panel.

- `Actions.TablesOrEmpty` and `Actions.ColumnsOrEmpty` are the empty
  fallbacks of `getTablesAction` and `getTableColumnsAction`
  (src/lib/actions.ts:8-37). `FailedFetchLooksEmpty`,
  `ValidateQueryAction`, `GenerateSqlAction` and
  `ManualQueryBuilder.FetchTables` state what they mean to a caller.
- `ManualBuilder.SetField` is `{ ...clause, [field]: value }`
  (src/components/query-wise/manual-query-builder.tsx:100), read back through
  `ManualBuilder.FieldOf`. `SetFieldLaws` and `ChangeClauses` state what it
  does.
- `ManualBuilder.ToWhereClauses` and `AiQuery.ToWhereClauses` are the
  conditions as `executeQueryAction` receives them. `SentConditions`,
  `WhereClausesIgnoreIds`, `HandleRunQuery`, `TranslatedConditionsLikeManual`
  and `ExecutesTranslation` state what is sent.
- `Callbacks.Delivered` is `{ data }` or `{ error: e.message }` for a settled
  execution, and `Callbacks.MessageOf` is `e.message`.
  `DeliveredSettlesPage`, `FlowFailureShown`, `RunReportsOnce`,
  `ValidationFailureStops` and `FetchColumnsAndInitialData` state what is
  reported.
- `DataDisplay.DownloadRows` is the rows `handleDownload` writes
  (src/components/query-wise/data-display.tsx:19-26).
  `TableOffersDownload` relates it to the table on screen.

The methods are proved equal to these functions. The lemmas state what the
functions mean.

## Model

| member | source | states |
|---|---|---|
| Actions.FailedFetchLooksEmpty | src/lib/actions.ts:8-37 | a failed table or column fetch reads exactly as an empty catalog (no tables, no columns, an empty description, the same validation input), and a successful fetch is passed on unchanged |
| Actions.MapClause | src/lib/actions.ts:51-59 | a LIKE clause yields the fragment "`col` LIKE ?" and the parameter "%v%"; any other operator is copied verbatim into "`col` op ?" with v as the parameter |
| Actions.MapClauses | src/lib/actions.ts:50-60 | the clause loop yields exactly one fragment and one parameter per clause, in clause order |
| Actions.BuildSelect | src/lib/actions.ts:45-69 | the statement grown by `+=` equals SelectText: head, then WHERE, then ORDER BY, then LIMIT; the parameter list is Params |
| Actions.ExecuteQueryAction | src/lib/actions.ts:45-76 | the result is the database's rows for the built statement and parameters; a failure is rethrown as "Database query failed: " plus the message, or plus "Unknown error" for a non-Error value |
| Actions.EmptyClausesNoWhere | src/lib/actions.ts:47-61 | with no clauses there is no parameter, and the statement is the SELECT head followed directly by the ORDER BY and LIMIT parts |
| Actions.ConditionHasOnePlaceholder | src/lib/actions.ts:52-58 | a condition fragment holds exactly one `?`, and it is the fragment's last character |
| Actions.WherePartCount | src/lib/actions.ts:50-60 | the WHERE part holds exactly one `?` per clause |
| Actions.FixedPartsHaveNoPlaceholder | src/lib/actions.ts:47-69 | the head, ORDER BY and LIMIT parts hold no `?` when the interpolated identifiers hold none |
| Actions.PlaceholdersMatchParams | src/lib/actions.ts:50-60 | when no table, column, operator or order name contains `?`, the statement holds exactly as many `?` placeholders as there are bind parameters |
| Actions.ValuesNeverInSql | src/lib/actions.ts:51-60 | two requests that differ only in clause values produce the same statement text, so values reach only the parameters |
| Actions.DefaultLimitText | src/lib/actions.ts:45 | an omitted limit prints as " LIMIT 100" |
| Actions.DefaultSuffixes | src/lib/actions.ts:45-69 | with limit and direction omitted, the statement ends with " ORDER BY `c` ASC" exactly when the order column is non-empty, followed by " LIMIT 100" |
| Actions.LimitText | src/lib/actions.ts:67-69 | a zero limit adds no LIMIT part; a positive limit is printed as digits that read back as the same number |
| Actions.BindCondition | src/lib/actions.ts:52-58 | binding a parameter into a condition places it, quoted, after the condition's head |
| Actions.BindJoined | src/lib/actions.ts:51-60 | binding the parameters into the AND-joined fragments gives the AND-joined conditions, each with its own value |
| Actions.BindWherePart | src/lib/actions.ts:50-60 | binding the parameters into the WHERE part gives the WHERE part of the bound conditions |
| Actions.BindingsFillPlaceholdersInOrder | src/lib/actions.ts:50-71 | when no table, column, operator or order name contains `?`, binding Params into the statement, left to right, puts the i-th clause's value into the i-th condition |
| Actions.ValidateQueryAction | src/lib/actions.ts:79-92 | the validator is given the request, the expected output and the fetched table names joined by ", ", which is "" when the listing failed or is empty |
| Actions.GenerateSqlAction | src/lib/actions.ts:94-110 | the translator gets the fetched table names, and a description map keyed by exactly those names; each entry is "name (type)" per column in catalog order, joined by ", ", with no columns when a fetch failed |
| DbMock.FillDescriptions | src/lib/db-mock.ts:29-39 | the nested loops build exactly Descriptions: for each listed name with a registry entry, each column's "table.column" key is set to its description |
| DbMock.ColumnDescriptionsForAI | src/lib/db-mock.ts:29-39 | the map for the constant registry; empty for an empty name list |
| DbMock.KeySplit | src/lib/db-mock.ts:34 | a "table.column" key with a dot-free table name determines both the table and the column |
| DbMock.ColumnEntriesKeys | src/lib/db-mock.ts:33-35 | the keys one table writes are exactly "table.c" for its columns c |
| DbMock.ColumnEntriesValue | src/lib/db-mock.ts:33-35 | with distinct column names, each column's key holds that column's description |
| DbMock.DescriptionKeys | src/lib/db-mock.ts:29-39 | a key is in the map iff it is "t.c" for a listed t that has a registry entry and a column c of t |
| DbMock.DescriptionValue | src/lib/db-mock.ts:34 | the value under "t.c" is the description of column c of t |
| DbMock.UnregisteredNameAddsNothing | src/lib/db-mock.ts:32 | a name without a registry entry adds no key |
| DbMock.SameNamesSameDescriptions | src/lib/db-mock.ts:31-36 | repeating or reordering the names leaves the map unchanged |
| DbMock.RegistryWellFormed | src/lib/db-mock.ts:7-27 | registry table names contain no dot, and column names are distinct within each table |
| DbMock.EveryTableHasColumnsAndData | src/lib/db-mock.ts:1-61 | every listed table has columns and data, and no other name has either |
| DbMock.UserRowsMatch | src/lib/db-mock.ts:8-47 | every users row has exactly the declared users column names, in order |
| DbMock.ProductRowsMatch | src/lib/db-mock.ts:14-53 | every products row has exactly the declared products column names, in order |
| DbMock.OrderRowsMatch | src/lib/db-mock.ts:20-60 | every orders row has exactly the declared orders column names, in order |
| DbMock.RowsMatchColumns | src/lib/db-mock.ts:7-61 | data and columns cover the same tables, and every row of a table has exactly that table's column names in declared order |
| ManualBuilder.SetFieldLaws | src/components/query-wise/manual-query-builder.tsx:97-103 | setting a field writes that field only: the row shows the new value there and its old values elsewhere, the id is kept, writing back the shown value changes nothing, and a later write wins |
| ManualBuilder.ChangeClauses | src/components/query-wise/manual-query-builder.tsx:97-103 | length, order and ids are kept; every clause with the id gets the field set, and every other clause is unchanged |
| ManualBuilder.RemoveClauses | src/components/query-wise/manual-query-builder.tsx:109-111 | removal never grows the list, and each survivor is an original clause without the id |
| ManualBuilder.ValidClauses | src/components/query-wise/manual-query-builder.tsx:121 | the sent clauses are original clauses with both a column and a value |
| ManualBuilder.SentConditions | src/components/query-wise/manual-query-builder.tsx:121-122 | every sent condition is the column, operator and value of a complete row, so no empty column and no empty bind value reaches the statement; one parameter per condition |
| ManualBuilder.WhereClausesIgnoreIds | src/components/query-wise/manual-query-builder.tsx:121-122 | the clause ids play no part in what is sent: lists differing only in ids send the same conditions |
| ManualBuilder.AppendKeepsPrefix | src/components/query-wise/manual-query-builder.tsx:105-107 | adding keeps the existing clauses and appends exactly one default clause with the new id |
| ManualBuilder.RemoveClausesAppend | src/components/query-wise/manual-query-builder.tsx:110 | removal distributes over concatenation, so survivors keep their order |
| ManualBuilder.RemoveClausesKeeps | src/components/query-wise/manual-query-builder.tsx:110 | every clause without the id survives |
| ManualBuilder.RemoveAbsentId | src/components/query-wise/manual-query-builder.tsx:110 | removing an id no clause has leaves the list unchanged |
| ManualBuilder.RemoveIdempotent | src/components/query-wise/manual-query-builder.tsx:110 | removing twice is the same as removing once |
| ManualBuilder.RemoveUndoesAppend | src/components/query-wise/manual-query-builder.tsx:105-111 | removing a just-added clause with a fresh id restores the list |
| ManualBuilder.RemoveClausesLength | src/components/query-wise/manual-query-builder.tsx:110 | removal drops exactly the clauses that carry the id |
| ManualBuilder.RemovalKeepsOne | src/components/query-wise/manual-query-builder.tsx:168 | with distinct ids, and the remove button enabled, a removal drops exactly one row and leaves at least one |
| ManualBuilder.ValidClausesAppend | src/components/query-wise/manual-query-builder.tsx:121 | the filter distributes over concatenation, so the sent clauses keep list order |
| ManualBuilder.ValidClausesKeeps | src/components/query-wise/manual-query-builder.tsx:121 | every complete clause is sent |
| ManualBuilder.ValidClausesKeepsComplete | src/components/query-wise/manual-query-builder.tsx:121 | a list of complete clauses is sent whole |
| ManualBuilder.ValidClausesIdempotent | src/components/query-wise/manual-query-builder.tsx:121 | filtering twice is the same as filtering once |
| ManualBuilder.OperatorVocabulary | src/components/query-wise/manual-query-builder.tsx:39 | seven distinct operators, with the default clause's `=` first |
| ManualBuilder.InitialSendsNothing | src/components/query-wise/manual-query-builder.tsx:45 | the initial one-clause list sends no condition, and its remove button is disabled |
| ManualBuilder.ManualQueryBuilder.constructor | src/components/query-wise/manual-query-builder.tsx:42-45 | no tables, no selection, no columns, and the single default clause with id 1 |
| ManualBuilder.ManualQueryBuilder.FetchTables | src/components/query-wise/manual-query-builder.tsx:49-55 | tables become the fetched list, or empty on failure; nothing else changes |
| ManualBuilder.ManualQueryBuilder.HandleTableChange | src/components/query-wise/manual-query-builder.tsx:93-95 | only the selected table changes |
| ManualBuilder.ManualQueryBuilder.FetchColumnsAndInitialData | src/components/query-wise/manual-query-builder.tsx:57-90 | with a table: start, one execution with no clauses and the current limit and order, then its result; columns are taken only on success; clauses reset. Without a table: a null result, columns and clauses cleared |
| ManualBuilder.ManualQueryBuilder.HandleClauseChange | src/components/query-wise/manual-query-builder.tsx:97-103 | the clause list becomes ChangeClauses of the old one; nothing else changes |
| ManualBuilder.ManualQueryBuilder.AddClause | src/components/query-wise/manual-query-builder.tsx:105-107 | a default clause keyed by the clock reading is appended; nothing else changes |
| ManualBuilder.ManualQueryBuilder.RemoveClause | src/components/query-wise/manual-query-builder.tsx:109-111 | the clause list becomes RemoveClauses of the old one; nothing else changes |
| ManualBuilder.ManualQueryBuilder.HandleRunQuery | src/components/query-wise/manual-query-builder.tsx:113-128 | no call without a selected table; otherwise start, one execution with the complete clauses in list order, then its result |
| Callbacks.DeliveredSettlesPage | src/app/page.tsx:27-39 | a settled `executeQueryAction` always reaches one of the page's two live branches: a failure as a truthy error carrying the rethrown message, a success as its rows with no error |
| Callbacks.FlowFailureShown | src/components/query-wise/ai-query-tool.tsx:89-90 | a flow failure shows as an error on the page iff an `Error` with a non-empty message was thrown; any other thrown value reports neither data nor error |
| HomePage.OrderAfterDataInResult | src/app/page.tsx:31-38 | after new data the order column is kept or cleared, and a kept one is a column of the new first row |
| HomePage.OrderKeptIffPresent | src/app/page.tsx:33-35 | a set order column is kept iff the data is empty or its first row has that key |
| HomePage.ClampRowLimit | src/app/page.tsx:88 | the stored limit is `max(1, n)`: the input when it is at least 1, and 1 otherwise |
| HomePage.Home.constructor | src/app/page.tsx:14-20 | limit 100, no order column, ascending, not loading, no error, and a null result |
| HomePage.Home.HandleQueryStart | src/app/page.tsx:22-25 | loading, error cleared, and rows, limit and order kept |
| HomePage.Home.HandleQueryResult | src/app/page.tsx:27-40 | an error nulls the rows; data replaces them, clears the error and drops a stale order column; a result with neither only clears loading; loading is always cleared |
| HomePage.Home.HandleTableChange | src/app/page.tsx:42-47 | limit 100, no order column, ascending; nothing else changes |
| HomePage.Home.SetRowLimit | src/app/page.tsx:88 | the stored limit is ClampRowLimit of the input |
| HomePage.Home.SetOrderByColumn | src/app/page.tsx:97-107 | the chosen key of the first row becomes the order column, and the invariant is kept |
| HomePage.Home.SetOrderDirection | src/app/page.tsx:112 | only the direction changes |
| AiQuery.TranslatedConditionsLikeManual | src/components/query-wise/ai-query-tool.tsx:86 | the translated conditions use only the builder's operators, so each contributes one placeholder (for a `?`-free column) and one parameter, LIKE values wrapped in `%` |
| AiQuery.OperatorsMatchBuilder | src/ai/flows/generate-sql-from-natural-language.ts:28 | the translation's operators spell exactly the builder's vocabulary, and only `Like` spells LIKE |
| AiQuery.AiQueryTool.constructor | src/components/query-wise/ai-query-tool.tsx:21-31 | empty request, expected output and SQL |
| AiQuery.AiQueryTool.SetNaturalLanguageQuery | src/components/query-wise/ai-query-tool.tsx:113 | only the request text changes |
| AiQuery.AiQueryTool.SetExpectedOutput | src/components/query-wise/ai-query-tool.tsx:123 | only the expected-output text changes |
| AiQuery.AiQueryTool.RunTranslation | src/components/query-wise/ai-query-tool.tsx:68-96 | the steps after a translation are AfterTranslation: explanation, missing table, the failing callback call, or table change + execution + its result |
| AiQuery.AiQueryTool.HandleGenerateAndRun | src/components/query-wise/ai-query-tool.tsx:35-98 | the calls made are RunTrace, and the shown SQL is SqlAfter of the old one |
| AiQuery.EmptyRequestDoesNothing | src/components/query-wise/ai-query-tool.tsx:36-43 | an empty request makes no call, not even onQueryStart, and keeps the shown SQL |
| AiQuery.AfterTranslationReportsOnce | src/components/query-wise/ai-query-tool.tsx:68-96 | every outcome after a translation reports exactly one result, as the last call |
| AiQuery.RunReportsOnce | src/components/query-wise/ai-query-tool.tsx:45-96 | a started run begins with onQueryStart and reports exactly one result, as its last call |
| AiQuery.ValidationFailureStops | src/components/query-wise/ai-query-tool.tsx:49-96 | a thrown validation is reported with its message and no data, with no generation, and the SQL cleared |
| AiQuery.InvalidRequestStops | src/components/query-wise/ai-query-tool.tsx:50-60 | an invalid verdict reports the fixed "not specific enough" error and makes no generate or execute call |
| AiQuery.GenerationFailureStops | src/components/query-wise/ai-query-tool.tsx:62-96 | a thrown translation is reported with its message and no data, without executing, and the SQL cleared |
| AiQuery.TranslatedTrace | src/components/query-wise/ai-query-tool.tsx:47-66 | a translated run is validation, generation, then AfterTranslation; the shown SQL is the translation's (cleared when it is empty) |
| AiQuery.ExplanationWins | src/components/query-wise/ai-query-tool.tsx:68-77 | a non-empty explanation is reported verbatim, even when a table is named |
| AiQuery.NoTableReported | src/components/query-wise/ai-query-tool.tsx:79-81 | with no explanation and no table, the error is "AI could not determine the table to query." |
| AiQuery.ExecutesOnlyWhenTranslated | src/components/query-wise/ai-query-tool.tsx:35-98 | a run executes iff the request is non-empty, validated, translated with a table and no explanation, and the callback exists |
| AiQuery.ExecutesTranslation | src/components/query-wise/ai-query-tool.tsx:83-87 | with the callback present: reset, then execute the table with its clauses (none when absent) and the current limit and order, then report the outcome |
| AiQuery.MissingCallbackNeverExecutes | src/components/query-wise/ai-query-tool.tsx:83-90 | as wired, the callback call fails, its TypeError message is reported, and no translated query is ever executed |
| AiQuery.ShownSql | src/components/query-wise/ai-query-tool.tsx:47-66 | after a started run the shown SQL is empty or the translation's sqlQuery |
| DataDisplay.Lookup | src/components/query-wise/data-display.tsx:79 | `row[col]` is defined exactly when the row has that key, and is then the value of the first field with that key |
| DataDisplay.HeaderLabel | src/components/query-wise/data-display.tsx:71 | a label has the column's length, with no underscore and no lower-case letter |
| DataDisplay.HeaderLabelIdempotent | src/components/query-wise/data-display.tsx:71 | relabelling a label changes nothing |
| DataDisplay.HeaderLabelChars | src/components/query-wise/data-display.tsx:71 | `_` becomes a space, a lower-case letter becomes its capital, and every other character is kept |
| DataDisplay.WholeDecimalText | src/components/query-wise/data-display.tsx:79 | a whole decimal prints exactly like the integer of that value |
| DataDisplay.FractionalDecimalText | src/components/query-wise/data-display.tsx:79 | a non-whole decimal, positive or negative, prints as its sign, its integer part, a point and one or two fraction digits ending in a non-zero digit; reading the integer part and the digits back gives the magnitude in hundredths |
| DataDisplay.PanelPrecedence | src/components/query-wise/data-display.tsx:28-87 | the panels are exclusive, and chosen in the order loading, error, no result, empty result, table |
| DataDisplay.TableShape | src/components/query-wise/data-display.tsx:64-87 | one header per first-row key; one body row per result row, holding one cell per such key with that row's value |
| DataDisplay.TableOffersDownload | src/components/query-wise/data-display.tsx:97-101 | whenever the table shows, so does the download button, and it exports every displayed row |

## Left out

- test-connection.js and src/lib/db.ts are not part of this model. They hold the connection diagnostics and the MySQL pool. The database is a parameter, so pooling and connection release are not represented.
- The two language-model flows are not part of this model. Their outputs are inputs, typed by their output schemas. Their prompts, and the "table or explanation" rule stated only in prompt text, are not modelled.
- The filtering, sorting, LIKE matching and truncation done by MySQL are not modelled. No code in the core does them. LIKE values are wrapped in `%`, but their own `%` and `_` are not escaped.
- src/components/query-wise/query-interface.tsx and header.tsx are markup and prop wiring. Only the missing `onTableChange` forwarding matters to the model, and it is modelled as `AiQuery.AiQueryTool.tableChangeProvided` (see Findings).
- Asynchrony is not modelled: `useTransition`, the effects' trigger lists, and the interleaving of overlapping runs. Each handler runs to completion, and its awaited calls settle to given outcomes.
- Also outside the model: toasts, the theme toggle (src/app/page.tsx:49-56), `isPending` button disabling, and the XLSX workbook writing.
- ManualBuilder.ManualQueryBuilder.FetchColumnsAndInitialData: the column fetch and the execution run through `Promise.all`. The model fixes their order. A column-fetch failure is already turned into `[]` by the action, so only an execution failure skips setting the columns.
- Identifier escaping is not modelled: table, column, operator and order names go into the SQL text unchecked, as in the code. The catalog query that interpolates the table name (src/lib/actions.ts:29) is the `catalog` parameter.
- Actions.PlaceholdersMatchParams and Actions.BindingsFillPlaceholdersInOrder: both hold only when no interpolated name contains `?`. This is a limit of the model, not of the program: the model's placeholder count (`CountChar`, `Substitute`) counts every `?` character, including one inside a backtick-quoted name. The program quotes table, column and order names in backticks (src/lib/actions.ts:47, 54, 57, 64) and sends the statement as a server-side prepared statement (src/lib/db.ts:18), where a `?` inside a quoted identifier is no parameter marker. The one unquoted name, the operator, comes from the builder's fixed list or the translation's operator set, neither of which holds a `?`.
- Callbacks.MessageOf: a thrown `null` or `undefined` is not modelled. For such a value, `e.message` in the catch (src/components/query-wise/ai-query-tool.tsx:90) throws a TypeError itself, so no result is reported. The model treats every non-Error thrown value as one whose message is undefined. AiQuery.RunReportsOnce and AiQuery.AfterTranslationReportsOnce hold only for the thrown values the model has. `executeQueryAction` always throws an `Error` (src/lib/actions.ts:75), so this concerns only the two flows.
- AiQuery.NotAFunctionMessage: the TypeError text is the one V8 gives. Another runtime or a minified build words it differently.
- Actions.GenerateSqlAction: the catalog is a pure function of the table name, so a table listed twice gets the same description both times.
- HomePage.ClampRowLimit: covers integer input only. `Number(...)` on arbitrary text (NaN, fractions) is not modelled.
- DataDisplay.HeaderLabel: upper-cases ASCII letters only. Full Unicode case mapping is not modelled.
- DataDisplay.CellText: prints integers, two-decimal numbers, text and null. Dates and the string form mysql2 gives DECIMAL columns are not modelled.
- DataDisplay.Lookup: takes the first field with the key. A JS object has one field per key, and prototype keys are not modelled.
- DbMock.ColumnDescriptionsForAI: registry lookups miss exactly for unregistered names. Inherited object keys such as `constructor` are not modelled.
- ManualBuilder.ManualQueryBuilder.AddClause: the `Date.now()` id is a parameter. RemovalKeepsOne assumes the ids are distinct, which clock readings do not guarantee.
- page.tsx clears the order column only when data arrives whose first row lacks that key, or on a table change. A stale order column is otherwise kept and sent with the next query. The model does the same (HomePage.OrderAfterData).

## Findings

| source | as written | input that shows it | evidently intended | confidence | as-written member | corrected member |
|---|---|---|---|---|---|---|
| src/components/query-wise/query-interface.tsx:39-45 | the page passes `onTableChange` to QueryInterface, which neither declares nor forwards it. `onTableChange()` at ai-query-tool.tsx:84 then throws a TypeError, which is caught at line 89 and reported as the error | a validated request whose translation names table "users" with no explanation | the page's `handleTableChange` runs and the translated query executes | high; not executed | AiQuery.MissingCallbackNeverExecutes | AiQuery.ExecutesTranslation |
