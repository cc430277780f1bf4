# sql-op-trigger, modelled in Dafny

sql-op-trigger is a MySQL audit-trail generator. For each configured source
table `T` it reads the catalog (`information_schema`) and writes SQL. That SQL
keeps a history table `T_<suffix>` in step with `T`, and it installs three
triggers. Each trigger copies every inserted, updated or deleted row into the
history table, tagged `'insert'`, `'update'` or `'delete'`.

The history table starts with three audit columns: `<suffix>_id`,
`<suffix>_type` and `<suffix>_date`. The source columns follow them. On the first
run the history table is created. On later runs the generator compares the two
column lists and emits:

- `ALTER TABLE … MODIFY COLUMN` for every source column whose type changed;
- `ALTER TABLE … DROP COLUMN` for every history column the source no longer
  has (never an audit column);
- `ALTER TABLE … ADD COLUMN` for every new source column.

Then it drops any existing trigger with one of the three generated names and
re-creates all three.

The model has six modules:

- `Seqs`: order-preserving filtering, the `IsSubsequence` relation, `Concat`,
  and `Join` (Go's `strings.Join`).
- `Schema`: `Field`, `Table`, an optional table, and the catalog lookup
  `FromCatalog`.
- `Diff`: the diff engine. `Sub` and `UpdateSub` are loop methods, each proved
  equal to a specification function (`Missing`, `Changed`). Lemmas then prove
  the diff properties about those functions.
- `Render`: the DDL side.
  - `FromFields` is the column lines of `CREATE TABLE`.
  - `CreateHistoryTable` is the history-table template.
  - `UpdFiled`, `AddFiled` and `DelFiled` emit one `ALTER TABLE` per column.
- `Triggers`: the trigger side.
  - `Column` is the quoted column lists.
  - `Trigger` is the three trigger templates.
  - `DropTriggers` is the trigger-name filter.
- `Generator`: the per-table body of the run loop (`GenerateTable`), the loop
  over configured tables (`Run`), the reserved-column filter (`DropList`), and
  the end-to-end properties (a synced pair emits no `ALTER`).

The catalog answers for one table are passed in as a `CatalogSnapshot`: the
rows of the source table, the rows of its history table, and the names of the
installed triggers. The SQL written is the returned string.

## Model

| member | source | states |
|---|---|---|
| Schema.FromCatalog | main.go:242-259 | There is no table exactly when the catalog returned no rows. Otherwise the table has the queried name and the rows in catalog order. |
| Diff.Missing | main.go:177-200 | Absent source: empty. Absent reference: every source column. Otherwise: an order-preserving subsequence of the source columns, holding a column exactly when no reference column has its name. |
| Diff.Changed | main.go:151-174 | Absent source: empty. Absent reference: every source column. Otherwise: an order-preserving subsequence of the source columns, holding a column exactly when some reference column has its name and a different type string. |
| Diff.HasSameName | main.go:185-192 | The scan returns true exactly when some column of `dst` has the name of `k`. |
| Diff.HasOtherType | main.go:159-166 | The scan returns true exactly when some column of `dst` has the name of `k` and a type different from that of `k`. |
| Diff.Sub | main.go:177-200 | The method's result is exactly `Missing(src, dst)`, so every property of `Missing` holds for it. |
| Diff.UpdateSub | main.go:151-174 | The method's result is exactly `Changed(src, dst)`, so every property of `Changed` holds for it. |
| Diff.MissingCounts | main.go:193-198 | Against a present table, every column of `src` whose name `dst` lacks occurs in `Sub` exactly as often as in `src`, and every other column not at all. With the subsequence clause this fixes the result even when `src` repeats a record. |
| Diff.ChangedCounts | main.go:167-172 | Against a present table, every column of `src` that `dst` holds under another type occurs in `UpdateSub` exactly as often as in `src`, and every other column not at all. |
| Diff.SubOfItselfIsEmpty | main.go:185-199 | A table compared with itself has no missing columns. |
| Diff.UpdateSubOfItselfIsEmpty | main.go:159-173 | A table with unique column names has no retyped columns when compared with itself. |
| Diff.SubBothWaysDisjoint | main.go:185-199 | No column name is in both `Sub(a, b)` and `Sub(b, a)`. |
| Diff.SubAndUpdateSubDisjoint | main.go:159-199 | Against a present table, no column name is both missing and retyped. |
| Render.IsReserved | main.go:298-300 | Definition, no contract: the name is `<suffix>_id`, `<suffix>_type` or `<suffix>_date`, the condition of the drop filter. |
| Render.ReservedAreTemplateColumns | main.go:50-52 | A name is reserved exactly when it is the name of one of the three audit columns the history-table template declares. |
| Render.ColumnDefs | main.go:116-118 | There is one line per column, in order, and line `i` is two spaces, the backtick-quoted name of column `i`, a space, and its type. |
| Render.FromFields | main.go:115-121 | The result is the column lines joined by ",\n" with a "," appended. No columns give ",". One column gives its line plus ",". The result always ends in ','. |
| Render.CreateHistoryTable | main.go:48-56 | Definition, no contract: the `HisTable` text, with `FromFields .AddField` written as the column lines of `AddField`. Its shape is stated by the next two rows. |
| Render.AuditLinesAreReserved | main.go:49-53 | The three audit lines of the template are the column lines of the reserved fields `<suffix>_id`, `<suffix>_type` and `<suffix>_date`, with their fixed types, in that order. |
| Render.CreateListsReservedThenSource | main.go:48-56 | For a non-empty column list, the `CREATE TABLE` text declares exactly the audit columns and then the given columns, each once and in order, joined by ",\n". The primary key and table options follow. |
| Render.Statement | main.go:127 | Definition, no contract: the per-column string of `UpdFiled` (`MODIFY COLUMN`), `AddFiled` (`ADD COLUMN`, main.go:136) or `DelFiled` (`DROP COLUMN`, main.go:145). Its shape is stated by `Render.StatementShape`. |
| Render.StatementShape | main.go:124-148 | Every `ALTER TABLE` statement starts with "ALTER TABLE <table>_<suffix> " and ends in ";\n". |
| Render.StatementList | main.go:124-148 | There is one statement per column, in list order, and statement `i` is the statement for column `i`. |
| Render.StatementsSnoc | main.go:124-148 | Rendering one more column appends exactly its statement. |
| Render.StatementsAppend | main.go:124-148 | Rendering two lists one after the other renders their concatenation. |
| Render.StatementsEmptyIff | main.go:124-148 | The rendering is "" exactly when the column list is empty. |
| Render.UpdFiled | main.go:124-130 | The result is the `MODIFY COLUMN` statements of `UpdField`, one per column, in order. It is "" exactly when the list is empty. |
| Render.AddFiled | main.go:133-139 | The result is the `ADD COLUMN` statements of `AddField`, one per column, in order. It is "" exactly when the list is empty. |
| Render.DelFiled | main.go:142-148 | The result is the `DROP COLUMN` statements of `DelField`, one per column, in order. It is "" exactly when the list is empty. |
| Triggers.QuotedNames | main.go:107-110 | There is one entry per column, in order, and entry `i` is the prefix followed by the backtick-quoted name of column `i`. |
| Triggers.Column | main.go:106-112 | The result is the quoted names joined by ", ". It is "" exactly when there are no columns. One column gives just its quoted name. |
| Triggers.Trigger | main.go:68-92 | Definition, no contract: the `InsertTK`, `UpdateTK` or `DeleteTK` text for the event, with the two `Column` lists written as `ColumnList`. Its lists are described by the next three rows. |
| Triggers.TriggerReadsSourceOnly | main.go:68-92 | A trigger depends only on the suffix and the source table, never on the history table or the three column lists. |
| Triggers.InsertListsJoin | main.go:68-92 | For a source table with at least one column, the column list and the value list of each trigger's `INSERT` are the ", "-joins of their entries. |
| Triggers.InsertListsAligned | main.go:68-92 | Both lists have one entry per source column plus one. Entry 0 pairs `<suffix>_type` with the event's tag. Every later entry pairs a source column with the copied row's value of the same column: `NEW.` for insert and update, `OLD.` for delete. |
| Triggers.IsGeneratedTrigger | main.go:329-331 | Definition, no contract: the name is `<table>_insert_tk`, `<table>_update_tk` or `<table>_delete_tk`, the condition of the trigger-name filter. |
| Triggers.DroppedTriggers | main.go:329-333 | A trigger is dropped exactly when it exists and its name is `<table>_insert_tk`, `<table>_update_tk` or `<table>_delete_tk`. Dropped triggers keep catalog order. |
| Triggers.DropLinesSnoc | main.go:332 | One more dropped name appends exactly its `DROP TRIGGER` line. |
| Triggers.DropTriggers | main.go:326-334 | The output is one `DROP TRIGGER <name>;` line per dropped trigger, in catalog order. |
| Triggers.NothingToDrop | main.go:329-333 | A table none of whose triggers has a generated name gets no `DROP TRIGGER` line. |
| Generator.WithoutReserved | main.go:296-305 | The drop list holds a column exactly when that column is in the difference and its name is not an audit column name. It preserves order. |
| Generator.DropList | main.go:292-306 | The result equals the drop list. No element is named `<suffix>_id`, `<suffix>_type` or `<suffix>_date`, and every other element of the difference is kept. |
| Generator.HistoryDdl | main.go:273-320 | Definition, no contract: the `CREATE TABLE` text with every source column when the history table is absent, otherwise the MODIFY, DROP and ADD statements in that order. Its properties are the last four rows. |
| Generator.TableScript | main.go:267-353 | Definition, no contract: the header, the history DDL, the `DROP TRIGGER` lines and the three triggers, in that order. `GenerateTable` is proved to produce it. |
| Generator.GenerateTable | main.go:266-353 | The per-table output is: the header, then the history DDL, then the `DROP TRIGGER` lines, then the three triggers. The DDL is `CREATE TABLE` with every source column when the history table is absent; otherwise it is MODIFY, DROP and ADD, in that order. |
| Generator.Run | main.go:266-354 | The output is the per-table outputs of the configured tables, concatenated in configuration order. |
| Generator.DiffPartsDisjoint | main.go:282-319 | No column name appears in more than one of the modify, drop and add lists. |
| Generator.InSyncNeedsNoAlter | main.go:282-319 | When the history table has unique column names, holds every source column with the same type, and holds no column other than the source's and the audit columns, all three lists are empty and no `ALTER TABLE` is emitted. |
| Generator.AuditColumns | main.go:50-52 | The audit columns of a created history table as the column query reads them back (main.go:244, 255): the three names the template declares, in order, each with whatever type string the catalog reports. |
| Generator.CreatedHistoryIsInSync | main.go:273-319 | Take a history table laid out as the template creates it: the audit columns, with any catalog types, followed by the source columns. Assume no two of these columns share a name; in particular, no source column has an audit column's name. Then the table is in sync with its source, so a second run that reads it back emits no `ALTER TABLE`. |
| Generator.FirstRunCreatesAllColumns | main.go:273-280 | On the first run the history table is created with the audit columns and then every source column, in source order. |

## Left out

- Flag parsing, reading and unmarshalling the JSON configuration, and printing
  the configuration template (main.go:94-104, 202-234). These are argument and
  file plumbing. The suffix and the list of tables are parameters.
- The database connection and the two `information_schema` queries
  (main.go:236-259, 322-328). They are foreign calls. Their answers are the
  fields of `CatalogSnapshot`, and `FromCatalog` models how rows become a
  table.
- Query failures:
  - A failed column query makes `getTable` return no table (main.go:245-247),
    so a failed history lookup looks like an absent history table. This model
    has no failure input for it.
  - A failed trigger query ends the whole run (main.go:323-325). It is not
    modelled.
- The `text/template` engine, `tpl.Parse` failures on the fixed templates,
  and the function-map registration (main.go:260-265). Each template is
  written directly as string concatenation with the same text.
- Writing to the output file or stdout and the final `fmt.Scanf` pause
  (main.go:267, 355-357). The written text is the returned string.
- The `Key` column attribute. It is scanned but no diff or rendering reads it.
- An absent source table. The program dereferences it without a check and
  panics (main.go:272). `GenerateTable` and `Run` require every configured
  table to have columns.
- The distinction between a nil and an empty Go slice (main.go:293). Both
  render the same, so the model uses the empty sequence for both.
- Diff.UpdateSubOfItselfIsEmpty: the promise is stated only for tables with
  unique column names. With duplicate names, a column whose namesake has
  another type is reported.

Two behaviours of the code that are easy to misread:

- `UpdateSub` keeps a column when *any* same-named column of the other table
  has a different type, not only the first one found (main.go:159-166).
- A failed catalog lookup of the history table is not fatal: `getTable`
  returns no table (main.go:245-247), so the run takes the "history table
  absent" branch (main.go:273).
