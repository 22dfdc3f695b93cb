# Snapshot loader of the credit case-study pipeline, in Dafny

This project models the snapshot loader of the credit/loan case-study pipeline
(`src/load_to_duckdb.py`). The loader materialises CSV snapshots
`Credit Data - DD-MM-YYYY.csv` and two Excel workbooks as tables of an
analytical database. It never touches a table that already exists, so it can
be re-run at will and only ever adds tables.

The model has two parts.

- **Table naming** (module `TableNaming`, `naming.dfy`). These are pure functions on a file
  stem. `FindDate` is the leftmost-match search that `re.search(r'(\d{2})-(\d{2})-(\d{4})', stem)`
  performs, over ASCII digits. `DeriveTableName` reorders that match into
  `credit_data_YYYYMMDD`. With no match it falls back to
  `stem.lower().replace(" ", "_").replace("-", "_")`, built from `Lower` and `Replace`.
  The digit run is not checked to be a real date.
- **Loading** (modules `Catalog`, `SnapshotLoader`, `LoaderProperties`). The database is a
  `Database` object whose field `tables` maps each table name to its row count.
  - `TableExists` reads that catalog.
  - `CreateOrReplaceTable` updates it.
  - `LoadTable` is the guarded check-read-create step of one source.
  - `LoadCsvSnapshots`, `LoadCustomerWorkbook` and `LoadNpsWorkbook` are the loader's three stages. The first two are loops.
  - `Run` performs the three stages in order.

  `LoadTable` is proved equal to the single step `Catalog.Process`. Each stage method and `Run` is proved equal to the pure run
  `Catalog.ProcessAll`, taken over the units of work it performs (`SnapshotLoader.Plan` for `Run`). The lemmas in `Catalog` and `LoaderProperties` are proved about that run.

The foreign parts have been abstracted away:

- Reading a source (pandas `read_csv` / `read_excel`) is a `Content`. Either it yields `Rows(n)`, or it is `Unreadable`. `Unreadable` covers an unparseable file and a sheet missing from the workbook: pandas raises, and the script stops.
- A workbook that does not exist is `None`.
- The list of files the glob returns is an input sequence.
- The lines the loader prints are an `Event` log. It records which kind of line was printed, with the table name and the row count.

The model follows the code as written:

- Names are derived from `file.stem`, so the `.csv` extension is not part of the input.
- An exception while reading a source ends the whole run. This holds on the CSV path and on the workbook paths alike (nothing in the code catches it). The tables created before that point remain.
- A source whose table already exists is never read. An unreadable file whose table exists is therefore skipped without error.

## Model

| member | source | states |
|---|---|---|
| TableNaming.FindDate | src/load_to_duckdb.py:46 | returns the leftmost position at which `DD-MM-YYYY` (ASCII digits and hyphens) matches, with no match before it, or `None` exactly when no position matches |
| TableNaming.LeftmostMatchFound | src/load_to_duckdb.py:46 | a match at `i` with none to its left is the match the search reports |
| TableNaming.DatedStemName | src/load_to_duckdb.py:46-49 | a stem whose leftmost date run starts at `i` names `credit_data_` + year + month + day of that run |
| TableNaming.DatedNameShape | src/load_to_duckdb.py:46-49 | a dated name is 20 characters long, starts with `credit_data_`, ends in 8 digits and is a safe lower-case SQL identifier |
| TableNaming.UndatedStemName | src/load_to_duckdb.py:50-51 | a stem with no date run names its normalisation: same length, no space and no hyphen, every other character lower-cased |
| TableNaming.NormalizeAt | src/load_to_duckdb.py:51 | position by position, the normalised stem holds `_` where the stem holds a space or hyphen, and the lower-cased character elsewhere |
| TableNaming.LowerAt | src/load_to_duckdb.py:51 | lower-casing keeps the length and lower-cases each character in place |
| TableNaming.ReplaceAt | src/load_to_duckdb.py:51 | a one-character replace keeps the length and substitutes exactly the matching characters |
| TableNaming.GlobStemNamePrefix | src/load_to_duckdb.py:44-51 | every stem the glob `Credit Data - *.csv` finds names a table starting `credit_data_`, dated or not |
| TableNaming.DatedExample | src/load_to_duckdb.py:9-12 | `Credit Data - 01-01-2026` is loaded into `credit_data_20260101` |
| TableNaming.UndatedExample | src/load_to_duckdb.py:50-51 | `Some Other File` names `some_other_file` |
| TableNaming.NotADateValidator | src/load_to_duckdb.py:46-49 | `Export 99-99-9999 v2` still names `credit_data_99999999`: the run is not validated as a date |
| TableNaming.LeftmostOverlapExample | src/load_to_duckdb.py:46 | in `123-45-67890` the match starts at the second digit, giving `credit_data_67894523` |
| Catalog.Process | src/load_to_duckdb.py:53-64 | an existing name leaves the catalog unchanged; a new readable source adds exactly its name with its row count and keeps every other entry; a new unreadable source stops the run with the catalog unchanged, and only then |
| Catalog.RunSingle | src/load_to_duckdb.py:53-64 | a run over one source is that source's guarded load |
| Catalog.RunAppend | src/load_to_duckdb.py:41-110 | running two groups of sources one after the other is one run over both, and a run stopped by an exception stays stopped |
| Catalog.RunIsAdditive | src/load_to_duckdb.py:44-110 | every table present before a run is present after it with the same row count, and every new table is named by some source |
| Catalog.UnnamedTableUntouched | src/load_to_duckdb.py:59-62 | a table no source names is present after a run exactly when it was before |
| Catalog.CompletedRunCoversNames | src/load_to_duckdb.py:44-110 | a run that reaches its end prints one line per source and leaves a table for every source name |
| Catalog.RunIsIdempotent | src/load_to_duckdb.py:44-110 | a second run over the same sources ends in the same catalog, completes exactly when the first did, and loads nothing |
| Catalog.FirstWins | src/load_to_duckdb.py:44-64 | the first source to carry a name absent from the catalog decides that table's row count |
| Catalog.LaterDuplicateSkipped | src/load_to_duckdb.py:53-55 | whenever the run gets as far as a later source whose name an earlier one carried, that source is reported as skipped, whatever follows it |
| Catalog.AllPresentIsNoOp | src/load_to_duckdb.py:53-55 | when every source name is already a table, a run changes nothing and loads nothing |
| Catalog.RerunAddsOnlyNew | src/load_to_duckdb.py:44-64 | when every source either names an existing table or is one new readable source, the run adds that one table and nothing else |
| SnapshotLoader.Database.constructor | src/load_to_duckdb.py:30 | the connection opens on a database whose catalog is the given one |
| SnapshotLoader.Database.TableExists | src/load_to_duckdb.py:32-39 | answers true exactly when the catalog holds a table of that name |
| SnapshotLoader.Database.CreateOrReplaceTable | src/load_to_duckdb.py:59-62 | the catalog afterwards is the old one with that name mapped to the row count |
| SnapshotLoader.LoadTable | src/load_to_duckdb.py:53-64 | the catalog, the printed line and whether the run goes on are those of `Catalog.Process` for that source |
| Catalog.RunStep | src/load_to_duckdb.py:44-64 | one more iteration extends the run over a prefix by one guarded load, and a stopped run is final |
| SnapshotLoader.LoadCsvSnapshots | src/load_to_duckdb.py:44-64 | the loop leaves the catalog and log of the run over every globbed file under its derived name, stopping at the first unreadable new file |
| SnapshotLoader.LoadCustomerWorkbook | src/load_to_duckdb.py:67-92 | an absent workbook only warns; otherwise the loop leaves the catalog and log of the run over the four mapped sheets in order |
| SnapshotLoader.LoadNpsWorkbook | src/load_to_duckdb.py:95-110 | an absent workbook only warns; otherwise the first sheet is loaded into `nps_data` under the same guard |
| SnapshotLoader.Run | src/load_to_duckdb.py:41-110 | the database and log after the three stages are those of the run over the whole plan, and a stage that raises ends the run |
| LoaderProperties.FixedSheetMapping | src/load_to_duckdb.py:67-75 | the sheets `Sales Details`, `Gender`, `DOB`, `Income Level` load in that order into `customer_sales`, `customer_gender`, `customer_dob`, `customer_income` and no other table |
| LoaderProperties.NpsMapping | src/load_to_duckdb.py:95-105 | the NPS workbook's first sheet loads only into `nps_data`; an absent workbook is a warning |
| LoaderProperties.SnapshotStemName | src/load_to_duckdb.py:9-12 | any `Credit Data - DD-MM-YYYY` stem is found by the glob and loaded into `credit_data_YYYYMMDD` |
| LoaderProperties.CsvNamesAvoidWorkbookTables | src/load_to_duckdb.py:44-51 | no globbed CSV file can be loaded under a workbook table's name |
| LoaderProperties.CustomerTablesUnplanned | src/load_to_duckdb.py:67-92 | without the customer workbook no unit of work names a customer table |
| LoaderProperties.MissingCustomerWorkbookAddsNothing | src/load_to_duckdb.py:67-92 | an absent customer workbook adds none of its four tables |
| LoaderProperties.MissingCustomerWorkbookWarnsAndProceeds | src/load_to_duckdb.py:91-110 | an absent customer workbook is reported as a warning, and the run goes on to load a new readable NPS sheet into `nps_data` with its row count |
| LoaderProperties.MissingNpsWorkbook | src/load_to_duckdb.py:95-110 | an absent NPS workbook adds no `nps_data` table, is reported as a warning after the earlier stages' lines, and the run fails exactly when an earlier stage did |
| LoaderProperties.RunTwice | src/load_to_duckdb.py:44-110 | re-running the loader on unchanged inputs ends in the catalog of the first run, completes exactly when it did, and loads nothing |
| LoaderProperties.NewSnapshotAddsOneTable | src/load_to_duckdb.py:44-64 | after a complete run, a rerun over a directory that also holds one new snapshot adds exactly that snapshot's table with its row count and changes nothing else, in whatever order the glob lists the files |
| LoaderProperties.TwoTablesRun | src/load_to_duckdb.py:44-110 | two new readable tables and two absent workbooks create exactly those two tables, and a rerun changes nothing |
| LoaderProperties.TwoSnapshotsPlan | src/load_to_duckdb.py:44-110 | two snapshot files and no workbooks are planned as their two dated tables followed by two warnings |
| LoaderProperties.TwoSnapshotsEndToEnd | src/load_to_duckdb.py:44-110 | two snapshots with different dates, of `a` and `b` rows, load into an empty database as exactly the two dated tables with those row counts; a second run leaves the same catalog |

## Left out

- The column set of a table and pandas schema inference: a source is seen only through its row count.
- DuckDB's `CREATE OR REPLACE TABLE ... AS SELECT * FROM df` is a map update: the model keeps no record set and no types.
- SnapshotLoader.Database.CreateOrReplaceTable does not model DuckDB rejecting a name that is not a valid SQL identifier. The code interpolates the name unquoted, so an undated stem holding characters such as `(` would raise there. Dated names are proved safe identifiers (`TableNaming.DatedNameShape`).
- Filesystem glob matching and its order: the files are an input sequence. `GlobStem` (the `Credit Data - ` prefix) appears only in lemmas: the name-collision lemmas assume it, and `SnapshotStemName` proves it of every dated snapshot stem.
- Table names are compared as exact strings. DuckDB resolves unquoted identifiers without regard to case, while `table_exists` compares `information_schema.tables.table_name` exactly (line 37). A pre-existing table that differs from a derived name only in case would therefore not be found, and the `CREATE OR REPLACE` would replace it. The model does not capture this.
- Python's Unicode semantics of `str.lower()` and of `\d`: only ASCII letters are lower-cased and only ASCII digits match.
- Opening and closing the connection, the paths `Data/Raw` and `duckdb/mophones.duckdb`, and any concurrent runs against one database are not modelled. The catalog is a field of one object.
- The exact text of the printed lines, the headings printed between stages, and the final `SHOW TABLES` summary with its row counts (lines 113-122).
- The traceback printed when a read raises: the model only records that the run stopped (`completed` is false).
- `src/pipeline_utils.py` and `src/data_cleaning_summary.py` are not part of this model. They only query and print tables built by an external SQL transformation layer.
