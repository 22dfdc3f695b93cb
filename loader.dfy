/**
  The snapshot loader of src/load_to_duckdb.py: the database handle, the three
  load stages (dated CSV snapshots, the customer workbook's four sheets, the
  NPS workbook) and the whole run, each proved against the pure run of
  module Catalog over the sources the stage sees.
 */
module SnapshotLoader {
  import opened Wrappers
  import opened TableNaming
  import opened Catalog

  /** A CSV file the glob found: its stem, and what reading it yields. */
  datatype CsvFile = CsvFile(stem: string, content: Content)

  /** A workbook that exists, as a map from sheet name to what reading that sheet yields. */
  type Workbook = map<string, Content>

  const CustomerWorkbookFile: string := "Sales and Customer Data.xlsx"
  const NpsWorkbookFile: string := "NPS Data.xlsx"
  const NpsTable: string := "nps_data"

  /** The fixed sheet-to-table mapping of the customer workbook, in the order it is loaded. */
  const SheetMapping: seq<(string, string)> := [
    ("Sales Details", "customer_sales"),
    ("Gender", "customer_gender"),
    ("DOB", "customer_dob"),
    ("Income Level", "customer_income")
  ]

  /** The glob `Credit Data - *.csv` found a file with this stem. */
  predicate GlobStem(stem: string) {
    |GlobPrefix| <= |stem| && stem[..|GlobPrefix|] == GlobPrefix
  }

  /** Reading a named sheet; a sheet the workbook lacks raises like an unreadable one. */
  function SheetContent(wb: Workbook, sheet: string): (content: Content) {
    if sheet in wb then wb[sheet] else Unreadable
  }

  /** The units of work of the CSV stage: each file under its derived name, in glob order. */
  function CsvSources(files: seq<CsvFile>): (sources: seq<Source>) {
    seq(|files|, k requires 0 <= k < |files| => Table(DeriveTableName(files[k].stem), files[k].content))
  }

  /** The units of work of the customer-workbook stage. */
  function CustomerSources(workbook: Option<Workbook>): (sources: seq<Source>) {
    match workbook
    case None => [MissingFile(CustomerWorkbookFile)]
    case Some(wb) =>
      seq(|SheetMapping|, k requires 0 <= k < |SheetMapping| => Table(SheetMapping[k].1, SheetContent(wb, SheetMapping[k].0)))
  }

  /** The units of work of the NPS stage; `nps` is what reading the workbook's first sheet yields. */
  function NpsSources(nps: Option<Content>): (sources: seq<Source>) {
    match nps
    case None => [MissingFile(NpsWorkbookFile)]
    case Some(c) => [Table(NpsTable, c)]
  }

  /** Every unit of work of a run, in the order the loader performs them. */
  function Plan(files: seq<CsvFile>, workbook: Option<Workbook>, nps: Option<Content>): (plan: seq<Source>) {
    CsvSources(files) + CustomerSources(workbook) + NpsSources(nps)
  }

  /** The analytical database, seen through its catalog of tables and their row counts. */
  class Database {
    var tables: Catalog

    constructor (initial: Catalog)
      ensures tables == initial
    {
      tables := initial;
    }

    /** `table_exists`: the catalog, and nothing else, says whether a table is there. */
    method TableExists(name: string) returns (b: bool)
      ensures b <==> name in tables
    {
      b := name in tables;
    }

    /** `CREATE OR REPLACE TABLE name AS SELECT * FROM df` for a record set of `rows` rows. */
    method CreateOrReplaceTable(name: string, rows: nat)
      modifies this
      ensures tables == old(tables)[name := rows]
    {
      tables := tables[name := rows];
    }
  }

  /** One guarded load: check the catalog, and only for a new name read the source and create the table. */
  method LoadTable(db: Database, name: string, content: Content) returns (completed: bool, log: seq<Event>)
    modifies db
    ensures RunResult(db.tables, log, completed) == Process(old(db.tables), Table(name, content))
  {
    var present := db.TableExists(name);
    if present {
      return true, [SkippedExists(name)];
    }
    match content
    case Unreadable =>
      return false, [];
    case Rows(n) =>
      db.CreateOrReplaceTable(name, n);
      return true, [Loaded(name, n)];
  }

  /** The CSV stage (src/load_to_duckdb.py lines 44-64). */
  method LoadCsvSnapshots(db: Database, files: seq<CsvFile>) returns (completed: bool, log: seq<Event>)
    modifies db
    ensures RunResult(db.tables, log, completed) == ProcessAll(old(db.tables), CsvSources(files))
  {
    ghost var sources := CsvSources(files);
    log := [];
    var i := 0;
    while i < |files|
      invariant 0 <= i <= |files|
      invariant RunResult(db.tables, log, true) == ProcessAll(old(db.tables), sources[..i])
    {
      var name := DeriveTableName(files[i].stem);
      var ok, events := LoadTable(db, name, files[i].content);
      assert sources[i] == Table(name, files[i].content);
      RunStep(old(db.tables), sources, i);
      log := log + events;
      if !ok {
        return false, log;
      }
      i := i + 1;
    }
    assert sources[..i] == sources;
    completed := true;
  }

  /** The customer-workbook stage (src/load_to_duckdb.py lines 67-92). */
  method LoadCustomerWorkbook(db: Database, workbook: Option<Workbook>) returns (completed: bool, log: seq<Event>)
    modifies db
    ensures RunResult(db.tables, log, completed) == ProcessAll(old(db.tables), CustomerSources(workbook))
  {
    if workbook.None? {
      return true, [MissingWarning(CustomerWorkbookFile)];
    }
    var wb := workbook.value;
    ghost var sources := CustomerSources(workbook);
    log := [];
    var i := 0;
    while i < |SheetMapping|
      invariant 0 <= i <= |SheetMapping|
      invariant RunResult(db.tables, log, true) == ProcessAll(old(db.tables), sources[..i])
    {
      var (sheet, name) := SheetMapping[i];
      var ok, events := LoadTable(db, name, SheetContent(wb, sheet));
      assert sources[i] == Table(name, SheetContent(wb, sheet));
      RunStep(old(db.tables), sources, i);
      log := log + events;
      if !ok {
        return false, log;
      }
      i := i + 1;
    }
    assert sources[..i] == sources;
    completed := true;
  }

  /** The NPS stage (src/load_to_duckdb.py lines 95-110). */
  method LoadNpsWorkbook(db: Database, nps: Option<Content>) returns (completed: bool, log: seq<Event>)
    modifies db
    ensures RunResult(db.tables, log, completed) == ProcessAll(old(db.tables), NpsSources(nps))
  {
    match nps
    case None =>
      return true, [MissingWarning(NpsWorkbookFile)];
    case Some(c) =>
      completed, log := LoadTable(db, NpsTable, c);
  }

  /** A whole run: the three stages in order; an exception in one ends the run. */
  method Run(db: Database, files: seq<CsvFile>, workbook: Option<Workbook>, nps: Option<Content>)
    returns (completed: bool, log: seq<Event>)
    modifies db
    ensures RunResult(db.tables, log, completed) == ProcessAll(old(db.tables), Plan(files, workbook, nps))
  {
    ghost var cat := db.tables;
    ghost var csv, customer, npsPart := CsvSources(files), CustomerSources(workbook), NpsSources(nps);
    RunAppend(cat, csv + customer, npsPart);
    RunAppend(cat, csv, customer);
    completed, log := LoadCsvSnapshots(db, files);
    if !completed {
      return;
    }
    var ok, events := LoadCustomerWorkbook(db, workbook);
    log := log + events;
    if !ok {
      return false, log;
    }
    ok, events := LoadNpsWorkbook(db, nps);
    log := log + events;
    completed := ok;
  }
}
