/**
  Properties of a whole loader run (src/load_to_duckdb.py lines 44-110),
  stated over the plan of units of work the run performs.
 */
module LoaderProperties {
  import opened Wrappers
  import opened TableNaming
  import opened Catalog
  import opened SnapshotLoader

  /** The tables the customer workbook may create. */
  function CustomerTables(): (tables: set<string>) {
    set k | 0 <= k < |SheetMapping| :: SheetMapping[k].1
  }

  /**
    The customer workbook's sheets `Sales Details`, `Gender`, `DOB` and
    `Income Level` load, in that order, into `customer_sales`,
    `customer_gender`, `customer_dob` and `customer_income`, and into no other table.
   */
  lemma FixedSheetMapping(wb: Workbook)
    ensures CustomerSources(Some(wb)) == [
      Table("customer_sales", SheetContent(wb, "Sales Details")),
      Table("customer_gender", SheetContent(wb, "Gender")),
      Table("customer_dob", SheetContent(wb, "DOB")),
      Table("customer_income", SheetContent(wb, "Income Level"))]
    ensures CustomerTables() == {"customer_sales", "customer_gender", "customer_dob", "customer_income"}
  {
    assert SheetMapping[0].1 in CustomerTables();
    assert SheetMapping[1].1 in CustomerTables();
    assert SheetMapping[2].1 in CustomerTables();
    assert SheetMapping[3].1 in CustomerTables();
  }

  /** `s` is a run of `n` ASCII digits. */
  predicate Digits(s: string, n: nat) {
    |s| == n && forall k :: 0 <= k < |s| ==> IsDigit(s[k])
  }

  /** The stem of the snapshot file `Credit Data - DD-MM-YYYY.csv`. */
  function SnapshotStem(dd: string, mm: string, yyyy: string): (stem: string) {
    GlobPrefix + dd + "-" + mm + "-" + yyyy
  }

  /** The NPS workbook's first sheet loads into `nps_data` and no other table; an absent workbook is a warning. */
  lemma NpsMapping(c: Content)
    ensures NpsSources(Some(c)) == [Table("nps_data", c)]
    ensures NpsSources(None) == [MissingFile("NPS Data.xlsx")]
  {
  }

  /** A snapshot file `Credit Data - DD-MM-YYYY` is loaded into `credit_data_YYYYMMDD`. */
  lemma SnapshotStemName(dd: string, mm: string, yyyy: string)
    requires Digits(dd, 2) && Digits(mm, 2) && Digits(yyyy, 4)
    ensures GlobStem(SnapshotStem(dd, mm, yyyy))
    ensures DeriveTableName(SnapshotStem(dd, mm, yyyy)) == DatedPrefix + yyyy + mm + dd
  {
    var stem := SnapshotStem(dd, mm, yyyy);
    assert stem[..14] == GlobPrefix;
    assert stem[14..16] == dd && stem[17..19] == mm && stem[20..24] == yyyy;
    forall j | 0 <= j < 14
      ensures !DateAt(stem, j)
    {
      assert stem[j] == GlobPrefix[j];
    }
    DatedStemName(stem, 14);
  }

  /** Every table a workbook may create has a second character other than the `r` of `credit_data_`. */
  lemma WorkbookTablesSecondChar()
    ensures forall t :: t in CustomerTables() + {NpsTable} ==> |t| > 1 && t[1] != 'r'
  {
    forall t | t in CustomerTables() + {NpsTable}
      ensures |t| > 1 && t[1] != 'r'
    {
      if t != NpsTable {
        var k :| 0 <= k < |SheetMapping| && SheetMapping[k].1 == t;
        assert t[1] == 'u';
      }
    }
  }

  /** No CSV snapshot the glob finds can be loaded under a workbook table's name. */
  lemma CsvNamesAvoidWorkbookTables(files: seq<CsvFile>)
    requires forall k :: 0 <= k < |files| ==> GlobStem(files[k].stem)
    ensures forall t :: t in Names(CsvSources(files)) ==> t !in CustomerTables() && t != NpsTable
  {
    WorkbookTablesSecondChar();
    forall t | t in Names(CsvSources(files))
      ensures |t| > 1 && t[1] == 'r'
    {
      var k :| 0 <= k < |files| && CsvSources(files)[k].name == t;
      GlobStemNamePrefix(files[k].stem);
      assert t[1] == t[..|DatedPrefix|][1] == DatedPrefix[1];
    }
  }

  /** Without the customer workbook, a run names only CSV tables and `nps_data`. */
  lemma PlanNamesWithoutCustomer(files: seq<CsvFile>, nps: Option<Content>)
    ensures Names(Plan(files, None, nps)) <= Names(CsvSources(files)) + {NpsTable}
  {
    var plan := Plan(files, None, nps);
    forall t | t in Names(plan) ensures t in Names(CsvSources(files)) + {NpsTable} {
      var k :| 0 <= k < |plan| && plan[k].Table? && plan[k].name == t;
      if k < |files| {
        assert plan[k] == CsvSources(files)[k];
      }
    }
  }

  /** Without the customer workbook and with only globbed CSV files, no unit of work names a customer table. */
  lemma CustomerTablesUnplanned(files: seq<CsvFile>, nps: Option<Content>)
    requires forall k :: 0 <= k < |files| ==> GlobStem(files[k].stem)
    ensures forall t :: t in CustomerTables() ==> t !in Names(Plan(files, None, nps))
  {
    CsvNamesAvoidWorkbookTables(files);
    PlanNamesWithoutCustomer(files, nps);
    forall t | t in CustomerTables()
      ensures t != NpsTable
    {
      var k :| 0 <= k < |SheetMapping| && SheetMapping[k].1 == t;
      assert t[1] == 'u';
    }
  }

  /** An absent customer workbook adds none of its tables. */
  lemma MissingCustomerWorkbookAddsNothing(cat: Catalog, files: seq<CsvFile>, nps: Option<Content>)
    requires forall k :: 0 <= k < |files| ==> GlobStem(files[k].stem)
    ensures forall t :: t in CustomerTables() ==>
      (t in ProcessAll(cat, Plan(files, None, nps)).catalog <==> t in cat)
  {
    CustomerTablesUnplanned(files, nps);
    forall t | t in CustomerTables()
      ensures t in ProcessAll(cat, Plan(files, None, nps)).catalog <==> t in cat
    {
      UnnamedTableUntouched(cat, Plan(files, None, nps), t);
    }
  }

  /**
    An absent customer workbook is reported as a warning and the run goes on
    to the NPS workbook, loading it when its table is new.
   */
  lemma MissingCustomerWorkbookWarnsAndProceeds(cat: Catalog, files: seq<CsvFile>, nps: Option<Content>)
    requires forall k :: 0 <= k < |files| ==> GlobStem(files[k].stem)
    requires ProcessAll(cat, CsvSources(files)).completed
    ensures MissingWarning(CustomerWorkbookFile) in ProcessAll(cat, Plan(files, None, nps)).log
    ensures NpsTable !in cat && nps.Some? && nps.value.Rows? ==>
      && ProcessAll(cat, Plan(files, None, nps)).completed
      && NpsTable in ProcessAll(cat, Plan(files, None, nps)).catalog
      && ProcessAll(cat, Plan(files, None, nps)).catalog[NpsTable] == nps.value.count
  {
    var csv := CsvSources(files);
    var afterCsv := ProcessAll(cat, csv);
    RunAppend(cat, csv + CustomerSources(None), NpsSources(nps));
    RunAppend(cat, csv, CustomerSources(None));
    RunSingle(afterCsv.catalog, MissingFile(CustomerWorkbookFile));
    var withWarning := ProcessAll(cat, csv + CustomerSources(None));
    assert withWarning.catalog == afterCsv.catalog;
    assert withWarning.log == afterCsv.log + [MissingWarning(CustomerWorkbookFile)];
    assert withWarning.log[|withWarning.log| - 1] == MissingWarning(CustomerWorkbookFile);
    assert MissingWarning(CustomerWorkbookFile) in ProcessAll(cat, Plan(files, None, nps)).log;
    if nps.Some? {
      RunSingle(withWarning.catalog, Table(NpsTable, nps.value));
      CsvNamesAvoidWorkbookTables(files);
      RunIsAdditive(cat, csv);
    }
  }

  /**
    An absent NPS workbook adds no `nps_data` table, is reported as a warning
    after the earlier stages, and fails the run only if an earlier stage did.
   */
  lemma MissingNpsWorkbook(cat: Catalog, files: seq<CsvFile>, workbook: Option<Workbook>)
    requires forall k :: 0 <= k < |files| ==> GlobStem(files[k].stem)
    ensures NpsTable in ProcessAll(cat, Plan(files, workbook, None)).catalog <==> NpsTable in cat
    ensures ProcessAll(cat, Plan(files, workbook, None)).completed
      == ProcessAll(cat, CsvSources(files) + CustomerSources(workbook)).completed
    ensures ProcessAll(cat, CsvSources(files) + CustomerSources(workbook)).completed ==>
      ProcessAll(cat, Plan(files, workbook, None)).log
        == ProcessAll(cat, CsvSources(files) + CustomerSources(workbook)).log + [MissingWarning(NpsWorkbookFile)]
  {
    var earlier := ProcessAll(cat, CsvSources(files) + CustomerSources(workbook));
    RunAppend(cat, CsvSources(files) + CustomerSources(workbook), NpsSources(None));
    RunSingle(earlier.catalog, MissingFile(NpsWorkbookFile));
    var plan := Plan(files, workbook, None);
    CsvNamesAvoidWorkbookTables(files);
    FixedSheetMapping(map[]);
    RunIsAdditive(cat, plan);
    forall t | t in Names(plan) ensures t != NpsTable {
      var k :| 0 <= k < |plan| && plan[k].Table? && plan[k].name == t;
      var customer := CustomerSources(workbook);
      if k < |files| {
        assert plan[k] == CsvSources(files)[k];
        assert t in Names(CsvSources(files));
      } else if k < |files| + |customer| {
        assert plan[k] == customer[k - |files|];
        assert workbook.Some?;
        assert t == SheetMapping[k - |files|].1 && t[1] == 'u';
      }
    }
  }

  /** Rerunning the loader on unchanged inputs leaves the catalog as the first run left it and loads nothing. */
  lemma RunTwice(cat: Catalog, files: seq<CsvFile>, workbook: Option<Workbook>, nps: Option<Content>)
    ensures var first := ProcessAll(cat, Plan(files, workbook, nps));
      var second := ProcessAll(first.catalog, Plan(files, workbook, nps));
      && second.catalog == first.catalog
      && second.completed == first.completed
      && forall k :: 0 <= k < |second.log| ==> !second.log[k].Loaded?
  {
    RunIsIdempotent(cat, Plan(files, workbook, nps));
  }

  /**
    After a complete run, a rerun over a directory that also holds one new
    snapshot file adds exactly that file's table and changes nothing else,
    whatever order the glob now returns the files in.
   */
  lemma NewSnapshotAddsOneTable(cat: Catalog, files: seq<CsvFile>, files': seq<CsvFile>, f: CsvFile, n: nat,
                                workbook: Option<Workbook>, nps: Option<Content>)
    requires ProcessAll(cat, Plan(files, workbook, nps)).completed
    requires f.content == Rows(n)
    requires DeriveTableName(f.stem) !in ProcessAll(cat, Plan(files, workbook, nps)).catalog
    requires f in files' && forall g :: g in files' ==> g in files || g == f
    ensures var first := ProcessAll(cat, Plan(files, workbook, nps));
      var second := ProcessAll(first.catalog, Plan(files', workbook, nps));
      second.completed && second.catalog == first.catalog[DeriveTableName(f.stem) := n]
  {
    var plan, plan' := Plan(files, workbook, nps), Plan(files', workbook, nps);
    var first := ProcessAll(cat, plan);
    var name := DeriveTableName(f.stem);
    CompletedRunCoversNames(cat, plan);
    forall k | 0 <= k < |plan'| && plan'[k].Table?
      ensures plan'[k].name in first.catalog || plan'[k] == Table(name, Rows(n))
    {
      if k < |files'| {
        assert plan'[k] == Table(DeriveTableName(files'[k].stem), files'[k].content);
        if files'[k] != f {
          assert files'[k] in files';
          var j :| 0 <= j < |files| && files[j] == files'[k];
          assert plan[j] == plan'[k];
        }
      } else {
        assert plan[k - |files'| + |files|] == plan'[k];
      }
    }
    var i :| 0 <= i < |files'| && files'[i] == f;
    assert plan'[i] == Table(name, Rows(n));
    RerunAddsOnlyNew(first.catalog, plan', name, n);
  }

  /** A run over two new readable tables and two absent workbooks creates exactly those two tables. */
  lemma TwoTablesRun(name1: string, a: nat, name2: string, b: nat)
    requires name1 != name2
    ensures var plan := [Table(name1, Rows(a)), Table(name2, Rows(b)),
                         MissingFile(CustomerWorkbookFile), MissingFile(NpsWorkbookFile)];
      var first := ProcessAll(map[], plan);
      && first.completed
      && first.catalog == map[name1 := a, name2 := b]
      && ProcessAll(first.catalog, plan).catalog == first.catalog
  {
    var plan := [Table(name1, Rows(a)), Table(name2, Rows(b)),
                 MissingFile(CustomerWorkbookFile), MissingFile(NpsWorkbookFile)];
    RunAppend(map[], [plan[0]], plan[1..]);
    assert [plan[0]] + plan[1..] == plan;
    RunSingle(map[], plan[0]);
    RerunAddsOnlyNew(map[name1 := a], plan[1..], name2, b);
    assert plan[1..][0] == Table(name2, Rows(b));
    RunIsIdempotent(map[], plan);
  }

  /** The plan of a run over two snapshot files and neither workbook. */
  lemma TwoSnapshotsPlan(d1: string, m1: string, y1: string, a: nat, d2: string, m2: string, y2: string, b: nat)
    requires Digits(d1, 2) && Digits(m1, 2) && Digits(y1, 4)
    requires Digits(d2, 2) && Digits(m2, 2) && Digits(y2, 4)
    ensures Plan([CsvFile(SnapshotStem(d1, m1, y1), Rows(a)), CsvFile(SnapshotStem(d2, m2, y2), Rows(b))], None, None)
      == [Table(DatedPrefix + y1 + m1 + d1, Rows(a)), Table(DatedPrefix + y2 + m2 + d2, Rows(b)),
          MissingFile(CustomerWorkbookFile), MissingFile(NpsWorkbookFile)]
  {
    SnapshotStemName(d1, m1, y1);
    SnapshotStemName(d2, m2, y2);
  }

  /**
    Two snapshot files with different dates, of `a` and `b` rows, and neither
    workbook, load into an empty database as exactly two dated tables with
    those row counts; a second run changes nothing.
   */
  lemma TwoSnapshotsEndToEnd(d1: string, m1: string, y1: string, a: nat, d2: string, m2: string, y2: string, b: nat)
    requires Digits(d1, 2) && Digits(m1, 2) && Digits(y1, 4)
    requires Digits(d2, 2) && Digits(m2, 2) && Digits(y2, 4)
    requires y1 + m1 + d1 != y2 + m2 + d2
    ensures var files := [CsvFile(SnapshotStem(d1, m1, y1), Rows(a)), CsvFile(SnapshotStem(d2, m2, y2), Rows(b))];
      var expected := map[DatedPrefix + y1 + m1 + d1 := a, DatedPrefix + y2 + m2 + d2 := b];
      var first := ProcessAll(map[], Plan(files, None, None));
      && first.completed
      && first.catalog == expected
      && ProcessAll(first.catalog, Plan(files, None, None)).catalog == expected
  {
    var name1, name2 := DatedPrefix + y1 + m1 + d1, DatedPrefix + y2 + m2 + d2;
    assert name1[12..] == y1 + m1 + d1 && name2[12..] == y2 + m2 + d2;
    TwoSnapshotsPlan(d1, m1, y1, a, d2, m2, y2, b);
    TwoTablesRun(name1, a, name2, b);
  }
}
