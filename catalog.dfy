/**
  The loader's effect on the database catalog, as pure functions.

  The catalog is a map from table name to row count. Loading one source
  consults the catalog first (`table_exists`, src/load_to_duckdb.py lines
  32-39): a name already present is skipped; otherwise the source is read and
  a table with its rows is created. A source that cannot be read raises, which
  ends the whole run; the tables created before it stay.
 */
module Catalog {

  type Catalog = map<string, nat>

  /** What reading a source yields: a record set of `count` rows, or an exception. */
  datatype Content = Rows(count: nat) | Unreadable

  /**
    One unit of work of a run: a table to load from a source, or an expected
    workbook that is absent.
   */
  datatype Source = Table(name: string, content: Content) | MissingFile(file: string)

  /** The status line the loader prints for a unit of work. */
  datatype Event = Loaded(table: string, rows: nat) | SkippedExists(table: string) | MissingWarning(file: string)

  /** The catalog after a run, what it reported and whether it ran to its end. */
  datatype RunResult = RunResult(catalog: Catalog, log: seq<Event>, completed: bool)

  /** `after` keeps every table of `before`, each with its row count. */
  predicate Extends(after: Catalog, before: Catalog) {
    before.Keys <= after.Keys && forall t :: t in before ==> after[t] == before[t]
  }

  /** The table names a sequence of sources would create. */
  function Names(sources: seq<Source>): (names: set<string>) {
    set k | 0 <= k < |sources| && sources[k].Table? :: sources[k].name
  }

  /**
    One unit of work. An existing name is a no-op; a new name with readable
    content adds exactly that table with that row count; a new name whose
    content cannot be read stops the run with the catalog unchanged.
   */
  function Process(cat: Catalog, src: Source): (r: RunResult)
    ensures src.Table? && src.name in cat ==> r.catalog == cat && r.completed
    ensures src.Table? && src.name !in cat && src.content.Rows? ==>
      && r.catalog.Keys == cat.Keys + {src.name}
      && r.catalog[src.name] == src.content.count
      && (forall t :: t in cat ==> r.catalog[t] == cat[t])
      && r.completed
    ensures src.MissingFile? ==> r.catalog == cat && r.completed
    ensures !r.completed <==> src.Table? && src.name !in cat && src.content.Unreadable?
    ensures !r.completed ==> r.catalog == cat && r.log == []
    ensures r.completed ==> |r.log| == 1
  {
    match src
    case MissingFile(file) => RunResult(cat, [MissingWarning(file)], true)
    case Table(name, content) =>
      if name in cat then RunResult(cat, [SkippedExists(name)], true)
      else match content
        case Rows(n) => RunResult(cat[name := n], [Loaded(name, n)], true)
        case Unreadable => RunResult(cat, [], false)
  }

  /** Continue a run `r` with further sources, unless it has already stopped. */
  function Then(r: RunResult, sources: seq<Source>): (continued: RunResult) {
    if !r.completed then r
    else
      var rest := ProcessAll(r.catalog, sources);
      RunResult(rest.catalog, r.log + rest.log, rest.completed)
  }

  /** A run over `sources`, in order, starting from catalog `cat`. */
  function ProcessAll(cat: Catalog, sources: seq<Source>): (run: RunResult)
    decreases |sources|, 0
  {
    if sources == [] then RunResult(cat, [], true)
    else
      var first := Process(cat, sources[0]);
      if !first.completed then first
      else
        var rest := ProcessAll(first.catalog, sources[1..]);
        RunResult(rest.catalog, first.log + rest.log, rest.completed)
  }

  /** A run over one source is that source's unit of work. */
  lemma RunSingle(cat: Catalog, src: Source)
    ensures ProcessAll(cat, [src]) == Process(cat, src)
  {
    var first := Process(cat, src);
    assert [src][1..] == [];
    assert first.log + [] == first.log;
  }

  /** Running `a` then `b` is running `a + b`. */
  lemma {:induction false} RunAppend(cat: Catalog, a: seq<Source>, b: seq<Source>)
    ensures ProcessAll(cat, a + b) == Then(ProcessAll(cat, a), b)
    decreases |a|
  {
    if a == [] {
      assert a + b == b;
    } else {
      assert (a + b)[0] == a[0];
      assert (a + b)[1..] == a[1..] + b;
      var first := Process(cat, a[0]);
      if first.completed {
        RunAppend(first.catalog, a[1..], b);
      }
    }
  }

  /** One more step of a run over a prefix of `sources`; a step that stops the run ends it for good. */
  lemma RunStep(cat: Catalog, sources: seq<Source>, i: nat)
    requires i < |sources| && ProcessAll(cat, sources[..i]).completed
    ensures var r := ProcessAll(cat, sources[..i]);
      var step := Process(r.catalog, sources[i]);
      ProcessAll(cat, sources[..i + 1]) == RunResult(step.catalog, r.log + step.log, step.completed)
    ensures !ProcessAll(cat, sources[..i + 1]).completed ==> ProcessAll(cat, sources) == ProcessAll(cat, sources[..i + 1])
  {
    assert sources[..i + 1] == sources[..i] + [sources[i]];
    RunAppend(cat, sources[..i], [sources[i]]);
    RunSingle(ProcessAll(cat, sources[..i]).catalog, sources[i]);
    assert sources[..i + 1] + sources[i + 1..] == sources;
    RunAppend(cat, sources[..i + 1], sources[i + 1..]);
  }

  /**
    A run is additive: every table present before is present after with the
    same row count, and every new table is named by one of the sources.
   */
  lemma {:induction false} RunIsAdditive(cat: Catalog, sources: seq<Source>)
    ensures Extends(ProcessAll(cat, sources).catalog, cat)
    ensures ProcessAll(cat, sources).catalog.Keys <= cat.Keys + Names(sources)
    decreases |sources|
  {
    if sources != [] {
      var first := Process(cat, sources[0]);
      if first.completed {
        RunIsAdditive(first.catalog, sources[1..]);
        assert Names(sources) == (if sources[0].Table? then {sources[0].name} else {}) + Names(sources[1..]) by {
          forall t | t in Names(sources[1..]) ensures t in Names(sources) {
            var k :| 0 <= k < |sources[1..]| && sources[1..][k].Table? && sources[1..][k].name == t;
            assert sources[k + 1] == sources[1..][k];
          }
        }
      }
    }
  }

  /** A table no source names is in the catalog after a run exactly when it was before. */
  lemma UnnamedTableUntouched(cat: Catalog, sources: seq<Source>, t: string)
    requires t !in Names(sources)
    ensures t in ProcessAll(cat, sources).catalog <==> t in cat
  {
    RunIsAdditive(cat, sources);
  }

  /** A run that reaches its end reports once per source and leaves a table for every source name. */
  lemma {:induction false} CompletedRunCoversNames(cat: Catalog, sources: seq<Source>)
    requires ProcessAll(cat, sources).completed
    ensures Names(sources) <= ProcessAll(cat, sources).catalog.Keys
    ensures |ProcessAll(cat, sources).log| == |sources|
    decreases |sources|
  {
    if sources != [] {
      var first := Process(cat, sources[0]);
      CompletedRunCoversNames(first.catalog, sources[1..]);
      RunIsAdditive(first.catalog, sources[1..]);
      forall t | t in Names(sources) ensures t in ProcessAll(cat, sources).catalog {
        var k :| 0 <= k < |sources| && sources[k].Table? && sources[k].name == t;
        if k > 0 {
          assert sources[1..][k - 1] == sources[k];
        }
      }
    }
  }

  /**
    A second run over the same sources changes nothing: it ends in the same
    catalog, completes exactly when the first did, and loads no table.
   */
  lemma {:induction false} RunIsIdempotent(cat: Catalog, sources: seq<Source>)
    ensures ProcessAll(ProcessAll(cat, sources).catalog, sources).catalog == ProcessAll(cat, sources).catalog
    ensures ProcessAll(ProcessAll(cat, sources).catalog, sources).completed == ProcessAll(cat, sources).completed
    ensures forall k :: 0 <= k < |ProcessAll(ProcessAll(cat, sources).catalog, sources).log| ==>
      !ProcessAll(ProcessAll(cat, sources).catalog, sources).log[k].Loaded?
    decreases |sources|
  {
    if sources != [] {
      var first := Process(cat, sources[0]);
      var r := ProcessAll(cat, sources);
      if first.completed {
        RunIsIdempotent(first.catalog, sources[1..]);
        RunIsAdditive(first.catalog, sources[1..]);
        var again := Process(r.catalog, sources[0]);
        assert again.completed && again.catalog == r.catalog && !again.log[0].Loaded?;
      }
    }
  }

  /**
    First wins on a name collision: the first source to carry a name absent
    from the catalog decides that table's row count, and a later source with
    the same name is reported as skipped.
   */
  lemma FirstWins(cat: Catalog, sources: seq<Source>, i: nat, n: nat)
    requires i < |sources| && sources[i].Table? && sources[i].content == Rows(n)
    requires sources[i].name !in cat
    requires forall k :: 0 <= k < i ==> !(sources[k].Table? && sources[k].name == sources[i].name)
    requires ProcessAll(cat, sources[..i]).completed
    ensures sources[i].name in ProcessAll(cat, sources).catalog
    ensures ProcessAll(cat, sources).catalog[sources[i].name] == n
  {
    var name := sources[i].name;
    var before := ProcessAll(cat, sources[..i]);
    RunIsAdditive(cat, sources[..i]);
    assert name !in Names(sources[..i]);
    var after := Process(before.catalog, sources[i]);
    RunAppend(cat, sources[..i], sources[i..]);
    assert sources[..i] + sources[i..] == sources;
    assert sources[i..][1..] == sources[i + 1..];
    RunIsAdditive(after.catalog, sources[i + 1..]);
  }

  /**
    A later source whose name an earlier one already carried is reported as
    skipped, whenever the run gets as far as that later source.
   */
  lemma LaterDuplicateSkipped(cat: Catalog, sources: seq<Source>, i: nat, j: nat)
    requires i < j < |sources| && sources[i].Table? && sources[j].Table? && sources[i].name == sources[j].name
    requires ProcessAll(cat, sources[..j]).completed
    ensures j < |ProcessAll(cat, sources).log|
    ensures ProcessAll(cat, sources).log[j] == SkippedExists(sources[j].name)
  {
    var before := ProcessAll(cat, sources[..j]);
    CompletedRunCoversNames(cat, sources[..j]);
    assert sources[..j][i] == sources[i];
    assert sources[i].name in Names(sources[..j]);
    RunStep(cat, sources, j);
    var upTo := ProcessAll(cat, sources[..j + 1]);
    assert upTo.log == before.log + [SkippedExists(sources[j].name)];
    RunAppend(cat, sources[..j + 1], sources[j + 1..]);
    assert sources[..j + 1] + sources[j + 1..] == sources;
  }

  /** A run over sources whose every name is already in the catalog changes nothing and loads nothing. */
  lemma {:induction false} AllPresentIsNoOp(cat: Catalog, sources: seq<Source>)
    requires Names(sources) <= cat.Keys
    ensures ProcessAll(cat, sources).catalog == cat && ProcessAll(cat, sources).completed
    ensures forall k :: 0 <= k < |ProcessAll(cat, sources).log| ==> !ProcessAll(cat, sources).log[k].Loaded?
    decreases |sources|
  {
    if sources != [] {
      forall t | t in Names(sources[1..]) ensures t in cat {
        var k :| 0 <= k < |sources[1..]| && sources[1..][k].Table? && sources[1..][k].name == t;
        assert sources[k + 1] == sources[1..][k];
      }
      if sources[0].Table? {
        assert sources[0].name in Names(sources);
      }
      AllPresentIsNoOp(cat, sources[1..]);
    }
  }

  /**
    A run over sources that each either name a table already present or are
    one particular new readable source adds that one table and nothing else.
   */
  lemma {:induction false} RerunAddsOnlyNew(cat: Catalog, sources: seq<Source>, name: string, n: nat)
    requires name !in cat
    requires forall k :: 0 <= k < |sources| && sources[k].Table? ==> sources[k].name in cat || sources[k] == Table(name, Rows(n))
    ensures ProcessAll(cat, sources).completed
    ensures ProcessAll(cat, sources).catalog == if Table(name, Rows(n)) in sources then cat[name := n] else cat
    decreases |sources|
  {
    if sources != [] {
      var rest := sources[1..];
      assert forall k :: 0 <= k < |rest| ==> rest[k] == sources[k + 1];
      assert Table(name, Rows(n)) in sources <==> sources[0] == Table(name, Rows(n)) || Table(name, Rows(n)) in rest;
      if sources[0] == Table(name, Rows(n)) {
        var added := cat[name := n];
        forall t | t in Names(rest) ensures t in added {
          var k :| 0 <= k < |rest| && rest[k].Table? && rest[k].name == t;
        }
        AllPresentIsNoOp(added, rest);
      } else {
        RerunAddsOnlyNew(cat, rest, name, n);
      }
    }
  }
}
