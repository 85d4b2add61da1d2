/** `CoverageBuilder::build` and the report totals of src/models.rs. */
module Totals {
  import opened Text
  import opened Builder
  import opened Counting

  datatype Entry = Entry(place: Place, row: Row)

  /** What a total counts in one row. */
  type Measure = Row -> int

  const COUNTS_LINE: Measure := (r: Row) => if r.counted then 1 else 0
  const COUNTS_COVERED: Measure := (r: Row) => if r.counted && r.covered then 1 else 0
  const COUNTS_BRANCHES: Measure := (r: Row) => r.branches
  const COUNTS_COVERED_BRANCHES: Measure := (r: Row) => r.coveredBranches
  const COUNTS_FUNCTIONS: Measure := (r: Row) => r.functions
  const COUNTS_COVERED_FUNCTIONS: Measure := (r: Row) => r.coveredFunctions

  datatype FileCoverage = FileCoverage(lines: int, coveredLines: int, branches: int, coveredBranches: int,
                                       functions: int, coveredFunctions: int, regions: int, coveredRegions: int)

  /** Totals a format may give for a file itself; each one replaces the sum over the rows. */
  datatype Metrics = Metrics(lines: Option<int>, coveredLines: Option<int>, branches: Option<int>, coveredBranches: Option<int>,
                             functions: Option<int>, coveredFunctions: Option<int>,
                             regions: Option<int>, coveredRegions: Option<int>)

  const NO_METRICS: Metrics := Metrics(None, None, None, None, None, None, None, None)

  function RowsOf(rows: seq<Entry>, path: string): seq<Row> {
    if rows == [] then []
    else
      var rest, last := RowsOf(rows[..|rows| - 1], path), rows[|rows| - 1];
      if last.place.path == path then rest + [last.row] else rest
  }

  function SumOf(rows: seq<Row>, f: Measure): int {
    if rows == [] then 0 else SumOf(rows[..|rows| - 1], f) + f(rows[|rows| - 1])
  }

  function FileTotal(rows: seq<Entry>, path: string, f: Measure): int { SumOf(RowsOf(rows, path), f) }

  function Override(given: Option<int>, sum: int): nat { AtLeastZero(if given.Some? then given.value else sum) }

  function FileOf(rows: seq<Row>, m: Metrics): FileCoverage {
    FileCoverage(Override(m.lines, SumOf(rows, COUNTS_LINE)), Override(m.coveredLines, SumOf(rows, COUNTS_COVERED)),
                 Override(m.branches, SumOf(rows, COUNTS_BRANCHES)), Override(m.coveredBranches, SumOf(rows, COUNTS_COVERED_BRANCHES)),
                 Override(m.functions, SumOf(rows, COUNTS_FUNCTIONS)), Override(m.coveredFunctions, SumOf(rows, COUNTS_COVERED_FUNCTIONS)),
                 Override(m.regions, 0), Override(m.coveredRegions, 0))
  }

  function MetricsAt(metrics: map<string, Metrics>, path: string): Metrics {
    if path in metrics then metrics[path] else NO_METRICS
  }

  /** Every row's contribution, file by file or not. */
  function Overall(rows: seq<Entry>, f: Measure): int {
    if rows == [] then 0 else Overall(rows[..|rows| - 1], f) + f(rows[|rows| - 1].row)
  }

  /** The report's total: the sum over its files. */
  function OverFiles(rows: seq<Entry>, paths: seq<string>, f: Measure): int {
    if paths == [] then 0 else OverFiles(rows, paths[..|paths| - 1], f) + FileTotal(rows, paths[|paths| - 1], f)
  }

  // ---------- the loops ----------

  lemma {:induction false} NothingInFile(rows: seq<Entry>, path: string)
    requires forall e :: e in rows ==> e.place.path != path
    ensures RowsOf(rows, path) == []
  {
    if rows != [] {
      NothingInFile(rows[..|rows| - 1], path);
    }
  }

  /** The rows by file, in order. */
  method ByFile(rows: seq<Entry>) returns (files: map<string, seq<Row>>)
    ensures forall p :: p in files <==> exists e :: e in rows && e.place.path == p
    ensures forall p :: p in files ==> files[p] == RowsOf(rows, p)
  {
    files := map[];
    for i := 0 to |rows|
      invariant forall p :: p in files <==> exists e :: e in rows[..i] && e.place.path == p
      invariant forall p :: p in files ==> files[p] == RowsOf(rows[..i], p)
    {
      var e := rows[i];
      var p := e.place.path;
      assert rows[..i + 1] == rows[..i] + [e] && rows[..i + 1][..i] == rows[..i];
      if p !in files {
        NothingInFile(rows[..i], p);
      }
      files := files[p := (if p in files then files[p] else []) + [e.row]];
    }
    assert rows[..|rows|] == rows;
  }

  /** `build`: a file for every path with rows or with metrics of its own. */
  method Build(rows: seq<Entry>, metrics: map<string, Metrics>) returns (files: map<string, FileCoverage>)
    ensures forall p :: p in files <==> p in metrics || exists e :: e in rows && e.place.path == p
    ensures forall p :: p in files ==> files[p] == FileOf(RowsOf(rows, p), MetricsAt(metrics, p))
  {
    var byFile := ByFile(rows);
    files := map p | p in byFile.Keys + metrics.Keys :: FileOf(if p in byFile then byFile[p] else [], MetricsAt(metrics, p));
    forall p | p in metrics && p !in byFile ensures RowsOf(rows, p) == [] {
      NothingInFile(rows, p);
    }
  }

  // ---------- totals ----------

  lemma FileStep(rows: seq<Entry>, path: string, f: Measure)
    requires rows != []
    ensures var last := rows[|rows| - 1];
            FileTotal(rows, path, f) == FileTotal(rows[..|rows| - 1], path, f) + if last.place.path == path then f(last.row) else 0
  {
    var rest, last := RowsOf(rows[..|rows| - 1], path), rows[|rows| - 1];
    assert (rest + [last.row])[..|rest|] == rest;
  }

  lemma {:induction false} OneMoreRow(rows: seq<Entry>, paths: seq<string>, f: Measure)
    requires rows != [] && NoRepeats(paths)
    ensures var last := rows[|rows| - 1];
            OverFiles(rows, paths, f) == OverFiles(rows[..|rows| - 1], paths, f) + if last.place.path in paths then f(last.row) else 0
  {
    if paths != [] {
      var rest, p := paths[..|paths| - 1], paths[|paths| - 1];
      OneMoreRow(rows, rest, f);
      FileStep(rows, p, f);
      assert paths == rest + [p] && p !in rest;
    }
  }

  lemma {:induction false} NoRows(paths: seq<string>, f: Measure)
    ensures OverFiles([], paths, f) == 0
  {
    if paths != [] {
      NoRows(paths[..|paths| - 1], f);
    }
  }

  /** A report's total counts every row once, whatever order the files are summed in. */
  lemma {:induction false} FilesAddUp(rows: seq<Entry>, paths: seq<string>, f: Measure)
    requires NoRepeats(paths) && forall e :: e in rows ==> e.place.path in paths
    ensures OverFiles(rows, paths, f) == Overall(rows, f)
  {
    if rows == [] {
      NoRows(paths, f);
    } else {
      FilesAddUp(rows[..|rows| - 1], paths, f);
      OneMoreRow(rows, paths, f);
    }
  }

  predicate NoPlaceTwice(rows: seq<Entry>) {
    forall i, j :: 0 <= i < j < |rows| ==> rows[i].place != rows[j].place
  }

  /** The rows of a builder, listed once each. */
  ghost predicate Lists(rows: seq<Entry>, lines: map<Place, Row>) {
    && NoPlaceTwice(rows)
    && (forall e :: e in rows ==> e.place in lines && lines[e.place] == e.row)
    && (forall k :: k in lines ==> Entry(k, lines[k]) in rows)
  }

  function Counted(lines: map<Place, Row>, covered: bool): set<Place> {
    set k | k in lines && lines[k].counted && (covered ==> lines[k].covered)
  }

  function CountedEntries(rows: seq<Entry>, covered: bool): set<Place> {
    set e | e in rows && e.row.counted && (covered ==> e.row.covered) :: e.place
  }

  lemma CountedStep(rows: seq<Entry>, last: Entry, covered: bool)
    requires forall e :: e in rows ==> e.place != last.place
    ensures |CountedEntries(rows + [last], covered)| == |CountedEntries(rows, covered)|
              + if last.row.counted && (covered ==> last.row.covered) then 1 else 0
  {
    var before, after := CountedEntries(rows, covered), CountedEntries(rows + [last], covered);
    assert last in rows + [last];
    if last.row.counted && (covered ==> last.row.covered) {
      assert after == before + {last.place};
    } else {
      assert after == before;
    }
  }

  lemma {:induction false} LinesCount(rows: seq<Entry>)
    requires NoPlaceTwice(rows)
    ensures Overall(rows, COUNTS_LINE) == |CountedEntries(rows, false)|
    ensures Overall(rows, COUNTS_COVERED) == |CountedEntries(rows, true)|
  {
    if rows != [] {
      var rest, last := rows[..|rows| - 1], rows[|rows| - 1];
      LinesCount(rest);
      assert rows == rest + [last];
      CountedStep(rest, last, false);
      CountedStep(rest, last, true);
    }
  }

  /** A smaller measure has a smaller total. */
  lemma {:induction false} TotalsOrdered(rows: seq<Entry>, f: Measure, g: Measure)
    requires forall e :: e in rows ==> 0 <= f(e.row) <= g(e.row)
    ensures 0 <= Overall(rows, f) <= Overall(rows, g)
  {
    if rows != [] {
      assert rows[|rows| - 1] in rows;
      TotalsOrdered(rows[..|rows| - 1], f, g);
    }
  }

  /** Total and covered lines are the numbers of counted, and of covered, places. */
  lemma ReportLines(rows: seq<Entry>, lines: map<Place, Row>, paths: seq<string>)
    requires Lists(rows, lines) && NoRepeats(paths) && forall e :: e in rows ==> e.place.path in paths
    ensures OverFiles(rows, paths, COUNTS_LINE) == |Counted(lines, false)|
    ensures OverFiles(rows, paths, COUNTS_COVERED) == |Counted(lines, true)|
  {
    FilesAddUp(rows, paths, COUNTS_LINE);
    FilesAddUp(rows, paths, COUNTS_COVERED);
    LinesCount(rows);
    assert CountedEntries(rows, false) == Counted(lines, false);
    assert CountedEntries(rows, true) == Counted(lines, true);
  }

  /** No report covers more than it counts when no row does. */
  lemma CoveredWithinTotal(rows: seq<Entry>, paths: seq<string>)
    requires NoRepeats(paths) && forall e :: e in rows ==> e.place.path in paths
    requires forall e :: e in rows ==> 0 <= e.row.coveredBranches <= e.row.branches && 0 <= e.row.coveredFunctions <= e.row.functions
    ensures OverFiles(rows, paths, COUNTS_COVERED) <= OverFiles(rows, paths, COUNTS_LINE)
    ensures OverFiles(rows, paths, COUNTS_COVERED_BRANCHES) <= OverFiles(rows, paths, COUNTS_BRANCHES)
    ensures OverFiles(rows, paths, COUNTS_COVERED_FUNCTIONS) <= OverFiles(rows, paths, COUNTS_FUNCTIONS)
  {
    TotalOrder(rows, paths, COUNTS_COVERED, COUNTS_LINE);
    TotalOrder(rows, paths, COUNTS_COVERED_BRANCHES, COUNTS_BRANCHES);
    TotalOrder(rows, paths, COUNTS_COVERED_FUNCTIONS, COUNTS_FUNCTIONS);
  }

  lemma TotalOrder(rows: seq<Entry>, paths: seq<string>, f: Measure, g: Measure)
    requires NoRepeats(paths) && forall e :: e in rows ==> e.place.path in paths
    requires forall e :: e in rows ==> 0 <= f(e.row) <= g(e.row)
    ensures OverFiles(rows, paths, f) <= OverFiles(rows, paths, g)
  {
    FilesAddUp(rows, paths, f);
    FilesAddUp(rows, paths, g);
    TotalsOrdered(rows, f, g);
  }

  // ---------- the report of a build ----------

  /** A total of the report: the sum of one field over its files. */
  function ReportTotal(files: map<string, FileCoverage>, paths: seq<string>, field: FileCoverage -> int): int
    requires forall p :: p in paths ==> p in files
  {
    if paths == [] then 0
    else
      assert paths[|paths| - 1] in paths;
      ReportTotal(files, paths[..|paths| - 1], field) + field(files[paths[|paths| - 1]])
  }

  lemma {:induction false} ReportIsSum(rows: seq<Entry>, files: map<string, FileCoverage>, paths: seq<string>, field: FileCoverage -> int, f: Measure)
    requires forall p :: p in paths ==> p in files && field(files[p]) == FileTotal(rows, p, f)
    ensures ReportTotal(files, paths, field) == OverFiles(rows, paths, f)
  {
    if paths != [] {
      assert paths[|paths| - 1] in paths;
      ReportIsSum(rows, files, paths[..|paths| - 1], field, f);
    }
  }

  lemma {:induction false} SumAtLeastZero(rows: seq<Row>, f: Measure)
    requires forall r :: r in rows ==> f(r) >= 0
    ensures SumOf(rows, f) >= 0
  {
    if rows != [] {
      assert rows[|rows| - 1] in rows;
      SumAtLeastZero(rows[..|rows| - 1], f);
    }
  }

  /** The totals of a built report are the numbers of counted and of covered places, for every
      file whose format gives no line totals of its own. */
  lemma BuiltLines(rows: seq<Entry>, lines: map<Place, Row>, metrics: map<string, Metrics>, files: map<string, FileCoverage>, paths: seq<string>)
    requires Lists(rows, lines) && NoRepeats(paths)
    requires forall p :: p in files <==> p in metrics || exists e :: e in rows && e.place.path == p
    requires forall p :: p in files ==> files[p] == FileOf(RowsOf(rows, p), MetricsAt(metrics, p))
    requires forall p :: p in paths <==> p in files
    requires forall p :: p in metrics ==> metrics[p].lines.None? && metrics[p].coveredLines.None?
    ensures ReportTotal(files, paths, (c: FileCoverage) => c.lines) == |Counted(lines, false)|
    ensures ReportTotal(files, paths, (c: FileCoverage) => c.coveredLines) == |Counted(lines, true)|
  {
    forall p | p in paths
      ensures files[p].lines == FileTotal(rows, p, COUNTS_LINE) && files[p].coveredLines == FileTotal(rows, p, COUNTS_COVERED)
    {
      SumAtLeastZero(RowsOf(rows, p), COUNTS_LINE);
      SumAtLeastZero(RowsOf(rows, p), COUNTS_COVERED);
    }
    ReportIsSum(rows, files, paths, (c: FileCoverage) => c.lines, COUNTS_LINE);
    ReportIsSum(rows, files, paths, (c: FileCoverage) => c.coveredLines, COUNTS_COVERED);
    ReportLines(rows, lines, paths);
  }

  // ---------- every field ----------

  /** The sum over the rows of a path, said entry by entry. */
  function PathSum(rows: seq<Entry>, path: string, f: Measure): int {
    if rows == [] then 0
    else
      var last := rows[|rows| - 1];
      PathSum(rows[..|rows| - 1], path, f) + if last.place.path == path then f(last.row) else 0
  }

  lemma {:induction false} PathSumIs(rows: seq<Entry>, path: string, f: Measure)
    ensures SumOf(RowsOf(rows, path), f) == PathSum(rows, path, f)
  {
    if rows != [] {
      PathSumIs(rows[..|rows| - 1], path, f);
      FileStep(rows, path, f);
    }
  }

  /** A total is the metric the format gives, or the sum over the file's rows; never below 0. */
  predicate IsTotal(total: int, given: Option<int>, sum: int) {
    var n := if given.Some? then given.value else sum;
    total >= 0 && total >= n && (total == n || total == 0)
  }

  /** Each field of a file has its own metric and its own sum. */
  lemma FileMeaning(rows: seq<Entry>, metrics: map<string, Metrics>, p: string)
    ensures var c, m := FileOf(RowsOf(rows, p), MetricsAt(metrics, p)), if p in metrics then metrics[p] else NO_METRICS;
            && IsTotal(c.lines, m.lines, PathSum(rows, p, (r: Row) => if r.counted then 1 else 0))
            && IsTotal(c.coveredLines, m.coveredLines, PathSum(rows, p, (r: Row) => if r.counted && r.covered then 1 else 0))
            && IsTotal(c.branches, m.branches, PathSum(rows, p, (r: Row) => r.branches))
            && IsTotal(c.coveredBranches, m.coveredBranches, PathSum(rows, p, (r: Row) => r.coveredBranches))
            && IsTotal(c.functions, m.functions, PathSum(rows, p, (r: Row) => r.functions))
            && IsTotal(c.coveredFunctions, m.coveredFunctions, PathSum(rows, p, (r: Row) => r.coveredFunctions))
            && IsTotal(c.regions, m.regions, 0) && IsTotal(c.coveredRegions, m.coveredRegions, 0)
  {
    SameSum(rows, p, COUNTS_LINE, (r: Row) => if r.counted then 1 else 0);
    SameSum(rows, p, COUNTS_COVERED, (r: Row) => if r.counted && r.covered then 1 else 0);
    SameSum(rows, p, COUNTS_BRANCHES, (r: Row) => r.branches);
    SameSum(rows, p, COUNTS_COVERED_BRANCHES, (r: Row) => r.coveredBranches);
    SameSum(rows, p, COUNTS_FUNCTIONS, (r: Row) => r.functions);
    SameSum(rows, p, COUNTS_COVERED_FUNCTIONS, (r: Row) => r.coveredFunctions);
  }

  lemma {:induction false} SameSum(rows: seq<Entry>, p: string, f: Measure, g: Measure)
    requires forall r :: f(r) == g(r)
    ensures SumOf(RowsOf(rows, p), f) == PathSum(rows, p, g)
  {
    if rows != [] {
      SameSum(rows[..|rows| - 1], p, f, g);
      FileStep(rows, p, f);
    }
  }

  /** Where no metric replaces them, the branch and function totals of a report are the sums
      over all rows, and there are no regions. */
  lemma BuiltSums(rows: seq<Entry>, metrics: map<string, Metrics>, files: map<string, FileCoverage>, paths: seq<string>)
    requires NoRepeats(paths) && forall e :: e in rows ==> Sound(e.row)
    requires forall p :: p in files <==> p in metrics || exists e :: e in rows && e.place.path == p
    requires forall p :: p in files ==> files[p] == FileOf(RowsOf(rows, p), MetricsAt(metrics, p))
    requires forall p :: p in paths <==> p in files
    requires forall p :: p in metrics ==> metrics[p] == NO_METRICS
    ensures ReportTotal(files, paths, (c: FileCoverage) => c.branches) == Overall(rows, COUNTS_BRANCHES)
    ensures ReportTotal(files, paths, (c: FileCoverage) => c.coveredBranches) == Overall(rows, COUNTS_COVERED_BRANCHES)
    ensures ReportTotal(files, paths, (c: FileCoverage) => c.functions) == Overall(rows, COUNTS_FUNCTIONS)
    ensures ReportTotal(files, paths, (c: FileCoverage) => c.coveredFunctions) == Overall(rows, COUNTS_COVERED_FUNCTIONS)
  {
    forall e | e in rows ensures e.place.path in paths { }
    BuiltSum(rows, files, paths, (c: FileCoverage) => c.branches, COUNTS_BRANCHES);
    BuiltSum(rows, files, paths, (c: FileCoverage) => c.coveredBranches, COUNTS_COVERED_BRANCHES);
    BuiltSum(rows, files, paths, (c: FileCoverage) => c.functions, COUNTS_FUNCTIONS);
    BuiltSum(rows, files, paths, (c: FileCoverage) => c.coveredFunctions, COUNTS_COVERED_FUNCTIONS);
  }

  lemma BuiltSum(rows: seq<Entry>, files: map<string, FileCoverage>, paths: seq<string>, field: FileCoverage -> int, f: Measure)
    requires NoRepeats(paths) && (forall e :: e in rows ==> e.place.path in paths && f(e.row) >= 0)
    requires forall p :: p in paths ==> p in files && field(files[p]) == AtLeastZero(FileTotal(rows, p, f))
    ensures ReportTotal(files, paths, field) == Overall(rows, f)
  {
    forall p | p in paths ensures field(files[p]) == FileTotal(rows, p, f) {
      FileAtLeastZero(rows, p, f);
    }
    ReportIsSum(rows, files, paths, field, f);
    FilesAddUp(rows, paths, f);
  }

  lemma {:induction false} FileAtLeastZero(rows: seq<Entry>, p: string, f: Measure)
    requires forall e :: e in rows ==> f(e.row) >= 0
    ensures FileTotal(rows, p, f) >= 0
  {
    if rows != [] {
      assert rows[|rows| - 1] in rows;
      FileAtLeastZero(rows[..|rows| - 1], p, f);
      FileStep(rows, p, f);
    }
  }
}
