/** Every number in a parsed tracefile, read off its records. */
module LcovMeaning {
  import opened Text
  import opened Builder
  import opened Counting
  import opened Lcov
  import opened LcovCursor
  import LcovLaws
  import Totals

  /** A file whose path the report spells this way is in effect at line i. */
  ghost predicate InFile(lines: seq<Line>, i: nat, normalize: string -> string, path: string)
    requires i <= |lines|
  {
    exists p :: FileAt(lines, i, p) && normalize(p) == path
  }

  lemma InFileMeaning(lines: seq<Line>, i: nat, normalize: string -> string, path: string)
    requires i <= |lines|
    ensures var file := CursorAfter(lines[..i]).file;
            InFile(lines, i, normalize, path) <==> file.Some? && normalize(file.value) == path
  {
    var file := CursorAfter(lines[..i]).file;
    if file.Some? {
      CursorFile(lines, i, file.value);
    }
    forall p | FileAt(lines, i, p) ensures file == Some(p) {
      CursorFile(lines, i, p);
    }
  }

  /** A DA record of the place. */
  ghost predicate DataAt(lines: seq<Line>, i: nat, normalize: string -> string, k: Place)
    requires i < |lines|
  {
    lines[i].Data? && lines[i].line == k.line && InFile(lines, i, normalize, k.path)
  }

  /** A BRDA record of the place. */
  ghost predicate BranchAt(lines: seq<Line>, i: nat, normalize: string -> string, k: Place)
    requires i < |lines|
  {
    lines[i].Branch? && lines[i].line == k.line && InFile(lines, i, normalize, k.path)
  }

  /** An FNDA record of a function that its file's record placed on this line. */
  ghost predicate CallAt(lines: seq<Line>, i: nat, normalize: string -> string, k: Place)
    requires i < |lines|
  {
    lines[i].FunctionData? && lines[i].calls.Some? && InFile(lines, i, normalize, k.path) && FunctionLine(lines, i, lines[i].name, k.line)
  }

  ghost function BranchTest(lines: seq<Line>, normalize: string -> string, k: Place, taken: bool): nat -> bool {
    (i: nat) => i < |lines| && BranchAt(lines, i, normalize, k) && (taken ==> lines[i].taken)
  }

  ghost function CallTest(lines: seq<Line>, normalize: string -> string, k: Place, positive: bool): nat -> bool {
    (i: nat) => i < |lines| && CallAt(lines, i, normalize, k) && (positive ==> lines[i].calls.value > 0)
  }

  /** The number of branch records of a place in the first n lines, or of those taken. */
  ghost function Branches(lines: seq<Line>, n: nat, normalize: string -> string, k: Place, taken: bool): nat {
    |Below(n, BranchTest(lines, normalize, k, taken))|
  }

  /** The number of call records of a place in the first n lines, or of those with positive calls. */
  ghost function Calls(lines: seq<Line>, n: nat, normalize: string -> string, k: Place, positive: bool): nat {
    |Below(n, CallTest(lines, normalize, k, positive))|
  }

  /** What a line adds to the row of a place. */
  function Share(lines: seq<Line>, i: nat, normalize: string -> string, k: Place): Row
    requires i < |lines|
  {
    RowAt(Adds(CursorAfter(lines[..i]), lines[i], normalize), k)
  }

  lemma LineShare(lines: seq<Line>, i: nat, normalize: string -> string, k: Place)
    requires i < |lines| && k.line > 0
    ensures var s := Share(lines, i, normalize, k);
            && s.counted == DataAt(lines, i, normalize, k)
            && s.hits == (if s.counted then AtLeastZero(lines[i].hits) else 0)
            && s.covered == (s.counted && lines[i].hits > 0)
  {
    InFileMeaning(lines, i, normalize, k.path);
  }

  lemma BranchShare(lines: seq<Line>, i: nat, normalize: string -> string, k: Place)
    requires i < |lines| && k.line > 0
    ensures var s := Share(lines, i, normalize, k);
            && s.branches == (if BranchAt(lines, i, normalize, k) then 1 else 0)
            && s.coveredBranches == (if BranchAt(lines, i, normalize, k) && lines[i].taken then 1 else 0)
  {
    InFileMeaning(lines, i, normalize, k.path);
  }

  lemma CallShare(lines: seq<Line>, i: nat, normalize: string -> string, k: Place)
    requires i < |lines| && k.line > 0
    ensures var s := Share(lines, i, normalize, k);
            && s.functions == (if CallAt(lines, i, normalize, k) then 1 else 0)
            && s.coveredFunctions == (if CallAt(lines, i, normalize, k) && lines[i].calls.value > 0 then 1 else 0)
  {
    InFileMeaning(lines, i, normalize, k.path);
    if lines[i].FunctionData? {
      CursorFunctions(lines, i, lines[i].name, k.line);
    }
  }

  lemma SumStep(lines: seq<Line>, normalize: string -> string, k: Place)
    requires lines != []
    ensures RowAt(Sum(lines, normalize), k)
         == Merge(RowAt(Sum(lines[..|lines| - 1], normalize), k), Share(lines, |lines| - 1, normalize, k))
  {
    var rest := lines[..|lines| - 1];
    LcovLaws.SumSound(rest, normalize);
    AddsSound(CursorAfter(rest), lines[|lines| - 1], normalize);
    RowAtPlus(Sum(rest, normalize), Adds(CursorAfter(rest), lines[|lines| - 1], normalize), k);
  }

  lemma SumUpTo(lines: seq<Line>, m: nat, normalize: string -> string, k: Place)
    requires m < |lines|
    ensures RowAt(Sum(lines[..m + 1], normalize), k) == Merge(RowAt(Sum(lines[..m], normalize), k), Share(lines, m, normalize, k))
  {
    assert lines[..m + 1][..m] == lines[..m];
    SumStep(lines[..m + 1], normalize, k);
  }

  /** A counted line has a DA record and is covered exactly when one of them has positive hits;
      its count is their maximum, and at least 0. */
  ghost predicate Summarized(lines: seq<Line>, n: nat, normalize: string -> string, k: Place, row: Row)
    requires n <= |lines|
  {
    && (row.counted <==> exists i: nat :: i < n && DataAt(lines, i, normalize, k))
    && (row.covered <==> exists i: nat :: i < n && DataAt(lines, i, normalize, k) && lines[i].hits > 0)
    && (forall i: nat :: i < n && DataAt(lines, i, normalize, k) ==> lines[i].hits <= row.hits)
    && (row.hits == 0 || exists i: nat :: i < n && DataAt(lines, i, normalize, k) && lines[i].hits == row.hits)
    && row.hits >= 0
  }

  /** The same over any test of indices and any counts. */
  ghost predicate SummarizedBy(n: nat, data: nat -> bool, hits: nat -> int, row: Row) {
    && (row.counted <==> exists i: nat :: i < n && data(i))
    && (row.covered <==> exists i: nat :: i < n && data(i) && hits(i) > 0)
    && (forall i: nat :: i < n && data(i) ==> hits(i) <= row.hits)
    && (row.hits == 0 || exists i: nat :: i < n && data(i) && hits(i) == row.hits)
    && row.hits >= 0
  }

  lemma SummarizeByOne(n: nat, data: nat -> bool, hits: nat -> int, row: Row, share: Row)
    requires SummarizedBy(n, data, hits, row) && share.counted == data(n)
    requires share.hits == (if share.counted then AtLeastZero(hits(n)) else 0) && share.covered == (share.counted && hits(n) > 0)
    ensures SummarizedBy(n + 1, data, hits, Merge(row, share))
  {
  }

  ghost function DataTest(lines: seq<Line>, normalize: string -> string, k: Place): nat -> bool {
    (i: nat) => i < |lines| && DataAt(lines, i, normalize, k)
  }

  ghost function HitsTest(lines: seq<Line>): nat -> int {
    (i: nat) => if i < |lines| && lines[i].Data? then lines[i].hits else 0
  }

  lemma SameSummary(lines: seq<Line>, n: nat, normalize: string -> string, k: Place, row: Row)
    requires n <= |lines|
    ensures Summarized(lines, n, normalize, k, row) <==> SummarizedBy(n, DataTest(lines, normalize, k), HitsTest(lines), row)
  {
    var data, hits := DataTest(lines, normalize, k), HitsTest(lines);
    assert forall i: nat :: i < n ==> data(i) == DataAt(lines, i, normalize, k) && (data(i) ==> hits(i) == lines[i].hits);
  }

  lemma SummarizeOne(lines: seq<Line>, n: nat, normalize: string -> string, k: Place, row: Row, share: Row)
    requires n < |lines| && Summarized(lines, n, normalize, k, row)
    requires share.counted == DataAt(lines, n, normalize, k)
    requires share.hits == (if share.counted then AtLeastZero(lines[n].hits) else 0)
    requires share.covered == (share.counted && lines[n].hits > 0)
    ensures Summarized(lines, n + 1, normalize, k, Merge(row, share))
  {
    SameSummary(lines, n, normalize, k, row);
    SameSummary(lines, n + 1, normalize, k, Merge(row, share));
    SummarizeByOne(n, DataTest(lines, normalize, k), HitsTest(lines), row, share);
  }

  lemma {:induction false} LinesUpTo(lines: seq<Line>, n: nat, normalize: string -> string, k: Place)
    requires k.line > 0 && n <= |lines|
    ensures Summarized(lines, n, normalize, k, RowAt(Sum(lines[..n], normalize), k))
  {
    if n > 0 {
      var m := n - 1;
      LinesUpTo(lines, m, normalize, k);
      SumUpTo(lines, m, normalize, k);
      LineShare(lines, m, normalize, k);
      SummarizeOne(lines, m, normalize, k, RowAt(Sum(lines[..m], normalize), k), Share(lines, m, normalize, k));
    }
  }

  lemma LinesMeaning(lines: seq<Line>, normalize: string -> string, k: Place)
    requires k.line > 0
    ensures Summarized(lines, |lines|, normalize, k, RowAt(Sum(lines, normalize), k))
  {
    LinesUpTo(lines, |lines|, normalize, k);
    assert lines[..|lines|] == lines;
  }

  lemma {:induction false} BranchesUpTo(lines: seq<Line>, n: nat, normalize: string -> string, k: Place)
    requires k.line > 0 && n <= |lines|
    ensures var row := RowAt(Sum(lines[..n], normalize), k);
            && row.branches == Branches(lines, n, normalize, k, false)
            && row.coveredBranches == Branches(lines, n, normalize, k, true)
            && row.coveredBranches <= row.branches
  {
    if n > 0 {
      var m := n - 1;
      BranchesUpTo(lines, m, normalize, k);
      SumUpTo(lines, m, normalize, k);
      BranchShare(lines, m, normalize, k);
      BelowStep(m, BranchTest(lines, normalize, k, false));
      BelowStep(m, BranchTest(lines, normalize, k, true));
    }
  }

  lemma {:induction false} CallsUpTo(lines: seq<Line>, n: nat, normalize: string -> string, k: Place)
    requires k.line > 0 && n <= |lines|
    ensures var row := RowAt(Sum(lines[..n], normalize), k);
            && row.functions == Calls(lines, n, normalize, k, false)
            && row.coveredFunctions == Calls(lines, n, normalize, k, true)
            && row.coveredFunctions <= row.functions
  {
    if n > 0 {
      var m := n - 1;
      CallsUpTo(lines, m, normalize, k);
      SumUpTo(lines, m, normalize, k);
      CallShare(lines, m, normalize, k);
      BelowStep(m, CallTest(lines, normalize, k, false));
      BelowStep(m, CallTest(lines, normalize, k, true));
    }
  }

  /** The branch counts are the numbers of BRDA records of the line, and of those taken. */
  lemma BranchMeaning(lines: seq<Line>, normalize: string -> string, k: Place)
    requires k.line > 0
    ensures var row := RowAt(Sum(lines, normalize), k);
            && row.branches == Branches(lines, |lines|, normalize, k, false)
            && row.coveredBranches == Branches(lines, |lines|, normalize, k, true)
            && row.coveredBranches <= row.branches
  {
    BranchesUpTo(lines, |lines|, normalize, k);
    assert lines[..|lines|] == lines;
  }

  /** The function counts are the numbers of FNDA records of functions placed on the line, and
      of those with positive calls. */
  lemma FunctionMeaning(lines: seq<Line>, normalize: string -> string, k: Place)
    requires k.line > 0
    ensures var row := RowAt(Sum(lines, normalize), k);
            && row.functions == Calls(lines, |lines|, normalize, k, false)
            && row.coveredFunctions == Calls(lines, |lines|, normalize, k, true)
            && row.coveredFunctions <= row.functions
  {
    CallsUpTo(lines, |lines|, normalize, k);
    assert lines[..|lines|] == lines;
  }

  // ---------- named tests ----------

  /** Line i credits test t with a covered observation. */
  ghost predicate Credits(lines: seq<Line>, i: nat, normalize: string -> string, m: TestMark)
    requires i < |lines|
  {
    && TestAt(lines, i, m.test) && InFile(lines, i, normalize, m.path) && m.line > 0
    && match lines[i]
       case Data(line, hits) => m.kind == LineKind && hits > 0 && m.line == line && m.region == "line"
       case Branch(line, taken, region) => m.kind == BranchKind && taken && m.line == line && m.region == region
       case FunctionData(name, calls) =>
         m.kind == FunctionKind && calls.Some? && calls.value > 0 && FunctionLine(lines, i, name, m.line) && m.region == name
       case _ => false
  }

  lemma {:induction false} CursorNamed(lines: seq<Line>)
    ensures var test := CursorAfter(lines).test; test.Some? ==> test.value != "" && Trim(test.value) == test.value
  {
    if lines != [] {
      CursorNamed(lines[..|lines| - 1]);
    }
  }

  /** The same, said through the cursor. */
  predicate CursorCredits(c: Cursor, l: Line, normalize: string -> string, m: TestMark) {
    && c.test == Some(m.test) && c.file.Some? && normalize(c.file.value) == m.path && m.line > 0
    && match l
       case Data(line, hits) => m.kind == LineKind && hits > 0 && m.line == line && m.region == "line"
       case Branch(line, taken, region) => m.kind == BranchKind && taken && m.line == line && m.region == region
       case FunctionData(name, calls) =>
         m.kind == FunctionKind && calls.Some? && calls.value > 0 && HasFunction(c, name, m.line) && m.region == name
       case _ => false
  }

  lemma AddsMarks(c: Cursor, l: Line, normalize: string -> string, m: TestMark)
    requires c.test.Some? ==> c.test.value != "" && Trim(c.test.value) == c.test.value
    ensures m in Adds(c, l, normalize).tests <==> CursorCredits(c, l, normalize, m)
  {
  }

  lemma CreditOne(lines: seq<Line>, i: nat, normalize: string -> string, m: TestMark)
    requires i < |lines|
    ensures m in Adds(CursorAfter(lines[..i]), lines[i], normalize).tests <==> Credits(lines, i, normalize, m)
  {
    var c := CursorAfter(lines[..i]);
    CursorNamed(lines[..i]);
    AddsMarks(c, lines[i], normalize, m);
    CursorTest(lines, i, m.test);
    InFileMeaning(lines, i, normalize, m.path);
    if lines[i].FunctionData? {
      CursorFunctions(lines, i, lines[i].name, m.line);
    }
  }

  lemma TestsUpTo(lines: seq<Line>, m: nat, normalize: string -> string)
    requires m < |lines|
    ensures Sum(lines[..m + 1], normalize).tests
         == Sum(lines[..m], normalize).tests + Adds(CursorAfter(lines[..m]), lines[m], normalize).tests
  {
    assert lines[..m + 1][..m] == lines[..m];
  }

  /** A test is credited with exactly the positive records read under its name. */
  lemma {:induction false} TestsMeaning(lines: seq<Line>, n: nat, normalize: string -> string, m: TestMark)
    requires n <= |lines|
    ensures m in Sum(lines[..n], normalize).tests <==> exists i: nat :: i < n && Credits(lines, i, normalize, m)
  {
    if n > 0 {
      var last := n - 1;
      TestsMeaning(lines, last, normalize, m);
      TestsUpTo(lines, last, normalize);
      CreditOne(lines, last, normalize, m);
    }
  }

  /** The named tests are the names on TN lines, trimmed, blank ones left out. */
  lemma {:induction false} NamesMeaning(lines: seq<Line>, n: nat, normalize: string -> string, t: string)
    requires n <= |lines|
    ensures t in Sum(lines[..n], normalize).names <==>
              t != "" && exists i: nat :: i < n && lines[i].TestName? && Trim(lines[i].name) == t
  {
    if n > 0 {
      var last := n - 1;
      NamesMeaning(lines, last, normalize, t);
      NamesUpTo(lines, last, normalize);
      NameShare(lines, last, normalize, t);
    }
  }

  lemma NamesUpTo(lines: seq<Line>, m: nat, normalize: string -> string)
    requires m < |lines|
    ensures Sum(lines[..m + 1], normalize).names
         == Sum(lines[..m], normalize).names + Adds(CursorAfter(lines[..m]), lines[m], normalize).names
  {
    assert lines[..m + 1][..m] == lines[..m];
  }

  lemma NameShare(lines: seq<Line>, i: nat, normalize: string -> string, t: string)
    requires i < |lines|
    ensures var names := Adds(CursorAfter(lines[..i]), lines[i], normalize).names;
            && (lines[i].TestName? ==> (t in names <==> t != "" && Trim(lines[i].name) == t))
            && (!lines[i].TestName? && t in names ==> t != "" && exists j: nat :: j < i && lines[j].TestName? && Trim(lines[j].name) == t)
  {
    var c := CursorAfter(lines[..i]);
    CursorNamed(lines[..i]);
    AddsNames(c, lines[i], normalize, t);
    if c.test == Some(t) {
      CursorTest(lines, i, t);
      var j :| 0 <= j < i && OpensTest(lines, j, i, t);
    }
  }

  lemma AddsNames(c: Cursor, l: Line, normalize: string -> string, t: string)
    requires c.test.Some? ==> c.test.value != "" && Trim(c.test.value) == c.test.value
    ensures var names := Adds(c, l, normalize).names;
            if l.TestName? then t in names <==> t != "" && Trim(l.name) == t else t in names ==> c.test == Some(t)
  {
  }

  // ---------- totals ----------

  lemma AddsPositive(c: Cursor, l: Line, normalize: string -> string)
    ensures forall k :: k in Adds(c, l, normalize).lines ==> k.line > 0
  {
  }

  lemma {:induction false} PlacesPositive(lines: seq<Line>, normalize: string -> string)
    ensures forall k :: k in Sum(lines, normalize).lines ==> k.line > 0
  {
    if lines != [] {
      var rest := lines[..|lines| - 1];
      PlacesPositive(rest, normalize);
      AddsPositive(CursorAfter(rest), lines[|lines| - 1], normalize);
      PlusPlaces(Sum(rest, normalize), Adds(CursorAfter(rest), lines[|lines| - 1], normalize));
    }
  }

  lemma PlusPlaces(a: Report, b: Report)
    requires (forall k :: k in a.lines ==> k.line > 0) && (forall k :: k in b.lines ==> k.line > 0)
    ensures forall k :: k in Plus(a, b).lines ==> k.line > 0
  {
  }

  predicate Shows(r: Row) { r.counted || r.branches > 0 || r.functions > 0 }

  /** A place has a row exactly when the row shows that some record of it was read. */
  predicate Marked(r: Report, k: Place) { k in r.lines <==> Shows(RowAt(r, k)) }

  lemma AddsMarked(c: Cursor, l: Line, normalize: string -> string, k: Place)
    ensures Marked(Adds(c, l, normalize), k)
  {
  }

  lemma MergeShows(x: Row, y: Row)
    requires Sound(x) && Sound(y)
    ensures Shows(Merge(x, y)) <==> Shows(x) || Shows(y)
  {
  }

  lemma RowAtSound(r: Report, k: Place)
    requires SoundReport(r)
    ensures Sound(RowAt(r, k))
  {
  }

  lemma PlusKeys(a: Report, b: Report, k: Place)
    ensures k in Plus(a, b).lines <==> k in a.lines || k in b.lines
  {
  }

  lemma PlusMarked(a: Report, b: Report, k: Place)
    requires SoundReport(a) && SoundReport(b) && Marked(a, k) && Marked(b, k)
    ensures Marked(Plus(a, b), k)
  {
    RowAtSound(a, k);
    RowAtSound(b, k);
    MergeShows(RowAt(a, k), RowAt(b, k));
    PlusKeys(a, b, k);
    RowAtPlus(a, b, k);
  }

  lemma {:induction false} PlacesMeaning(lines: seq<Line>, normalize: string -> string, k: Place)
    ensures Marked(Sum(lines, normalize), k)
  {
    if lines != [] {
      var rest, last := lines[..|lines| - 1], lines[|lines| - 1];
      PlacesMeaning(rest, normalize, k);
      LcovLaws.SumSound(rest, normalize);
      AddsSound(CursorAfter(rest), last, normalize);
      AddsMarked(CursorAfter(rest), last, normalize, k);
      PlusMarked(Sum(rest, normalize), Adds(CursorAfter(rest), last, normalize), k);
    }
  }

  /** No tracefile, however malformed its numbers, is reported as covering more than it counts. */
  lemma CoveredWithinTotal(lines: seq<Line>, normalize: string -> string, rows: seq<Totals.Entry>, paths: seq<string>)
    requires Totals.Lists(rows, Sum(lines, normalize).lines)
    requires NoRepeats(paths) && forall e :: e in rows ==> e.place.path in paths
    ensures Totals.OverFiles(rows, paths, Totals.COUNTS_COVERED) <= Totals.OverFiles(rows, paths, Totals.COUNTS_LINE)
    ensures Totals.OverFiles(rows, paths, Totals.COUNTS_COVERED_BRANCHES) <= Totals.OverFiles(rows, paths, Totals.COUNTS_BRANCHES)
    ensures Totals.OverFiles(rows, paths, Totals.COUNTS_COVERED_FUNCTIONS) <= Totals.OverFiles(rows, paths, Totals.COUNTS_FUNCTIONS)
  {
    PlacesPositive(lines, normalize);
    forall e | e in rows
      ensures 0 <= e.row.coveredBranches <= e.row.branches && 0 <= e.row.coveredFunctions <= e.row.functions
    {
      BranchMeaning(lines, normalize, e.place);
      FunctionMeaning(lines, normalize, e.place);
    }
    Totals.CoveredWithinTotal(rows, paths);
  }
}
