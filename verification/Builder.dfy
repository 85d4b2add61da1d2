/** `LineCoverage::merge` and `CoverageBuilder` of src/models.rs. */
module Builder {
  import opened Text

  datatype Place = Place(path: string, line: int)

  /** One source line; the formats modelled here attach no details. */
  datatype Row = Row(hits: int, covered: bool, counted: bool, branches: int, coveredBranches: int,
                     functions: int, coveredFunctions: int)

  datatype TestKind = LineKind | BranchKind | FunctionKind

  datatype TestMark = TestMark(test: string, kind: TestKind, path: string, line: int, region: string)

  datatype Report = Report(lines: map<Place, Row>, names: set<string>, tests: set<TestMark>)

  // ---------- rows ----------

  /** `LineCoverage::merge`: only a counted row passes its hits on. */
  function Merge(a: Row, b: Row): Row {
    Row(if b.counted && a.hits < b.hits then b.hits else a.hits, a.covered || (b.counted && b.covered),
        a.counted || b.counted, a.branches + b.branches, a.coveredBranches + b.coveredBranches,
        a.functions + b.functions, a.coveredFunctions + b.coveredFunctions)
  }

  /** What `add_line` stores: an uncounted row has no hits of its own, and no count is negative. */
  predicate Sound(r: Row) {
    && r.hits >= 0 && (!r.counted ==> r.hits == 0 && !r.covered)
    && r.branches >= 0 && r.coveredBranches >= 0 && r.functions >= 0 && r.coveredFunctions >= 0
  }

  function AtLeastZero(n: int): nat { if n < 0 then 0 else n }

  function RowOf(hits: int, covered: Option<bool>, counted: bool, branches: int, coveredBranches: int,
                 functions: int, coveredFunctions: int): (r: Row)
    ensures Sound(r)
  {
    Row(if counted then AtLeastZero(hits) else 0,
        counted && (if covered.Some? then covered.value else hits > 0), counted,
        AtLeastZero(branches), AtLeastZero(coveredBranches), AtLeastZero(functions), AtLeastZero(coveredFunctions))
  }

  // ---------- reports as a commutative monoid ----------

  const EMPTY: Report := Report(map[], {}, {})

  ghost predicate SoundReport(r: Report) { forall k :: k in r.lines ==> Sound(r.lines[k]) }

  function MergeAt(a: map<Place, Row>, b: map<Place, Row>, k: Place): Row
    requires k in a || k in b
  {
    if k !in b then a[k] else if k !in a then b[k] else Merge(a[k], b[k])
  }

  function Plus(a: Report, b: Report): Report {
    Report(map k | k in a.lines.Keys + b.lines.Keys :: MergeAt(a.lines, b.lines, k),
           a.names + b.names, a.tests + b.tests)
  }

  lemma MergeMonoid(a: Row, b: Row, c: Row)
    requires Sound(a) && Sound(b) && Sound(c)
    ensures Merge(a, b) == Merge(b, a) && Merge(Merge(a, b), c) == Merge(a, Merge(b, c)) && Sound(Merge(a, b))
  {
  }

  lemma PlusSound(a: Report, b: Report)
    requires SoundReport(a) && SoundReport(b)
    ensures SoundReport(Plus(a, b))
  {
  }

  lemma PlusEmpty(a: Report)
    ensures Plus(a, EMPTY) == a && Plus(EMPTY, a) == a
  {
  }

  lemma PlusCommutes(a: Report, b: Report)
    requires SoundReport(a) && SoundReport(b)
    ensures Plus(a, b) == Plus(b, a)
  {
    var x, y := Plus(a, b), Plus(b, a);
    forall k | k in x.lines ensures x.lines[k] == y.lines[k] {
      if k in a.lines && k in b.lines {
        MergeMonoid(a.lines[k], b.lines[k], a.lines[k]);
      }
    }
    assert x.lines == y.lines;
  }

  lemma PlusAssociates(a: Report, b: Report, c: Report)
    requires SoundReport(a) && SoundReport(b) && SoundReport(c)
    ensures Plus(Plus(a, b), c) == Plus(a, Plus(b, c))
  {
    var x, y := Plus(Plus(a, b), c), Plus(a, Plus(b, c));
    assert x.lines.Keys == y.lines.Keys;
    forall k | k in x.lines ensures x.lines[k] == y.lines[k] {
      if k in a.lines && k in b.lines && k in c.lines {
        MergeMonoid(a.lines[k], b.lines[k], c.lines[k]);
      }
    }
    assert x.lines == y.lines;
  }

  /** The row of a place; a place without one reads as all zero. */
  function RowAt(r: Report, k: Place): Row {
    if k in r.lines then r.lines[k] else Row(0, false, false, 0, 0, 0, 0)
  }

  lemma RowAtPlus(a: Report, b: Report, k: Place)
    requires SoundReport(a) && SoundReport(b)
    ensures RowAt(Plus(a, b), k) == Merge(RowAt(a, k), RowAt(b, k))
  {
    assert k in Plus(a, b).lines <==> k in a.lines || k in b.lines;
    if k in Plus(a, b).lines {
      assert Plus(a, b).lines[k] == MergeAt(a.lines, b.lines, k);
    }
  }

  // ---------- the builder ----------

  /** A record without a line number above zero leaves no trace. */
  function LineReport(path: string, line: int, row: Row): Report {
    if line <= 0 then EMPTY else Report(map[Place(path, line) := row], {}, {})
  }

  /** A blank test name leaves no trace, any other is stored trimmed. */
  function NameReport(name: string): Report {
    Report(map[], if Trim(name) == "" then {} else {Trim(name)}, {})
  }

  function MarkReport(m: TestMark): Report {
    var test := Trim(m.test);
    if test == "" || m.line <= 0 then EMPTY else Report(map[], {test}, {m.(test := test)})
  }

  class CoverageBuilder {
    const normalize: string -> string
    var lines: map<Place, Row>
    var testNames: set<string>
    var testCoverage: set<TestMark>
    var normalizedPaths: map<string, string>

    ghost predicate Valid()
      reads this
    {
      && (forall p :: p in normalizedPaths ==> normalizedPaths[p] == normalize(p))
      && SoundReport(Contents())
    }

    ghost function Contents(): Report
      reads this
    {
      Report(lines, testNames, testCoverage)
    }

    constructor (normalize: string -> string)
      ensures Valid() && Contents() == EMPTY && this.normalize == normalize
    {
      this.normalize := normalize;
      lines, testNames, testCoverage, normalizedPaths := map[], {}, {}, map[];
    }

    method Normalized(path: string) returns (normalized: string)
      requires Valid()
      modifies this`normalizedPaths
      ensures Valid() && normalized == normalize(path)
    {
      if path !in normalizedPaths {
        normalizedPaths := normalizedPaths[path := normalize(path)];
      }
      normalized := normalizedPaths[path];
    }

    method AddRow(path: string, line: int, row: Row)
      requires Valid() && Sound(row) && line > 0
      modifies this`lines
      ensures Valid() && Contents() == Plus(old(Contents()), LineReport(path, line, row))
    {
      var place := Place(path, line);
      if place in lines {
        MergeMonoid(lines[place], row, row);
        lines := lines[place := Merge(lines[place], row)];
      } else {
        lines := lines[place := row];
      }
      assert lines == Plus(old(Contents()), LineReport(path, line, row)).lines;
    }

    method AddLine(path: string, line: int, hits: int, covered: Option<bool>, counted: bool, branches: int,
                   coveredBranches: int, functions: int, coveredFunctions: int)
      requires Valid()
      modifies this`lines, this`normalizedPaths
      ensures Valid()
      ensures Contents() == Plus(old(Contents()), LineReport(normalize(path), line,
                RowOf(hits, covered, counted, branches, coveredBranches, functions, coveredFunctions)))
    {
      if line <= 0 {
        PlusEmpty(Contents());
        return;
      }
      var normalized := Normalized(path);
      AddRow(normalized, line, RowOf(hits, covered, counted, branches, coveredBranches, functions, coveredFunctions));
    }

    method AddTestName(name: string)
      requires Valid()
      modifies this`testNames
      ensures Valid() && Contents() == Plus(old(Contents()), NameReport(name))
    {
      var trimmed := Trim(name);
      if trimmed != "" {
        testNames := testNames + {trimmed};
      }
      assert lines == Plus(old(Contents()), NameReport(name)).lines;
    }

    method AddTestObservation(test: string, kind: TestKind, path: string, line: int, region: string)
      requires Valid()
      modifies this`testNames, this`testCoverage, this`normalizedPaths
      ensures Valid()
      ensures Contents() == Plus(old(Contents()), MarkReport(TestMark(test, kind, normalize(path), line, region)))
    {
      var trimmed := Trim(test);
      if trimmed == "" || line <= 0 {
        PlusEmpty(Contents());
        return;
      }
      AddTestName(trimmed);
      var normalized := Normalized(path);
      testCoverage := testCoverage + {TestMark(trimmed, kind, normalized, line, region)};
    }
  }
}
