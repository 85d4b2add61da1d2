/** `parse_lcov` of src/parser.rs over classified lines. */
module Lcov {
  import opened Text
  import opened Builder

  /** What one line of a tracefile says. `Broken` is a record whose payload does not
      parse; the hits of a function record are read only when the function is known. */
  datatype Line =
    | Ignored
    | TestName(name: string)
    | SourceFile(path: string)
    | EndOfRecord
    | Broken
    | Data(line: int, hits: int)
    | FunctionAt(name: string, line: int)
    | FunctionData(name: string, calls: Option<int>)
    | Branch(line: int, taken: bool, region: string)

  /** `current_test`, `current_file` and `function_lines`. */
  datatype Cursor = Cursor(test: Option<string>, file: Option<string>, functions: map<string, int>)

  const START: Cursor := Cursor(None, None, map[])

  function Move(c: Cursor, l: Line): Cursor {
    match l
    case TestName(name) => c.(test := if Trim(name) == "" then None else Some(Trim(name)))
    case SourceFile(path) => c.(file := Some(path), functions := map[])
    case EndOfRecord => START
    case FunctionAt(name, line) => if c.file.Some? then c.(functions := c.functions[name := line]) else c
    case _ => c
  }

  predicate Fails(c: Cursor, l: Line) {
    c.file.Some? && (l.Broken? || (l.FunctionData? && l.name in c.functions && l.calls.None?))
  }

  function Mark(c: Cursor, hit: bool, kind: TestKind, path: string, line: int, region: string): Report {
    if hit && c.test.Some? then MarkReport(TestMark(c.test.value, kind, path, line, region)) else EMPTY
  }

  /** What one line adds to the report, given only the cursor. */
  function Adds(c: Cursor, l: Line, normalize: string -> string): Report {
    if l.TestName? then NameReport(l.name)
    else if c.file.None? then EMPTY
    else
      var path := normalize(c.file.value);
      match l
      case Data(line, hits) =>
        Plus(LineReport(path, line, RowOf(hits, None, true, 0, 0, 0, 0)), Mark(c, hits > 0, LineKind, path, line, "line"))
      case FunctionData(name, calls) =>
        if name !in c.functions || calls.None? then EMPTY
        else
          var line, hit := c.functions[name], calls.value > 0;
          Plus(LineReport(path, line, RowOf(0, Some(false), false, 0, 0, 1, if hit then 1 else 0)),
               Mark(c, hit, FunctionKind, path, line, name))
      case Branch(line, taken, region) =>
        Plus(LineReport(path, line, RowOf(0, Some(false), false, 1, if taken then 1 else 0, 0, 0)),
             Mark(c, taken, BranchKind, path, line, region))
      case _ => EMPTY
  }

  function CursorAfter(lines: seq<Line>): Cursor {
    if lines == [] then START else Move(CursorAfter(lines[..|lines| - 1]), lines[|lines| - 1])
  }

  predicate FailsSomewhere(lines: seq<Line>) {
    exists i :: 0 <= i < |lines| && Fails(CursorAfter(lines[..i]), lines[i])
  }

  function Sum(lines: seq<Line>, normalize: string -> string): Report {
    if lines == [] then EMPTY
    else
      var rest := lines[..|lines| - 1];
      Plus(Sum(rest, normalize), Adds(CursorAfter(rest), lines[|lines| - 1], normalize))
  }

  function Parse(lines: seq<Line>, normalize: string -> string): Option<Report> {
    if FailsSomewhere(lines) then None else Some(Sum(lines, normalize))
  }

  // ---------- the loop ----------

  lemma AddsSound(c: Cursor, l: Line, normalize: string -> string)
    ensures SoundReport(Adds(c, l, normalize))
  {
  }

  /** One line and its test observation. */
  method Record(b: CoverageBuilder, c: Cursor, file: string, line: int, row: Row, hit: bool, kind: TestKind, region: string)
    requires b.Valid() && Sound(row)
    modifies b
    ensures b.Valid()
    ensures b.Contents() == Plus(old(b.Contents()), Plus(LineReport(b.normalize(file), line, row),
                                                         Mark(c, hit, kind, b.normalize(file), line, region)))
  {
    ghost var before, path := b.Contents(), b.normalize(file);
    ghost var mark := Mark(c, hit, kind, path, line, region);
    b.AddLine(file, line, row.hits, Some(row.covered), row.counted, row.branches, row.coveredBranches,
              row.functions, row.coveredFunctions);
    ghost var between := b.Contents();
    if hit && c.test.Some? {
      b.AddTestObservation(c.test.value, kind, file, line, region);
    } else {
      PlusEmpty(between);
    }
    assert b.Contents() == Plus(between, mark);
    PlusAssociates(before, LineReport(path, line, row), mark);
  }

  method Step(b: CoverageBuilder, c: Cursor, l: Line) returns (failed: bool, next: Cursor)
    requires b.Valid()
    modifies b
    ensures b.Valid() && failed == Fails(c, l)
    ensures !failed ==> next == Move(c, l) && b.Contents() == Plus(old(b.Contents()), Adds(c, l, b.normalize))
  {
    failed, next := Fails(c, l), Move(c, l);
    PlusEmpty(b.Contents());
    if failed {
      return;
    }
    if l.TestName? {
      b.AddTestName(l.name);
    } else if c.file.Some? {
      match l {
        case Data(line, hits) =>
          Record(b, c, c.file.value, line, RowOf(hits, None, true, 0, 0, 0, 0), hits > 0, LineKind, "line");
        case FunctionData(name, calls) =>
          if name in c.functions {
            var hit := calls.value > 0;
            Record(b, c, c.file.value, c.functions[name],
                   RowOf(0, Some(false), false, 0, 0, 1, if hit then 1 else 0), hit, FunctionKind, name);
          }
        case Branch(line, taken, region) =>
          Record(b, c, c.file.value, line, RowOf(0, Some(false), false, 1, if taken then 1 else 0, 0, 0), taken, BranchKind, region);
        case _ =>
      }
    }
  }

  /** The first i lines have been read without failure. */
  ghost predicate ReadUpTo(lines: seq<Line>, i: nat, c: Cursor, r: Report, normalize: string -> string)
    requires i <= |lines|
  {
    && c == CursorAfter(lines[..i]) && r == Sum(lines[..i], normalize)
    && forall j :: 0 <= j < i ==> !Fails(CursorAfter(lines[..j]), lines[j])
  }

  lemma ReadOne(lines: seq<Line>, i: nat, c: Cursor, r: Report, normalize: string -> string)
    requires i < |lines| && ReadUpTo(lines, i, c, r, normalize) && !Fails(c, lines[i])
    ensures ReadUpTo(lines, i + 1, Move(c, lines[i]), Plus(r, Adds(c, lines[i], normalize)), normalize)
  {
    assert lines[..i + 1][..i] == lines[..i];
  }

  /** The parser fails at the first failing line; otherwise the builder holds the whole sum. */
  method ParseLcov(lines: seq<Line>, normalize: string -> string) returns (r: Option<Report>)
    ensures r == Parse(lines, normalize)
  {
    var b := new CoverageBuilder(normalize);
    var c := START;
    for i := 0 to |lines|
      invariant b.Valid() && b.normalize == normalize && fresh(b)
      invariant ReadUpTo(lines, i, c, b.Contents(), normalize)
    {
      ghost var before := b.Contents();
      var failed, next := Step(b, c, lines[i]);
      if failed {
        return None;
      }
      ReadOne(lines, i, c, before, normalize);
      c := next;
    }
    assert lines[..|lines|] == lines;
    r := Some(Report(b.lines, b.testNames, b.testCoverage));
  }
}
