/** `parse_go` of src/parser.rs: statement blocks expanded to every line they touch. */
module Go {
  import opened Text
  import opened Builder

  datatype Block = Block(file: string, start: int, end: int, statements: int, hits: int)

  /** Positions start at line 1; blocks of more than a million lines are refused. */
  predicate Accepted(b: Block) {
    1 <= b.start <= b.end && b.statements >= 0 && b.hits >= 0 && b.end - b.start + 1 <= 1000000
  }

  function RowFor(b: Block): (r: Row)
    ensures Sound(r)
  {
    RowOf(b.hits, Some(b.hits > 0), true, 0, 0, 0, 0)
  }

  function Places(path: string, start: int, n: nat): set<Place> {
    set i: int | start <= i < start + n :: Place(path, i)
  }

  /** n lines from `start` on, all with one row. */
  function Expanded(path: string, start: int, n: nat, row: Row): Report {
    Report(map k | k in Places(path, start, n) :: row, {}, {})
  }

  function BlockReport(b: Block, normalize: string -> string): Report {
    Expanded(normalize(b.file), b.start, if b.end < b.start then 0 else b.end - b.start + 1, RowFor(b))
  }

  function Sum(blocks: seq<Block>, normalize: string -> string): Report {
    if blocks == [] then EMPTY
    else Plus(Sum(blocks[..|blocks| - 1], normalize), BlockReport(blocks[|blocks| - 1], normalize))
  }

  function Parse(blocks: seq<Block>, normalize: string -> string): Option<Report> {
    if forall b :: b in blocks ==> Accepted(b) then Some(Sum(blocks, normalize)) else None
  }

  // ---------- the text ----------

  datatype Record = Blank | Malformed | Is(block: Block)

  /** A position is a line and a column; lines start at 1. */
  function ReadPosition(s: string, number: NumberSyntax): Option<int> {
    var i := IndexOf(s, '.');
    if i == |s| then None
    else
      var line := number(s[..i]);
      if line.None? || number(s[i + 1..]).None? || line.value < 1 then None else line
  }

  /** The part before the last colon and the two positions behind it. */
  function ReadRange(s: string, number: NumberSyntax): Option<(string, int, int)> {
    var i := LastIndexOf(s, ':');
    if i == |s| then None
    else
      var lines := ReadPositions(s[i + 1..], number);
      if lines.None? then None else Some((s[..i], lines.value.0, lines.value.1))
  }

  function ReadPositions(range: string, number: NumberSyntax): Option<(int, int)> {
    var j := IndexOf(range, ',');
    if j == |range| then None
    else
      var start, end := ReadPosition(range[..j], number), ReadPosition(range[j + 1..], number);
      if start.None? || end.None? then None else Some((start.value, end.value))
  }

  /** A record has exactly three fields: the range, the statements and the hits. */
  function ReadRecord(raw: string, number: NumberSyntax): Record {
    var words := Words(raw);
    if words == [] then Blank
    else if |words| != 3 then Malformed
    else
      var range, statements, hits := ReadRange(words[0], number), number(words[1]), number(words[2]);
      if range.None? || statements.None? || hits.None? then Malformed
      else Is(Block(range.value.0, range.value.1, range.value.2, statements.value, hits.value))
  }

  function Records(lines: seq<string>, number: NumberSyntax): seq<Record> {
    seq(|lines|, i requires 0 <= i < |lines| => ReadRecord(lines[i], number))
  }

  function Blocks(records: seq<Record>): seq<Block> {
    if records == [] then []
    else
      var rest, last := Blocks(records[..|records| - 1]), records[|records| - 1];
      if last.Is? then rest + [last.block] else rest
  }

  function ParseText(lines: seq<string>, number: NumberSyntax, normalize: string -> string): Option<Report> {
    if lines == [] || !StartsWith(lines[0], "mode:") || Malformed in Records(lines[1..], number) then None
    else Parse(Blocks(Records(lines[1..], number)), normalize)
  }

  // ---------- sound rows ----------

  lemma BlockSound(b: Block, normalize: string -> string)
    ensures SoundReport(BlockReport(b, normalize))
  {
  }

  lemma {:induction false} SumSound(blocks: seq<Block>, normalize: string -> string)
    ensures SoundReport(Sum(blocks, normalize))
  {
    if blocks != [] {
      SumSound(blocks[..|blocks| - 1], normalize);
      BlockSound(blocks[|blocks| - 1], normalize);
      PlusSound(Sum(blocks[..|blocks| - 1], normalize), BlockReport(blocks[|blocks| - 1], normalize));
    }
  }

  // ---------- the loops ----------

  lemma ExpandOne(before: Report, path: string, start: int, n: nat, row: Row)
    requires SoundReport(before) && Sound(row) && start > 0
    ensures Plus(Plus(before, Expanded(path, start, n, row)), LineReport(path, start + n, row))
         == Plus(before, Expanded(path, start, n + 1, row))
  {
    var e, l := Expanded(path, start, n, row), LineReport(path, start + n, row);
    assert Places(path, start, n + 1) == Places(path, start, n) + {Place(path, start + n)};
    assert Plus(e, l).lines == Expanded(path, start, n + 1, row).lines;
    PlusAssociates(before, e, l);
  }

  lemma ExpandNone(before: Report, path: string, start: int, row: Row)
    ensures Plus(before, Expanded(path, start, 0, row)) == before
  {
    assert Expanded(path, start, 0, row) == EMPTY;
    PlusEmpty(before);
  }

  lemma ExpandAt(before: Report, path: string, start: int, line: int, row: Row, after: Report)
    requires SoundReport(before) && Sound(row) && 1 <= start <= line
    requires after == Plus(Plus(before, Expanded(path, start, line - start, row)), LineReport(path, line, row))
    ensures after == Plus(before, Expanded(path, start, line - start + 1, row))
  {
    ExpandOne(before, path, start, line - start, row);
  }

  method ExpandLine(builder: CoverageBuilder, b: Block, line: int, ghost before: Report, ghost path: string)
    requires builder.Valid() && 1 <= b.start <= line && SoundReport(before) && path == builder.normalize(b.file)
    requires builder.Contents() == Plus(before, Expanded(path, b.start, line - b.start, RowFor(b)))
    modifies builder`lines, builder`normalizedPaths
    ensures builder.Valid()
    ensures builder.Contents() == Plus(before, Expanded(path, b.start, line - b.start + 1, RowFor(b)))
  {
    builder.AddLine(b.file, line, b.hits, Some(b.hits > 0), true, 0, 0, 0, 0);
    ExpandAt(before, path, b.start, line, RowFor(b), builder.Contents());
  }

  method Expand(builder: CoverageBuilder, b: Block)
    requires builder.Valid() && Accepted(b)
    modifies builder
    ensures builder.Valid()
    ensures builder.Contents() == Plus(old(builder.Contents()), BlockReport(b, builder.normalize))
  {
    ghost var before, path := builder.Contents(), builder.normalize(b.file);
    ExpandNone(before, path, b.start, RowFor(b));
    for line := b.start to b.end + 1
      invariant builder.Valid()
      invariant builder.Contents() == Plus(before, Expanded(path, b.start, line - b.start, RowFor(b)))
    {
      ExpandLine(builder, b, line, before, path);
    }
  }

  /** Blank lines are skipped; a malformed line ends the parse. */
  method ParseRecords(records: seq<Record>, normalize: string -> string) returns (r: Option<Report>)
    ensures r == if Malformed in records then None else Parse(Blocks(records), normalize)
  {
    var builder := new CoverageBuilder(normalize);
    for i := 0 to |records|
      invariant builder.Valid() && builder.normalize == normalize && fresh(builder)
      invariant builder.Contents() == Sum(Blocks(records[..i]), normalize)
      invariant Malformed !in records[..i] && forall b :: b in Blocks(records[..i]) ==> Accepted(b)
    {
      assert records[..i + 1] == records[..i] + [records[i]] && records[..i + 1][..i] == records[..i];
      match records[i] {
        case Blank =>
        case Malformed => return None;
        case Is(b) =>
          if !Accepted(b) {
            BlockListed(records, i);
            return None;
          }
          Expand(builder, b);
          ghost var blocks := Blocks(records[..i]);
          assert (blocks + [b])[..|blocks|] == blocks;
      }
    }
    assert records[..|records|] == records;
    r := Some(Report(builder.lines, builder.testNames, builder.testCoverage));
  }

  lemma {:induction false} BlockListed(records: seq<Record>, i: nat)
    requires i < |records| && records[i].Is?
    ensures records[i].block in Blocks(records)
  {
    var n := |records| - 1;
    if i < n {
      BlockListed(records[..n], i);
    }
  }

  /** `parse_go`: a header, then the records. */
  method ParseGo(lines: seq<string>, number: NumberSyntax, normalize: string -> string) returns (r: Option<Report>)
    ensures r == ParseText(lines, number, normalize)
  {
    if lines == [] || !StartsWith(lines[0], "mode:") {
      return None;
    }
    r := ParseRecords(Records(lines[1..], number), normalize);
  }

  // ---------- meaning ----------

  predicate Touches(b: Block, normalize: string -> string, k: Place) {
    normalize(b.file) == k.path && b.start <= k.line <= b.end
  }

  const NO_ROW: Row := Row(0, false, false, 0, 0, 0, 0)

  lemma BlockMeaning(b: Block, normalize: string -> string, k: Place)
    requires Accepted(b)
    ensures RowAt(BlockReport(b, normalize), k) == if Touches(b, normalize, k) then RowFor(b) else NO_ROW
  {
    assert k in Places(normalize(b.file), b.start, b.end - b.start + 1) <==> Touches(b, normalize, k);
  }

  /** A line counts exactly if some block touches it, is covered exactly if some touching block
      ran, and has the largest count of the blocks that touch it. */
  ghost predicate Summarizes(blocks: seq<Block>, normalize: string -> string, k: Place, row: Row) {
    && (row.counted <==> exists b :: b in blocks && Touches(b, normalize, k))
    && (row.covered <==> exists b :: b in blocks && Touches(b, normalize, k) && b.hits > 0)
    && (forall b :: b in blocks && Touches(b, normalize, k) ==> b.hits <= row.hits)
    && (row.hits == 0 || exists b :: b in blocks && Touches(b, normalize, k) && b.hits == row.hits)
    && row.hits >= 0
  }

  predicate Plain(r: Row) { r.branches == r.coveredBranches == r.functions == r.coveredFunctions == 0 }

  lemma SummarizeOne(blocks: seq<Block>, b: Block, normalize: string -> string, k: Place, row: Row, share: Row)
    requires Summarizes(blocks, normalize, k, row) && b.hits >= 0
    requires share == if Touches(b, normalize, k) then RowFor(b) else NO_ROW
    ensures Summarizes(blocks + [b], normalize, k, Merge(row, share))
  {
    assert forall x :: x in blocks + [b] <==> x in blocks || x == b;
  }

  lemma {:induction false} BlocksMeaning(blocks: seq<Block>, normalize: string -> string, k: Place)
    requires forall b :: b in blocks ==> Accepted(b)
    ensures Summarizes(blocks, normalize, k, RowAt(Sum(blocks, normalize), k))
  {
    if blocks != [] {
      var rest, last := blocks[..|blocks| - 1], blocks[|blocks| - 1];
      assert blocks == rest + [last] && last in blocks;
      BlocksMeaning(rest, normalize, k);
      BlockMeaning(last, normalize, k);
      BlockSound(last, normalize);
      SumSound(rest, normalize);
      RowAtPlus(Sum(rest, normalize), BlockReport(last, normalize), k);
      SummarizeOne(rest, last, normalize, k, RowAt(Sum(rest, normalize), k), RowAt(BlockReport(last, normalize), k));
    }
  }

  lemma {:induction false} OnlyTouched(blocks: seq<Block>, normalize: string -> string)
    ensures var r := Sum(blocks, normalize);
            (forall k :: k in r.lines ==> r.lines[k].counted && Plain(r.lines[k])) && r.names == {} && r.tests == {}
  {
    if blocks != [] {
      OnlyTouched(blocks[..|blocks| - 1], normalize);
    }
  }

  lemma OneSummary(a: seq<Block>, b: seq<Block>, normalize: string -> string, k: Place, row: Row, other: Row)
    requires Summarizes(a, normalize, k, row) && Summarizes(b, normalize, k, other) && Plain(row) && Plain(other)
    requires forall x :: x in a <==> x in b
    ensures row == other
  {
    assert row.hits <= other.hits && other.hits <= row.hits;
  }

  /** A report depends only on the set of blocks: neither their order nor a repeated block matters. */
  lemma BlockSetDecides(a: seq<Block>, b: seq<Block>, normalize: string -> string)
    requires forall x :: x in a <==> x in b
    ensures Parse(a, normalize) == Parse(b, normalize)
  {
    if forall x :: x in a ==> Accepted(x) {
      var r, s := Sum(a, normalize), Sum(b, normalize);
      OnlyTouched(a, normalize);
      OnlyTouched(b, normalize);
      forall k ensures RowAt(r, k) == RowAt(s, k) {
        BlocksMeaning(a, normalize, k);
        BlocksMeaning(b, normalize, k);
        OneSummary(a, b, normalize, k, RowAt(r, k), RowAt(s, k));
      }
      SameRows(r, s);
    }
  }

  lemma SameRows(r: Report, s: Report)
    requires forall k :: RowAt(r, k) == RowAt(s, k)
    requires forall k :: k in r.lines ==> r.lines[k].counted
    requires forall k :: k in s.lines ==> s.lines[k].counted
    ensures r.lines == s.lines
  {
    assert forall k :: k in r.lines <==> RowAt(r, k).counted;
    assert forall k :: k in s.lines <==> RowAt(s, k).counted;
    forall k | k in r.lines ensures k in s.lines && r.lines[k] == s.lines[k] {
      assert RowAt(r, k) == RowAt(s, k);
    }
  }

  // ---------- printed records ----------

  function PositionText(line: int, column: int): string { IntText(line) + "." + IntText(column) }

  function RangeText(b: Block, from: int, to: int): string {
    b.file + ":" + (PositionText(b.start, from) + "," + PositionText(b.end, to))
  }

  function RecordText(b: Block, from: int, to: int): string {
    RangeText(b, from, to) + " " + (IntText(b.statements) + " " + IntText(b.hits))
  }

  lemma PositionReads(line: int, column: int, number: NumberSyntax)
    requires ReadsIntegers(number) && line >= 1
    ensures ReadPosition(PositionText(line, column), number) == Some(line)
    ensures ',' !in PositionText(line, column) && ':' !in PositionText(line, column)
  {
    FirstCut(IntText(line), IntText(column), '.');
  }

  lemma RangeReads(b: Block, from: int, to: int, number: NumberSyntax)
    requires ReadsIntegers(number) && b.start >= 1 && b.end >= 1
    ensures ReadRange(RangeText(b, from, to), number) == Some((b.file, b.start, b.end))
  {
    PositionReads(b.start, from, number);
    PositionReads(b.end, to, number);
    RangeFrom(b.file, PositionText(b.start, from), PositionText(b.end, to), b.start, b.end, number);
  }

  lemma RangeFrom(file: string, p: string, q: string, start: int, end: int, number: NumberSyntax)
    requires ',' !in p && ':' !in p && ':' !in q
    requires ReadPosition(p, number) == Some(start) && ReadPosition(q, number) == Some(end)
    ensures ReadRange(file + ":" + (p + "," + q), number) == Some((file, start, end))
  {
    PositionsFrom(p, q, start, end, number);
    LastCut(file, p + "," + q, ':');
  }

  lemma PositionsFrom(p: string, q: string, start: int, end: int, number: NumberSyntax)
    requires ',' !in p && ReadPosition(p, number) == Some(start) && ReadPosition(q, number) == Some(end)
    ensures ReadPositions(p + "," + q, number) == Some((start, end))
  {
    FirstCut(p, q, ',');
  }

  lemma PositionIsWord(line: int, column: int)
    ensures OneWord(PositionText(line, column))
  {
    NoSpaceConcat(IntText(line), ".");
    NoSpaceConcat(IntText(line) + ".", IntText(column));
  }

  lemma RangeIsWord(b: Block, from: int, to: int)
    requires NoSpace(b.file)
    ensures OneWord(RangeText(b, from, to))
  {
    var p, q := PositionText(b.start, from), PositionText(b.end, to);
    PositionIsWord(b.start, from);
    PositionIsWord(b.end, to);
    NoSpaceConcat(p, ",");
    NoSpaceConcat(p + ",", q);
    NoSpaceConcat(b.file, ":");
    NoSpaceConcat(b.file + ":", p + "," + q);
  }

  lemma IntIsWord(n: int)
    ensures OneWord(IntText(n))
  {
  }

  lemma ReadsWords(range: string, statements: string, hits: string, b: Block, number: NumberSyntax)
    requires OneWord(range) && OneWord(statements) && OneWord(hits)
    requires ReadRange(range, number) == Some((b.file, b.start, b.end))
    requires number(statements) == Some(b.statements) && number(hits) == Some(b.hits)
    ensures ReadRecord(range + " " + (statements + " " + hits), number) == Is(b)
  {
    ThreeWords(range, statements, hits);
  }

  /** A printed block is read back; its file may hold colons and commas, but no white space. */
  lemma RecordReadsBack(b: Block, from: int, to: int, number: NumberSyntax)
    requires ReadsIntegers(number) && b.start >= 1 && b.end >= 1 && NoSpace(b.file)
    ensures ReadRecord(RecordText(b, from, to), number) == Is(b)
  {
    RangeReads(b, from, to, number);
    RangeIsWord(b, from, to);
    IntIsWord(b.statements);
    IntIsWord(b.hits);
    ReadsWords(RangeText(b, from, to), IntText(b.statements), IntText(b.hits), b, number);
  }

  /** A profile is refused exactly for a block that ends before it starts, starts before line 1,
      counts below zero, or spans more than a million lines. */
  lemma RefusedIff(blocks: seq<Block>, normalize: string -> string)
    ensures Parse(blocks, normalize).None? <==>
              exists b :: b in blocks && (b.end < b.start || b.start < 1 || b.statements < 0 || b.hits < 0 || b.end - b.start >= 1000000)
  {
  }
}
