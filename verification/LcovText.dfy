/** The text of a tracefile line (src/parser.rs), and that printed records are read back. */
module LcovText {
  import opened Text
  import opened Lcov

  function ReadData(payload: string, number: NumberSyntax): Line {
    var fields := Split(payload, ',');
    if fields[0] == "" || |fields| < 2 || fields[1] == "" then Broken
    else
      var line, hits := number(fields[0]), number(fields[1]);
      if line.None? || hits.None? then Broken else Data(line.value, hits.value)
  }

  function ReadFunction(payload: string, number: NumberSyntax): Line {
    var i := IndexOf(payload, ',');
    if i == |payload| || number(payload[..i]).None? then Broken
    else FunctionAt(payload[i + 1..], number(payload[..i]).value)
  }

  function ReadFunctionData(payload: string, number: NumberSyntax): Line {
    var i := IndexOf(payload, ',');
    if i == |payload| then Broken else FunctionData(payload[i + 1..], number(payload[..i]))
  }

  function RegionName(block: string, branch: string): string { "block=" + block + ";branch=" + branch }

  function ReadBranch(payload: string, number: NumberSyntax): Line {
    var fields := Split(payload, ',');
    if |fields| < 4 then Broken
    else
      var taken, line := (if fields[3] == "-" then Some(0) else number(fields[3])), number(fields[0]);
      if taken.None? || line.None? then Broken
      else Branch(line.value, taken.value > 0, RegionName(fields[1], fields[2]))
  }

  /** One line, white space around it removed. */
  function ReadLine(raw: string, number: NumberSyntax): Line { Classify(Trim(raw), number) }

  function Classify(text: string, number: NumberSyntax): Line {
    if StartsWith(text, "TN:") then TestName(text[3..])
    else if StartsWith(text, "SF:") then SourceFile(text[3..])
    else if text == "end_of_record" then EndOfRecord
    else if StartsWith(text, "DA:") then ReadData(text[3..], number)
    else if StartsWith(text, "FN:") then ReadFunction(text[3..], number)
    else if StartsWith(text, "FNDA:") then ReadFunctionData(text[5..], number)
    else if StartsWith(text, "BRDA:") then ReadBranch(text[5..], number)
    else Ignored
  }

  // ---------- printed records ----------

  lemma FourParts(a: string, b: string, c: string, d: string)
    requires ',' !in a && ',' !in b && ',' !in c && ',' !in d
    ensures Split(a + "," + (b + "," + (c + "," + d)), ',') == [a, b, c, d]
  {
    ThreeParts(b, c, d, ',');
    OneMorePart(a, b + "," + (c + "," + d), b, c, d);
  }

  lemma OneMorePart(a: string, rest: string, b: string, c: string, d: string)
    requires ',' !in a && Split(rest, ',') == [b, c, d]
    ensures Split(a + "," + rest, ',') == [a, b, c, d]
  {
    FirstCut(a, rest, ',');
  }

  lemma DataReads(line: int, hits: int, number: NumberSyntax)
    requires ReadsIntegers(number)
    ensures ReadData(IntText(line) + "," + IntText(hits), number) == Data(line, hits)
  {
    FirstCut(IntText(line), IntText(hits), ',');
  }

  lemma FunctionReads(line: int, name: string, number: NumberSyntax)
    requires ReadsIntegers(number)
    ensures ReadFunction(IntText(line) + "," + name, number) == FunctionAt(name, line)
    ensures ReadFunctionData(IntText(line) + "," + name, number) == FunctionData(name, Some(line))
  {
    FirstCut(IntText(line), name, ',');
  }

  lemma BranchReads(line: int, block: string, branch: string, taken: Option<int>, number: NumberSyntax)
    requires ReadsIntegers(number) && ',' !in block && ',' !in branch
    ensures ReadBranch(IntText(line) + "," + (block + "," + (branch + "," + TakenText(taken))), number)
         == Branch(line, taken.Some? && taken.value > 0, RegionName(block, branch))
  {
    TakenReads(taken, number);
    FourParts(IntText(line), block, branch, TakenText(taken));
  }

  function TakenText(taken: Option<int>): string { if taken.None? then "-" else IntText(taken.value) }

  lemma TakenReads(taken: Option<int>, number: NumberSyntax)
    requires ReadsIntegers(number)
    ensures ',' !in TakenText(taken)
    ensures taken.Some? ==> TakenText(taken) != "-" && number(TakenText(taken)) == taken
    ensures taken.None? ==> TakenText(taken) == "-"
  {
    if taken.Some? && taken.value < 0 {
      assert |NatText(-taken.value)| > 0;
    }
  }

  /** Only the tag decides which short prefix a line has. */
  lemma Tagged(tag: string, payload: string, other: string)
    requires 0 < |other| <= |tag|
    ensures StartsWith(tag + payload, other) <==> StartsWith(tag, other)
    ensures (tag + payload)[|tag|..] == payload && (tag + payload)[0] == tag[0]
  {
    assert (tag + payload)[..|other|] == tag[..|other|];
  }

  lemma NotShort(tag: string, payload: string)
    requires |tag| >= 3 && tag[0] != 'e' && (tag[0] != 'T' && tag[0] != 'S')
    ensures !StartsWith(tag + payload, "TN:") && !StartsWith(tag + payload, "SF:") && tag + payload != "end_of_record"
    ensures StartsWith(tag + payload, tag) && (tag + payload)[|tag|..] == payload
  {
    Tagged(tag, payload, "TN:");
    Tagged(tag, payload, "SF:");
    Tagged(tag, payload, tag);
  }

  lemma DispatchName(payload: string, number: NumberSyntax)
    ensures Classify("TN:" + payload, number) == TestName(payload)
    ensures Classify("SF:" + payload, number) == SourceFile(payload)
  {
    Tagged("TN:", payload, "TN:");
    Tagged("SF:", payload, "TN:");
    Tagged("SF:", payload, "SF:");
  }

  lemma DispatchLine(payload: string, number: NumberSyntax)
    ensures Classify("DA:" + payload, number) == ReadData(payload, number)
    ensures Classify("FN:" + payload, number) == ReadFunction(payload, number)
  {
    NotShort("DA:", payload);
    NotShort("FN:", payload);
    Tagged("FN:", payload, "DA:");
  }

  lemma DispatchCalls(payload: string, number: NumberSyntax)
    ensures Classify("FNDA:" + payload, number) == ReadFunctionData(payload, number)
  {
    NotShort("FNDA:", payload);
    assert "FNDA:"[..3][0] == 'F' && "FNDA:"[..3][2] == 'D';
    Tagged("FNDA:", payload, "DA:");
    Tagged("FNDA:", payload, "FN:");
  }

  lemma DispatchBranch(payload: string, number: NumberSyntax)
    ensures Classify("BRDA:" + payload, number) == ReadBranch(payload, number)
  {
    NotShort("BRDA:", payload);
    assert "BRDA:"[..3][0] == 'B' && "BRDA:"[..5][0] == 'B';
    Tagged("BRDA:", payload, "DA:");
    Tagged("BRDA:", payload, "FN:");
    Tagged("BRDA:", payload, "FNDA:");
  }

  /** Every record, printed, is read back as itself: names may hold any text. */
  lemma RecordsReadBack(line: int, count: int, name: string, number: NumberSyntax)
    requires ReadsIntegers(number)
    ensures Classify("DA:" + (IntText(line) + "," + IntText(count)), number) == Data(line, count)
    ensures Classify("FN:" + (IntText(line) + "," + name), number) == FunctionAt(name, line)
    ensures Classify("FNDA:" + (IntText(line) + "," + name), number) == FunctionData(name, Some(line))
  {
    DataReads(line, count, number);
    FunctionReads(line, name, number);
    DispatchLine(IntText(line) + "," + IntText(count), number);
    DispatchLine(IntText(line) + "," + name, number);
    DispatchCalls(IntText(line) + "," + name, number);
  }

  lemma BranchReadsBack(line: int, block: string, branch: string, taken: Option<int>, number: NumberSyntax)
    requires ReadsIntegers(number) && ',' !in block && ',' !in branch
    ensures Classify("BRDA:" + (IntText(line) + "," + (block + "," + (branch + "," + TakenText(taken)))), number)
         == Branch(line, taken.Some? && taken.value > 0, RegionName(block, branch))
  {
    BranchReads(line, block, branch, taken, number);
    DispatchBranch(IntText(line) + "," + (block + "," + (branch + "," + TakenText(taken))), number);
  }

  // ---------- every payload ----------

  /** The rest of a payload: one more field, or one more field and others. */
  function Rest(field: string, more: Option<string>): string {
    if more.None? then field else field + "," + more.value
  }

  lemma RestFields(field: string, more: Option<string>)
    requires ',' !in field
    ensures var fs := Split(Rest(field, more), ','); |fs| >= 1 && fs[0] == field
  {
    if more.Some? {
      FirstCut(field, more.value, ',');
    }
  }

  /** A DA payload without a comma is broken. */
  lemma DataNeedsTwo(payload: string, number: NumberSyntax)
    requires ',' !in payload
    ensures ReadData(payload, number) == Broken
  {
  }

  /** With two fields or more, the first two must not be empty and must be numbers. */
  lemma DataFields(a: string, b: string, more: Option<string>, number: NumberSyntax)
    requires ',' !in a && ',' !in b
    ensures ReadData(a + "," + Rest(b, more), number) ==
              if a == "" || b == "" || number(a).None? || number(b).None? then Broken else Data(number(a).value, number(b).value)
  {
    FirstCut(a, Rest(b, more), ',');
    RestFields(b, more);
  }

  /** FN and FNDA payloads are cut at their first comma; only FN reads its number at once. */
  lemma FunctionFields(a: string, name: string, number: NumberSyntax)
    requires ',' !in a
    ensures ReadFunction(a + "," + name, number) == if number(a).None? then Broken else FunctionAt(name, number(a).value)
    ensures ReadFunctionData(a + "," + name, number) == FunctionData(name, number(a))
    ensures ReadFunction(a, number) == Broken && ReadFunctionData(a, number) == Broken
  {
    FirstCut(a, name, ',');
    assert IndexOf(a, ',') == |a|;
  }

  /** A BRDA payload with fewer than four fields is broken. */
  lemma BranchNeedsFour(a: string, b: string, c: string, number: NumberSyntax)
    requires ',' !in a && ',' !in b && ',' !in c
    ensures ReadBranch(a, number) == Broken && ReadBranch(a + "," + b, number) == Broken
    ensures ReadBranch(a + "," + (b + "," + c), number) == Broken
  {
    TwoParts(a, b, ',');
    ThreeParts(a, b, c, ',');
  }

  /** With four, the line must be a number and the count a number or a dash. */
  lemma BranchFields(a: string, b: string, c: string, d: string, number: NumberSyntax)
    requires ',' !in a && ',' !in b && ',' !in c && ',' !in d
    ensures ReadBranch(a + "," + (b + "," + (c + "," + d)), number) ==
              if number(a).None? || (d != "-" && number(d).None?) then Broken
              else Branch(number(a).value, d != "-" && number(d).value > 0, RegionName(b, c))
  {
    FourParts(a, b, c, d);
  }

  lemma DispatchEnd(number: NumberSyntax)
    ensures Classify("end_of_record", number) == EndOfRecord
  {
    assert "end_of_record"[0] == 'e';
  }
}
