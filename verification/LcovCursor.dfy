/** What is in effect at a line of a tracefile, said by line numbers. */
module LcovCursor {
  import opened Text
  import opened Lcov

  predicate Resets(l: Line) { l.SourceFile? || l.EndOfRecord? }

  /** The last SF before line i names file p, and no record ended since. */
  ghost predicate FileAt(lines: seq<Line>, i: nat, p: string)
    requires i <= |lines|
  {
    exists j :: 0 <= j < i && OpensFile(lines, j, i, p)
  }

  predicate OpensFile(lines: seq<Line>, j: nat, i: nat, p: string)
    requires j < i <= |lines|
  {
    lines[j] == SourceFile(p) && forall m :: j < m < i ==> !Resets(lines[m])
  }

  /** The last TN before line i names test t, and no record ended since. */
  ghost predicate TestAt(lines: seq<Line>, i: nat, t: string)
    requires i <= |lines|
  {
    exists j :: 0 <= j < i && OpensTest(lines, j, i, t)
  }

  predicate OpensTest(lines: seq<Line>, j: nat, i: nat, t: string)
    requires j < i <= |lines|
  {
    && lines[j].TestName? && t != "" && Trim(lines[j].name) == t
    && forall m :: j < m < i ==> !lines[m].TestName? && !lines[m].EndOfRecord?
  }

  /** The latest FN of the name before line i, within the record of the file, gives this line. */
  ghost predicate FunctionLine(lines: seq<Line>, i: nat, name: string, line: int)
    requires i <= |lines|
  {
    exists j :: 0 <= j < i && PlacesFunction(lines, j, i, name, line)
  }

  predicate PlacesFunction(lines: seq<Line>, j: nat, i: nat, name: string, line: int)
    requires j < i <= |lines|
  {
    && lines[j] == FunctionAt(name, line)
    && forall m :: j < m < i ==> !Resets(lines[m]) && !(lines[m].FunctionAt? && lines[m].name == name)
  }

  // ---------- one line at a time ----------

  lemma FileStep(lines: seq<Line>, i: nat, p: string)
    requires i < |lines|
    ensures FileAt(lines, i + 1, p) <==> lines[i] == SourceFile(p) || (!Resets(lines[i]) && FileAt(lines, i, p))
  {
    if lines[i] == SourceFile(p) {
      assert OpensFile(lines, i, i + 1, p);
    }
    if !Resets(lines[i]) && FileAt(lines, i, p) {
      var j :| 0 <= j < i && OpensFile(lines, j, i, p);
      assert OpensFile(lines, j, i + 1, p);
    }
    if FileAt(lines, i + 1, p) && lines[i] != SourceFile(p) {
      var j :| 0 <= j < i + 1 && OpensFile(lines, j, i + 1, p);
      assert OpensFile(lines, j, i, p);
    }
  }

  lemma TestStep(lines: seq<Line>, i: nat, t: string)
    requires i < |lines|
    ensures TestAt(lines, i + 1, t) <==>
              if lines[i].TestName? then t != "" && Trim(lines[i].name) == t else !lines[i].EndOfRecord? && TestAt(lines, i, t)
  {
    if lines[i].TestName? && t != "" && Trim(lines[i].name) == t {
      assert OpensTest(lines, i, i + 1, t);
    }
    if !lines[i].TestName? && !lines[i].EndOfRecord? && TestAt(lines, i, t) {
      var j :| 0 <= j < i && OpensTest(lines, j, i, t);
      assert OpensTest(lines, j, i + 1, t);
    }
    if TestAt(lines, i + 1, t) {
      var j :| 0 <= j < i + 1 && OpensTest(lines, j, i + 1, t);
      assert j < i ==> OpensTest(lines, j, i, t);
    }
  }

  lemma FunctionStep(lines: seq<Line>, i: nat, name: string, line: int)
    requires i < |lines|
    ensures FunctionLine(lines, i + 1, name, line) <==>
              if lines[i].FunctionAt? && lines[i].name == name then lines[i].line == line
              else !Resets(lines[i]) && FunctionLine(lines, i, name, line)
  {
    if lines[i] == FunctionAt(name, line) {
      assert PlacesFunction(lines, i, i + 1, name, line);
    }
    if !(lines[i].FunctionAt? && lines[i].name == name) && !Resets(lines[i]) && FunctionLine(lines, i, name, line) {
      var j :| 0 <= j < i && PlacesFunction(lines, j, i, name, line);
      assert PlacesFunction(lines, j, i + 1, name, line);
    }
    if FunctionLine(lines, i + 1, name, line) {
      var j :| 0 <= j < i + 1 && PlacesFunction(lines, j, i + 1, name, line);
      assert j < i ==> PlacesFunction(lines, j, i, name, line);
    }
  }

  lemma Prefix(lines: seq<Line>, i: nat)
    requires i < |lines|
    ensures CursorAfter(lines[..i + 1]) == Move(CursorAfter(lines[..i]), lines[i])
  {
    assert lines[..i + 1][..i] == lines[..i];
  }

  // ---------- the cursor ----------

  lemma {:induction false} CursorFile(lines: seq<Line>, i: nat, p: string)
    requires i <= |lines|
    ensures CursorAfter(lines[..i]).file == Some(p) <==> FileAt(lines, i, p)
  {
    if i > 0 {
      CursorFile(lines, i - 1, p);
      FileStep(lines, i - 1, p);
      Prefix(lines, i - 1);
    }
  }

  lemma {:induction false} CursorTest(lines: seq<Line>, i: nat, t: string)
    requires i <= |lines|
    ensures CursorAfter(lines[..i]).test == Some(t) <==> TestAt(lines, i, t)
  {
    if i > 0 {
      CursorTest(lines, i - 1, t);
      TestStep(lines, i - 1, t);
      Prefix(lines, i - 1);
    }
  }

  predicate HasFunction(c: Cursor, name: string, line: int) { name in c.functions && c.functions[name] == line }

  /** While a file is in effect, the known functions are those its record placed. */
  lemma {:induction false} CursorFunctions(lines: seq<Line>, i: nat, name: string, line: int)
    requires i <= |lines|
    ensures var c := CursorAfter(lines[..i]);
            if c.file.Some? then HasFunction(c, name, line) <==> FunctionLine(lines, i, name, line) else c.functions == map[]
  {
    if i > 0 {
      CursorFunctions(lines, i - 1, name, line);
      FunctionStep(lines, i - 1, name, line);
      Prefix(lines, i - 1);
    }
  }

  // ---------- failure ----------

  /** A record that is read, because a file is in effect, and cannot be. */
  ghost predicate FailsHere(lines: seq<Line>, i: nat)
    requires i < |lines|
  {
    && (exists p :: FileAt(lines, i, p))
    && (lines[i].Broken? || (lines[i].FunctionData? && lines[i].calls.None? && exists line :: FunctionLine(lines, i, lines[i].name, line)))
  }

  lemma FailsMeaning(lines: seq<Line>, i: nat)
    requires i < |lines|
    ensures Fails(CursorAfter(lines[..i]), lines[i]) <==> FailsHere(lines, i)
  {
    var c := CursorAfter(lines[..i]);
    if c.file.Some? {
      CursorFile(lines, i, c.file.value);
      if lines[i].FunctionData? {
        var name := lines[i].name;
        if name in c.functions {
          CursorFunctions(lines, i, name, c.functions[name]);
        }
        forall line | FunctionLine(lines, i, name, line) ensures name in c.functions {
          CursorFunctions(lines, i, name, line);
        }
      }
    } else {
      forall p ensures !FileAt(lines, i, p) {
        CursorFile(lines, i, p);
      }
    }
  }

  /** A tracefile is refused exactly when some record is read and cannot be: a broken payload
      inside a file, or a call count that does not parse for a function the file placed. */
  lemma RefusedIff(lines: seq<Line>, normalize: string -> string)
    ensures Parse(lines, normalize).None? <==> exists i: nat :: i < |lines| && FailsHere(lines, i)
  {
    forall i: nat | i < |lines| ensures Fails(CursorAfter(lines[..i]), lines[i]) <==> FailsHere(lines, i) {
      FailsMeaning(lines, i);
    }
    if i: nat :| i < |lines| && FailsHere(lines, i) {
      assert Fails(CursorAfter(lines[..i]), lines[i]);
    }
  }
}
