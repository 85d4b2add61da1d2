/** What a tracefile means, and how tracefiles compose. */
module LcovLaws {
  import opened Text
  import opened Builder
  import opened Ordering
  import opened Lcov

  // ---------- concatenation ----------

  predicate Closed(lines: seq<Line>) { lines == [] || lines[|lines| - 1].EndOfRecord? }

  lemma ClosedStart(a: seq<Line>)
    requires Closed(a)
    ensures CursorAfter(a) == START
  {
  }

  lemma Split(a: seq<Line>, b: seq<Line>)
    requires b != []
    ensures (a + b)[..|a + b| - 1] == a + b[..|b| - 1] && (a + b)[|a + b| - 1] == b[|b| - 1]
  {
  }

  lemma {:induction false} CursorConcat(a: seq<Line>, b: seq<Line>)
    requires Closed(a)
    ensures CursorAfter(a + b) == CursorAfter(b)
  {
    if b == [] {
      assert a + b == a;
      ClosedStart(a);
    } else {
      Split(a, b);
      CursorConcat(a, b[..|b| - 1]);
    }
  }

  predicate FailsAt(lines: seq<Line>, i: int)
    requires 0 <= i < |lines|
  {
    Fails(CursorAfter(lines[..i]), lines[i])
  }

  lemma FailsLeft(a: seq<Line>, b: seq<Line>, i: nat)
    requires i < |a|
    ensures FailsAt(a + b, i) <==> FailsAt(a, i)
  {
    assert (a + b)[..i] == a[..i];
  }

  lemma FailsRight(a: seq<Line>, b: seq<Line>, i: nat)
    requires Closed(a) && i < |b|
    ensures FailsAt(a + b, |a| + i) <==> FailsAt(b, i)
  {
    assert (a + b)[..|a| + i] == a + b[..i];
    CursorConcat(a, b[..i]);
  }

  lemma FailsConcat(a: seq<Line>, b: seq<Line>)
    requires Closed(a)
    ensures FailsSomewhere(a + b) <==> FailsSomewhere(a) || FailsSomewhere(b)
  {
    if i :| 0 <= i < |a + b| && Fails(CursorAfter((a + b)[..i]), (a + b)[i]) {
      if i < |a| {
        FailsLeft(a, b, i);
      } else {
        FailsRight(a, b, i - |a|);
      }
    }
    if i :| 0 <= i < |a| && Fails(CursorAfter(a[..i]), a[i]) {
      FailsLeft(a, b, i);
    }
    if i :| 0 <= i < |b| && Fails(CursorAfter(b[..i]), b[i]) {
      FailsRight(a, b, i);
    }
  }

  lemma {:induction false} SumSound(lines: seq<Line>, normalize: string -> string)
    ensures SoundReport(Sum(lines, normalize))
  {
    if lines != [] {
      var rest := lines[..|lines| - 1];
      SumSound(rest, normalize);
      AddsSound(CursorAfter(rest), lines[|lines| - 1], normalize);
      PlusSound(Sum(rest, normalize), Adds(CursorAfter(rest), lines[|lines| - 1], normalize));
    }
  }

  lemma {:induction false} SumConcat(a: seq<Line>, b: seq<Line>, normalize: string -> string)
    requires Closed(a)
    ensures Sum(a + b, normalize) == Plus(Sum(a, normalize), Sum(b, normalize))
  {
    if b == [] {
      assert a + b == a;
      PlusEmpty(Sum(a, normalize));
    } else {
      var rest, last := b[..|b| - 1], b[|b| - 1];
      Split(a, b);
      SumConcat(a, rest, normalize);
      CursorConcat(a, rest);
      SumSound(a, normalize);
      SumSound(rest, normalize);
      AddsSound(CursorAfter(rest), last, normalize);
      PlusAssociates(Sum(a, normalize), Sum(rest, normalize), Adds(CursorAfter(rest), last, normalize));
    }
  }

  function Both(a: Option<Report>, b: Option<Report>): Option<Report> {
    if a.None? || b.None? then None else Some(Plus(a.value, b.value))
  }

  /** A tracefile that ends in end_of_record composes: the parts fail or merge on their own. */
  lemma Homomorphism(a: seq<Line>, b: seq<Line>, normalize: string -> string)
    requires Closed(a)
    ensures Parse(a + b, normalize) == Both(Parse(a, normalize), Parse(b, normalize))
  {
    FailsConcat(a, b);
    SumConcat(a, b, normalize);
  }

  // ---------- permutation of records ----------

  function Flatten(records: seq<seq<Line>>): seq<Line> {
    if records == [] then [] else Flatten(records[..|records| - 1]) + records[|records| - 1]
  }

  ghost predicate Whole(records: seq<seq<Line>>) { forall r :: r in records ==> Closed(r) }

  /** The records parsed one by one and merged. */
  function ParseEach(records: seq<seq<Line>>, normalize: string -> string): Option<Report> {
    if records == [] then Some(EMPTY)
    else Both(ParseEach(records[..|records| - 1], normalize), Parse(records[|records| - 1], normalize))
  }

  ghost predicate SoundOption(r: Option<Report>) { r.Some? ==> SoundReport(r.value) }

  lemma BothLaws(a: Option<Report>, b: Option<Report>, c: Option<Report>)
    requires SoundOption(a) && SoundOption(b) && SoundOption(c)
    ensures Both(a, b) == Both(b, a) && Both(Both(a, b), c) == Both(a, Both(b, c)) && SoundOption(Both(a, b))
  {
    if a.Some? && b.Some? {
      PlusCommutes(a.value, b.value);
      PlusSound(a.value, b.value);
      if c.Some? {
        PlusAssociates(a.value, b.value, c.value);
      }
    }
  }

  lemma {:induction false} EachSound(records: seq<seq<Line>>, normalize: string -> string)
    ensures SoundOption(ParseEach(records, normalize))
  {
    if records != [] {
      var rest, last := records[..|records| - 1], records[|records| - 1];
      EachSound(rest, normalize);
      SumSound(last, normalize);
      BothLaws(ParseEach(rest, normalize), Parse(last, normalize), None);
    }
  }

  lemma {:induction false} EachConcat(a: seq<seq<Line>>, b: seq<seq<Line>>, normalize: string -> string)
    ensures ParseEach(a + b, normalize) == Both(ParseEach(a, normalize), ParseEach(b, normalize))
  {
    EachSound(a, normalize);
    if b == [] {
      assert a + b == a;
      if ParseEach(a, normalize).Some? {
        PlusEmpty(ParseEach(a, normalize).value);
      }
    } else {
      var rest, last := b[..|b| - 1], b[|b| - 1];
      assert (a + b)[..|a + b| - 1] == a + rest && (a + b)[|a + b| - 1] == last;
      EachConcat(a, rest, normalize);
      EachSound(rest, normalize);
      SumSound(last, normalize);
      BothLaws(ParseEach(a, normalize), ParseEach(rest, normalize), Parse(last, normalize));
    }
  }

  lemma EachAround(left: seq<seq<Line>>, r: seq<Line>, right: seq<seq<Line>>, normalize: string -> string)
    ensures ParseEach(left + [r] + right, normalize) == Both(ParseEach(left + right, normalize), Parse(r, normalize))
  {
    var a, b, c := ParseEach(left, normalize), ParseEach(right, normalize), Parse(r, normalize);
    EachConcat(left + [r], right, normalize);
    EachConcat(left, right, normalize);
    assert (left + [r])[..|left + [r]| - 1] == left;
    EachSound(left, normalize);
    EachSound(right, normalize);
    SumSound(r, normalize);
    BothLaws(a, c, b);
    BothLaws(c, b, None);
    BothLaws(a, b, c);
  }

  lemma {:induction false} EachPermutes(a: seq<seq<Line>>, b: seq<seq<Line>>, normalize: string -> string)
    requires multiset(a) == multiset(b)
    ensures ParseEach(a, normalize) == ParseEach(b, normalize)
    decreases |a|
  {
    if a == [] {
      assert |multiset(b)| == 0;
    } else {
      var left, right := TakeOut(a, b);
      EachPermutes(a[..|a| - 1], left + right, normalize);
      EachAround(left, a[|a| - 1], right, normalize);
    }
  }

  lemma {:induction false} FlattenClosed(records: seq<seq<Line>>)
    requires Whole(records)
    ensures Closed(Flatten(records))
  {
    if records != [] {
      FlattenClosed(records[..|records| - 1]);
      assert records[|records| - 1] in records;
    }
  }

  lemma {:induction false} FlattenParses(records: seq<seq<Line>>, normalize: string -> string)
    requires Whole(records)
    ensures Parse(Flatten(records), normalize) == ParseEach(records, normalize)
  {
    if records == [] {
      assert !FailsSomewhere([]);
    } else {
      var rest, last := records[..|records| - 1], records[|records| - 1];
      FlattenParses(rest, normalize);
      FlattenClosed(rest);
      Homomorphism(Flatten(rest), last, normalize);
    }
  }

  /** Permuting whole records changes neither the report nor whether there is one. */
  lemma RecordOrder(a: seq<seq<Line>>, b: seq<seq<Line>>, normalize: string -> string)
    requires Whole(a) && multiset(a) == multiset(b)
    ensures Parse(Flatten(a), normalize) == Parse(Flatten(b), normalize)
  {
    forall r | r in b ensures Closed(r) {
      assert r in multiset(a);
    }
    FlattenParses(a, normalize);
    FlattenParses(b, normalize);
    EachPermutes(a, b, normalize);
  }
}
