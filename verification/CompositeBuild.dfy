/** The one build that a judgement describes. */
module CompositeBuild {
  import opened Composite
  import opened Counting
  import opened CompositeAssemble

  // ---------- peaks ----------

  lemma PeakUnique(seen: set<Seen>, k: (Slot, string), a: int, b: int)
    requires Peak(seen, k, a) && Peak(seen, k, b)
    ensures a == b
  {
  }

  lemma {:induction false} SomePeak(seen: set<Seen>, k: (Slot, string)) returns (hits: int)
    ensures Peak(seen, k, hits)
    decreases |seen|
  {
    hits := 0;
    if seen != {} {
      var s :| s in seen;
      hits := SomePeak(seen - {s}, k);
      if About(s, k) && hits < s.hits {
        hits := s.hits;
      }
    }
  }

  ghost function PeakOf(seen: set<Seen>, k: (Slot, string)): (hits: int)
    ensures Peak(seen, k, hits)
  {
    PeakExists(seen, k);
    var h :| Peak(seen, k, h);
    h
  }

  lemma PeakExists(seen: set<Seen>, k: (Slot, string))
    ensures exists h :: Peak(seen, k, h)
  {
    var h := SomePeak(seen, k);
  }

  // ---------- the build ----------

  ghost function VariantOn(v: Evidenced, x: Expected, key: string, variant: string): (s: VariantState)
    ensures IsVariant(v, x, key, variant, s)
  {
    var state := StateOf(v, x, key, variant);
    VariantState(variant, state,
                 if state.Covered? || state.Uncovered? then PeakOf(v.seen, (Slot(x.entry.component, variant), key)) else 0)
  }

  ghost function RowOn(v: Evidenced, x: Expected, key: string): (row: Row)
    ensures IsRow(v, x, key, row)
  {
    var vs := Variants(x.entry);
    Row(x, RowState(StatesOf(v, x, key)), seq(|vs|, n requires 0 <= n < |vs| => VariantOn(v, x, key, vs[n])))
  }

  const BUCKETS: set<Bucket> := {TestGap, InstrumentationGap, GeneratedVariantGap, MismatchBucket, NoBucket}

  lemma EveryBucket(b: Bucket)
    ensures b in BUCKETS
  {
    match b case TestGap => case InstrumentationGap => case GeneratedVariantGap => case MismatchBucket => case NoBucket =>
  }

  ghost function Remediation(labels: map<Cell, Bucket>): (counts: map<Bucket, nat>)
    ensures Counted(labels, counts)
  {
    var counts := map b | b in BUCKETS :: |Counting.Bucket(labels, b)|;
    assert forall b :: Count(counts, b) == |Counting.Bucket(labels, b)| by {
      forall b ensures Count(counts, b) == |Counting.Bucket(labels, b)| {
        EveryBucket(b);
      }
    }
    counts
  }

  ghost function BuildOf(j: Verdict, expected: map<string, Expected>): (b: Build)
    ensures IsBuild(j, expected, b)
  {
    var covered := |CoveredKeys(j.evidenced, expected)|;
    Build(j.reasons == {} && |expected| > 0 && covered == |expected|, covered, |expected|, j.reasons,
          Remediation(Labels(j.evidenced, expected, CellsOf(expected, expected.Keys))),
          map key | key in expected :: RowOn(j.evidenced, expected[key], key))
  }

  // ---------- it is the only one ----------

  /** The judgement determines the whole build: status, counts, reasons, every row with its
      variants and hits, and every remediation count. */
  lemma BuildUnique(j: Verdict, expected: map<string, Expected>, a: Build, b: Build)
    requires IsBuild(j, expected, a) && IsBuild(j, expected, b)
    ensures (a.complete, a.covered, a.total, a.reasons) == (b.complete, b.covered, b.total, b.reasons)
    ensures a.rows == b.rows
    ensures forall x :: Count(a.remediation, x) == Count(b.remediation, x)
  {
    forall key | key in expected ensures a.rows[key] == b.rows[key] {
      RowUnique(j.evidenced, expected[key], key, a.rows[key], b.rows[key]);
    }
  }

  lemma RowUnique(v: Evidenced, x: Expected, key: string, a: Row, b: Row)
    requires IsRow(v, x, key, a) && IsRow(v, x, key, b)
    ensures a == b
  {
    forall n | 0 <= n < |a.variants| ensures a.variants[n] == b.variants[n] {
      var variant := Variants(x.entry)[n];
      assert IsVariant(v, x, key, variant, a.variants[n]) && IsVariant(v, x, key, variant, b.variants[n]);
      var k := (Slot(x.entry.component, variant), key);
      if a.variants[n].state.Covered? || a.variants[n].state.Uncovered? {
        PeakUnique(v.seen, k, a.variants[n].hits, b.variants[n].hits);
      }
    }
  }

  // ---------- what it depends on ----------

  /** Both bodies of evidence give every declared variant of the region one state. */
  ghost predicate SameStates(v: Evidenced, w: Evidenced, x: Expected, key: string) {
    forall variant :: variant in Variants(x.entry) ==> StateOf(v, x, key, variant) == StateOf(w, x, key, variant)
  }

  lemma SameRow(v: Evidenced, w: Evidenced, x: Expected, key: string)
    requires v.seen == w.seen && SameStates(v, w, x, key)
    ensures RowOn(v, x, key) == RowOn(w, x, key)
    ensures RegionCovered(v, x, key) <==> RegionCovered(w, x, key)
  {
    assert StatesOf(v, x, key) == StatesOf(w, x, key);
    var a, b := RowOn(v, x, key).variants, RowOn(w, x, key).variants;
    forall n | 0 <= n < |a| ensures a[n] == b[n] {
      assert Variants(x.entry)[n] in Variants(x.entry);
    }
  }

  lemma SameLabels(v: Evidenced, w: Evidenced, expected: map<string, Expected>, cells: set<Cell>)
    requires forall key :: key in expected ==> SameStates(v, w, expected[key], key)
    ensures Labels(v, expected, cells) == Labels(w, expected, cells)
  {
    forall c | c in cells && ValidCell(expected, c)
      ensures Labels(v, expected, cells)[c] == Labels(w, expected, cells)[c]
    {
      assert SameStates(v, w, expected[c.key], c.key);
      assert Variants(expected[c.key].entry)[c.index] in Variants(expected[c.key].entry);
    }
  }

  lemma SameBuild(reasons: set<Reason>, v: Evidenced, w: Evidenced, expected: map<string, Expected>)
    requires v.seen == w.seen && forall key :: key in expected ==> SameStates(v, w, expected[key], key)
    ensures BuildOf(Verdict(reasons, v), expected) == BuildOf(Verdict(reasons, w), expected)
  {
    forall key | key in expected
      ensures RowOn(v, expected[key], key) == RowOn(w, expected[key], key)
      ensures RegionCovered(v, expected[key], key) <==> RegionCovered(w, expected[key], key)
    {
      SameRow(v, w, expected[key], key);
    }
    assert CoveredKeys(v, expected) == CoveredKeys(w, expected);
    SameLabels(v, w, expected, CellsOf(expected, expected.Keys));
  }

  /** A variant in another state shows in the rows. */
  lemma OtherBuild(j: Verdict, k: Verdict, expected: map<string, Expected>, key: string, variant: string)
    requires key in expected && variant in Variants(expected[key].entry)
    requires StateOf(j.evidenced, expected[key], key, variant) != StateOf(k.evidenced, expected[key], key, variant)
    ensures BuildOf(j, expected).rows != BuildOf(k, expected).rows
  {
    var vs := Variants(expected[key].entry);
    var n :| 0 <= n < |vs| && vs[n] == variant;
    var a, b := BuildOf(j, expected).rows[key], BuildOf(k, expected).rows[key];
    assert IsVariant(j.evidenced, expected[key], key, vs[n], a.variants[n]);
    assert IsVariant(k.evidenced, expected[key], key, vs[n], b.variants[n]);
  }
}
