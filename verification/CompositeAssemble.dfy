/** `assemble`: the loops of src/composite.rs against the phase functions. */
module CompositeAssemble {
  import opened Composite
  import opened Counting

  // ---------- observed regions ----------

  /** Coverage and hits of one slot and key. */
  datatype Observed = Observed(covered: bool, hits: int)

  /** An entry starts uncovered with no hits, is covered once any region is, and keeps the largest hits. */
  function Record(o: map<(Slot, string), Observed>, s: Seen): map<(Slot, string), Observed> {
    var k := (s.slot, s.key);
    var was := if k in o then o[k] else Observed(false, 0);
    o[k := Observed(was.covered || s.covered, if was.hits < s.hits then s.hits else was.hits)]
  }

  predicate About(s: Seen, k: (Slot, string)) { s.slot == k.0 && s.key == k.1 }

  /** The largest hit count accepted for a slot and key, never below zero. */
  ghost predicate Peak(seen: set<Seen>, k: (Slot, string), hits: int) {
    && 0 <= hits
    && (forall s :: s in seen && About(s, k) ==> s.hits <= hits)
    && (hits > 0 ==> exists s :: s in seen && About(s, k) && s.hits == hits)
  }

  ghost predicate TracksAt(seen: set<Seen>, o: map<(Slot, string), Observed>, k: (Slot, string)) {
    && (k in o <==> exists s :: s in seen && About(s, k))
    && (k in o ==> (o[k].covered <==> exists s :: s in seen && About(s, k) && s.covered) && Peak(seen, k, o[k].hits))
  }

  /** The map holds, for each slot and key, the union and the maximum of what was accepted. */
  ghost predicate Tracks(seen: set<Seen>, o: map<(Slot, string), Observed>) {
    forall k :: TracksAt(seen, o, k)
  }

  lemma RecordTracks(seen: set<Seen>, o: map<(Slot, string), Observed>, s: Seen)
    requires Tracks(seen, o)
    ensures Tracks(seen + {s}, Record(o, s))
  {
    var all, p := seen + {s}, Record(o, s);
    forall k ensures TracksAt(all, p, k) {
      assert TracksAt(seen, o, k);
      if k == (s.slot, s.key) {
        assert s in all && About(s, k);
        RecordPeak(seen, o, s);
      } else {
        assert !About(s, k);
        if k in o && o[k].hits > 0 {
          var q :| q in seen && About(q, k) && q.hits == o[k].hits;
          assert q in all;
        }
      }
    }
  }

  lemma RecordPeak(seen: set<Seen>, o: map<(Slot, string), Observed>, s: Seen)
    requires TracksAt(seen, o, (s.slot, s.key))
    ensures Peak(seen + {s}, (s.slot, s.key), Record(o, s)[(s.slot, s.key)].hits)
  {
    var k := (s.slot, s.key);
    var hits := Record(o, s)[k].hits;
    assert s in seen + {s} && About(s, k);
    if k in o && o[k].hits == hits && hits > 0 {
      var q :| q in seen && About(q, k) && q.hits == hits;
      assert q in seen + {s};
    }
  }

  // ---------- phase one ----------

  /** One evidence region. */
  method TakeClaim(t: Target, slot: Slot, c: Claim, before: map<(Slot, string), Observed>, ghost seen: set<Seen>)
    returns (reasons: set<Reason>, mismatches: set<(Slot, string)>, observed: map<(Slot, string), Observed>)
    requires Tracks(seen, before)
    ensures (reasons, mismatches) == (ClaimEffects(t, slot, c).reasons, ClaimEffects(t, slot, c).mismatches)
    ensures Tracks(seen + ClaimEffects(t, slot, c).seen, observed)
  {
    reasons, mismatches, observed := {}, {}, before;
    if c.source.None? {
      reasons := {NoAlias(slot)};
    } else if c.key !in t.expected {
      reasons := {Unowned(c.key)};
    } else if !HashOk(t, c) {
      reasons, mismatches := {HashMismatch(c.source.value)}, {(slot, c.key)};
    } else {
      var s := Seen(slot, c.key, c.covered, c.hits);
      RecordTracks(seen, observed, s);
      observed := Record(observed, s);
    }
    assert seen + {} == seen;
  }

  /** The evidence loop of one input. */
  method TakeClaims(t: Target, slot: Slot, claims: seq<Claim>, before: map<(Slot, string), Observed>, ghost seen: set<Seen>)
    returns (reasons: set<Reason>, mismatches: set<(Slot, string)>, observed: map<(Slot, string), Observed>)
    requires Tracks(seen, before)
    ensures (reasons, mismatches) == (AllClaims(t, slot, claims).reasons, AllClaims(t, slot, claims).mismatches)
    ensures Tracks(seen + AllClaims(t, slot, claims).seen, observed)
  {
    reasons, mismatches, observed := {}, {}, before;
    assert seen + {} == seen;
    for n := 0 to |claims|
      invariant (reasons, mismatches) == (AllClaims(t, slot, claims[..n]).reasons, AllClaims(t, slot, claims[..n]).mismatches)
      invariant Tracks(seen + AllClaims(t, slot, claims[..n]).seen, observed)
    {
      ghost var before, one := AllClaims(t, slot, claims[..n]), ClaimEffects(t, slot, claims[n]);
      assert claims[..n + 1][..n] == claims[..n];
      assert AllClaims(t, slot, claims[..n + 1]) == Join(before, one);
      assert seen + (before.seen + one.seen) == seen + before.seen + one.seen;
      var r, m, o := TakeClaim(t, slot, claims[n], observed, seen + before.seen);
      reasons, mismatches, observed := reasons + r, mismatches + m, o;
    }
    assert claims[..|claims|] == claims;
  }

  /** The running result of the input loop. */
  datatype Work = Work(reasons: set<Reason>, mismatches: set<(Slot, string)>, statuses: map<Slot, Status>,
                       observed: map<(Slot, string), Observed>)

  ghost predicate Carries(w: Work, g: Gathered) {
    && (w.reasons, w.mismatches, w.statuses) == (g.effects.reasons, g.effects.mismatches, g.statuses)
    && Tracks(g.effects.seen, w.observed)
  }

  /** The descriptor checks, in the order that lets a wrong format beat a stale revision. */
  method CheckDescriptor(t: Target, i: Input, repeated: bool) returns (reasons: set<Reason>, status: Status)
    ensures status == FinalStatus(t, i)
    ensures reasons == DescriptorReasons(t, i) + (if repeated then {DuplicateSlot(i.slot)} else {})
  {
    reasons, status := {}, i.status;
    if !RevisionOk(t, i) {
      status := StaleEvidence;
      reasons := reasons + {StaleRevision(i.slot)};
    }
    if repeated {
      reasons := reasons + {DuplicateSlot(i.slot)};
    }
    if !i.status.Ingested? {
      reasons := reasons + {NotIngested(i.slot, i.status)};
    }
    if !Owned(t, i.slot) {
      reasons := reasons + {NotOwned(i.slot)};
    }
    if !Allowed(t, i) {
      status := FormatMismatch;
      reasons := reasons + {WrongFormat(i.format, i.slot)};
    }
  }

  /** One descriptor: its checks and status, then its evidence. */
  method TakeInput(t: Target, w: Work, i: Input, ghost g: Gathered) returns (x: Work)
    requires Carries(w, g)
    ensures Carries(x, Add(t, g, i))
  {
    var reasons, status := CheckDescriptor(t, i, i.slot in w.statuses);
    ghost var all := Add(t, g, i);
    var own, bad, observed := {}, {}, w.observed;
    if Allowed(t, i) {
      own, bad, observed := TakeClaims(t, i.slot, i.claims, w.observed, g.effects.seen);
    }
    assert all.effects.seen == g.effects.seen + InputEffects(t, i).seen;
    assert all.effects.mismatches == w.mismatches + bad;
    assert all.effects.reasons == w.reasons + reasons + own;
    assert g.effects.seen + {} == g.effects.seen;
    x := Work(w.reasons + reasons + own, w.mismatches + bad, w.statuses[i.slot := status], observed);
  }

  method GatherInputs(t: Target, inputs: seq<Input>) returns (w: Work)
    ensures Carries(w, Gather(t, inputs))
  {
    w := Work({}, {}, map[], map[]);
    for n := 0 to |inputs|
      invariant Carries(w, Gather(t, inputs[..n]))
    {
      assert inputs[..n + 1][..n] == inputs[..n];
      w := TakeInput(t, w, inputs[n], Gather(t, inputs[..n]));
    }
    assert inputs[..|inputs|] == inputs;
  }

  // ---------- phase two ----------

  method MissingVariants(e: Entry, slots: set<Slot>) returns (reasons: set<Reason>)
    ensures reasons == set v | v in Variants(e) && Slot(e.component, v) !in slots :: MissingVariant(Slot(e.component, v))
  {
    reasons := {};
    var vs := Variants(e);
    for n := 0 to |vs|
      invariant reasons == set v | v in vs[..n] && Slot(e.component, v) !in slots :: MissingVariant(Slot(e.component, v))
    {
      assert vs[..n + 1] == vs[..n] + [vs[n]];
      if Slot(e.component, vs[n]) !in slots {
        reasons := reasons + {MissingVariant(Slot(e.component, vs[n]))};
      }
    }
    assert vs[..|vs|] == vs;
  }

  method UnusedFormats(e: Entry, slots: set<Slot>, inputs: seq<Input>) returns (reasons: set<Reason>)
    ensures reasons == set f | f in e.formats && !FormatUsed(inputs, e, f) && ComponentPresent(slots, e.component)
                       :: FormatUnused(f, e.source)
  {
    reasons := {};
    for n := 0 to |e.formats|
      invariant reasons == set f | f in e.formats[..n] && !FormatUsed(inputs, e, f) && ComponentPresent(slots, e.component)
                           :: FormatUnused(f, e.source)
    {
      assert e.formats[..n + 1] == e.formats[..n] + [e.formats[n]];
      if !FormatUsed(inputs, e, e.formats[n]) {
        if ComponentPresent(slots, e.component) {
          reasons := reasons + {FormatUnused(e.formats[n], e.source)};
        }
      }
    }
    assert e.formats[..|e.formats|] == e.formats;
  }

  method AuditEntry(c: Checkout, slots: set<Slot>, inputs: seq<Input>, e: Entry) returns (a: Audit)
    ensures a == AuditOne(c, slots, inputs, e)
  {
    var reasons, bad: set<string> := {}, {};
    if !Supported(e.language) {
      reasons := reasons + {UnsupportedLanguage(e.source, e.language)};
    }
    var missing := MissingVariants(e, slots);
    if e.path !in c.disk {
      bad, missing := {e.source}, missing + {SourceMissing(e.path)};
    } else if c.disk[e.path] != e.hash {
      bad, missing := {e.source}, missing + {HashMismatch(e.source)};
    }
    var unused := UnusedFormats(e, slots, inputs);
    a := Audit(reasons + missing + unused, bad);
  }

  method AuditEntries(c: Checkout, slots: set<Slot>, inputs: seq<Input>, es: seq<Entry>) returns (a: Audit)
    ensures a == AuditAll(c, slots, inputs, es)
  {
    a := Audit({}, {});
    for n := 0 to |es|
      invariant a == AuditAll(c, slots, inputs, es[..n])
    {
      assert es[..n + 1][..n] == es[..n];
      var one := AuditEntry(c, slots, inputs, es[n]);
      a := Audit(a.reasons + one.reasons, a.badSources + one.badSources);
    }
    assert es[..|es|] == es;
  }

  // ---------- expected regions ----------

  /** The insertions of one entry. */
  method InsertEntry(before: map<string, Expected>, ps: seq<Keyed>, ghost past: seq<Keyed>) returns (expected: map<string, Expected>)
    requires before == FromPairs(past)
    ensures expected == FromPairs(past + ps)
  {
    expected := before;
    assert past + [] == past;
    for j := 0 to |ps|
      invariant expected == FromPairs(past + ps[..j])
    {
      expected := expected[ps[j].key := ps[j].expected];
      ghost var all := past + ps[..j + 1];
      assert all[..|all| - 1] == past + ps[..j] && all[|all| - 1] == ps[j];
    }
    assert ps[..|ps|] == ps;
  }

  method ExpectedRegions(es: seq<Entry>) returns (expected: map<string, Expected>)
    ensures expected == ExpectedOf(es)
  {
    expected := map[];
    for n := 0 to |es|
      invariant expected == FromPairs(AllPairs(es[..n]))
    {
      assert es[..n + 1][..n] == es[..n];
      expected := InsertEntry(expected, EntryPairs(es[n]), AllPairs(es[..n]));
    }
    assert es[..|es|] == es;
  }

  // ---------- phase three ----------

  /** The state and hits of one variant, read from the observed map. */
  method VariantOf(w: Work, badSources: set<string>, dirty: bool, x: Expected, key: string, variant: string,
                   ghost v: Evidenced) returns (s: VariantState)
    requires (w.mismatches, w.statuses, badSources, dirty) == (v.mismatches, v.statuses, v.badSources, v.dirty)
    requires Tracks(v.seen, w.observed)
    ensures IsVariant(v, x, key, variant, s)
  {
    var slot := Slot(x.entry.component, variant);
    ghost var tracked := TracksAt(v.seen, w.observed, (slot, key));
    if x.entry.source in badSources || (slot, key) in w.mismatches {
      return VariantState(variant, SourceMismatch, 0);
    }
    if dirty && slot in w.statuses && w.statuses[slot].Ingested? {
      return VariantState(variant, Stale, 0);
    }
    if slot !in w.statuses || w.statuses[slot].Missing? {
      return VariantState(variant, MissingArtifact, 0);
    }
    if w.statuses[slot].SkippedStale? {
      return VariantState(variant, Stale, 0);
    }
    if !w.statuses[slot].Ingested? || (slot, key) !in w.observed {
      return VariantState(variant, Unmeasured, 0);
    }
    var o := w.observed[(slot, key)];
    return VariantState(variant, if o.covered then Covered else Uncovered, o.hits);
  }

  /** Hits are the peak of the accepted evidence where there is a measurement, else zero. */
  ghost predicate IsVariant(v: Evidenced, x: Expected, key: string, variant: string, s: VariantState) {
    && s.variant == variant && s.state == StateOf(v, x, key, variant)
    && if s.state.Covered? || s.state.Uncovered? then Peak(v.seen, (Slot(x.entry.component, variant), key), s.hits)
       else s.hits == 0
  }

  // ---------- rows and remediation counts ----------

  /** One variant of one expected region. */
  datatype Cell = Cell(key: string, index: nat)

  function CellsOf(expected: map<string, Expected>, keys: set<string>): set<Cell>
    requires keys <= expected.Keys
  {
    set key, j | key in keys && 0 <= j < |Variants(expected[key].entry)| :: Cell(key, j)
  }

  predicate ValidCell(expected: map<string, Expected>, c: Cell) {
    c.key in expected && c.index < |Variants(expected[c.key].entry)|
  }

  /** The remediation bucket of every cell. */
  ghost function Labels(v: Evidenced, expected: map<string, Expected>, cells: set<Cell>): map<Cell, Bucket> {
    map c | c in cells && ValidCell(expected, c) ::
      BucketOf(StateOf(v, expected[c.key], c.key, Variants(expected[c.key].entry)[c.index]))
  }

  lemma LabelStep(v: Evidenced, expected: map<string, Expected>, cells: set<Cell>, c: Cell, s: VariantState)
    requires ValidCell(expected, c)
    requires s.state == StateOf(v, expected[c.key], c.key, Variants(expected[c.key].entry)[c.index])
    ensures Labels(v, expected, cells + {c}) == Labels(v, expected, cells)[c := BucketOf(s.state)]
  {
  }

  lemma BucketsPartition(labels: map<Cell, Bucket>)
    ensures |Counting.Bucket(labels, TestGap)| + |Counting.Bucket(labels, InstrumentationGap)| + |Counting.Bucket(labels, GeneratedVariantGap)|
            + |Counting.Bucket(labels, MismatchBucket)| + |Counting.Bucket(labels, NoBucket)| == |labels|
  {
    var a, b, c, d, e := Counting.Bucket(labels, TestGap), Counting.Bucket(labels, InstrumentationGap),
                         Counting.Bucket(labels, GeneratedVariantGap), Counting.Bucket(labels, MismatchBucket), Counting.Bucket(labels, NoBucket);
    Apart(a + b, a, b);
    Apart(a + b + c, a + b, c);
    Apart(a + b + c + d, a + b + c, d);
    Apart(a + b + c + d + e, a + b + c + d, e);
    forall x | x in labels ensures x in a + b + c + d + e {
      match labels[x] case TestGap => case InstrumentationGap => case GeneratedVariantGap => case MismatchBucket => case NoBucket =>
    }
    assert labels.Keys == a + b + c + d + e;
  }

  /** A region row: one entry per declared variant and the first state of the priority list. */
  ghost predicate IsRow(v: Evidenced, x: Expected, key: string, row: Row) {
    && row.expected == x && row.state == RowState(StatesOf(v, x, key))
    && |row.variants| == |Variants(x.entry)|
    && forall j :: 0 <= j < |row.variants| ==> IsVariant(v, x, key, Variants(x.entry)[j], row.variants[j])
  }

  function CellsUpTo(key: string, n: nat): set<Cell> {
    set j | 0 <= j < n :: Cell(key, j)
  }

  /** Counting one more variant of `key`. */
  lemma CellCounted(v: Evidenced, expected: map<string, Expected>, cells: set<Cell>, key: string, n: nat,
                    counts: map<Bucket, nat>, s: VariantState)
    requires key in expected && n < |Variants(expected[key].entry)| && forall c :: c in cells ==> c.key != key
    requires Counted(Labels(v, expected, cells + CellsUpTo(key, n)), counts)
    requires IsVariant(v, expected[key], key, Variants(expected[key].entry)[n], s)
    ensures Counted(Labels(v, expected, cells + CellsUpTo(key, n + 1)), counts[BucketOf(s.state) := Count(counts, BucketOf(s.state)) + 1])
  {
    var done, c := cells + CellsUpTo(key, n), Cell(key, n);
    assert cells + CellsUpTo(key, n + 1) == done + {c};
    CountOne(Labels(v, expected, done), counts, c, BucketOf(s.state));
    LabelStep(v, expected, done, c, s);
  }

  /** The variant loop of one region. */
  method VariantLoop(w: Work, badSources: set<string>, dirty: bool, expected: map<string, Expected>, key: string,
                     before: map<Bucket, nat>, ghost cells: set<Cell>, ghost v: Evidenced)
    returns (states: seq<VariantState>, counts: map<Bucket, nat>)
    requires (w.mismatches, w.statuses, badSources, dirty) == (v.mismatches, v.statuses, v.badSources, v.dirty)
    requires Tracks(v.seen, w.observed) && key in expected && Counted(Labels(v, expected, cells), before)
    requires forall c :: c in cells ==> c.key != key
    ensures |states| == |Variants(expected[key].entry)|
    ensures forall j :: 0 <= j < |states| ==> IsVariant(v, expected[key], key, Variants(expected[key].entry)[j], states[j])
    ensures Counted(Labels(v, expected, cells + CellsUpTo(key, |states|)), counts)
  {
    var x := expected[key];
    var vs := Variants(x.entry);
    states, counts := [], before;
    assert cells + CellsUpTo(key, 0) == cells;
    for n := 0 to |vs|
      invariant |states| == n && forall j :: 0 <= j < n ==> IsVariant(v, x, key, vs[j], states[j])
      invariant Counted(Labels(v, expected, cells + CellsUpTo(key, n)), counts)
    {
      var s := VariantOf(w, badSources, dirty, x, key, vs[n], v);
      CellCounted(v, expected, cells, key, n, counts, s);
      counts := counts[BucketOf(s.state) := Count(counts, BucketOf(s.state)) + 1];
      states := states + [s];
    }
  }

  method RowFor(w: Work, badSources: set<string>, dirty: bool, expected: map<string, Expected>, key: string,
                before: map<Bucket, nat>, ghost cells: set<Cell>, ghost v: Evidenced)
    returns (row: Row, covered: bool, counts: map<Bucket, nat>)
    requires (w.mismatches, w.statuses, badSources, dirty) == (v.mismatches, v.statuses, v.badSources, v.dirty)
    requires Tracks(v.seen, w.observed) && key in expected && Counted(Labels(v, expected, cells), before)
    requires forall c :: c in cells ==> c.key != key
    ensures IsRow(v, expected[key], key, row) && (covered <==> RegionCovered(v, expected[key], key))
    ensures Counted(Labels(v, expected, cells + CellsOf(expected, {key})), counts)
  {
    var states;
    states, counts := VariantLoop(w, badSources, dirty, expected, key, before, cells, v);
    assert CellsUpTo(key, |states|) == CellsOf(expected, {key});
    var found := set j | 0 <= j < |states| :: states[j].state;
    assert found == StatesOf(v, expected[key], key);
    row := Row(expected[key], RowState(found), states);
    covered := Covered in found;
  }

  // ---------- the whole ----------

  datatype Build = Build(complete: bool, covered: nat, total: nat, reasons: set<Reason>,
                         remediation: map<Bucket, nat>, rows: map<string, Row>)

  /** What a build must be, given the judgement of the three phases. */
  ghost predicate IsBuild(j: Verdict, expected: map<string, Expected>, b: Build) {
    && b.reasons == j.reasons && b.total == |expected| && b.covered == |CoveredKeys(j.evidenced, expected)|
    && (b.complete <==> j.reasons == {} && |expected| > 0 && b.covered == b.total)
    && b.rows.Keys == expected.Keys
    && (forall key :: key in expected ==> IsRow(j.evidenced, expected[key], key, b.rows[key]))
    && Counted(Labels(j.evidenced, expected, CellsOf(expected, expected.Keys)), b.remediation)
  }

  datatype Rows = Rows(rows: map<string, Row>, covered: set<string>)

  ghost predicate RowsOf(v: Evidenced, expected: map<string, Expected>, keys: set<string>, r: Rows)
    requires keys <= expected.Keys
  {
    && r.rows.Keys == keys && r.covered == CoveredAmong(v, expected, keys)
    && (forall key :: key in keys ==> IsRow(v, expected[key], key, r.rows[key]))
  }

  lemma RowAdded(v: Evidenced, expected: map<string, Expected>, keys: set<string>, r: Rows, key: string, row: Row, covered: bool)
    requires keys <= expected.Keys && RowsOf(v, expected, keys, r) && key in expected && key !in keys
    requires IsRow(v, expected[key], key, row) && (covered <==> RegionCovered(v, expected[key], key))
    ensures RowsOf(v, expected, keys + {key}, Rows(r.rows[key := row], if covered then r.covered + {key} else r.covered))
  {
    CoveredAdded(v, expected, keys, key);
  }

  lemma CoveredAdded(v: Evidenced, expected: map<string, Expected>, keys: set<string>, key: string)
    requires keys <= expected.Keys && key in expected
    ensures CoveredAmong(v, expected, keys + {key})
         == CoveredAmong(v, expected, keys) + if RegionCovered(v, expected[key], key) then {key} else {}
  {
  }

  function CoveredAmong(v: Evidenced, expected: map<string, Expected>, keys: set<string>): set<string>
    requires keys <= expected.Keys
  {
    set key | key in keys && RegionCovered(v, expected[key], key)
  }

  method RegionRows(w: Work, badSources: set<string>, dirty: bool, expected: map<string, Expected>, ghost v: Evidenced)
    returns (r: Rows, counts: map<Bucket, nat>)
    requires (w.mismatches, w.statuses, badSources, dirty) == (v.mismatches, v.statuses, v.badSources, v.dirty)
    requires Tracks(v.seen, w.observed)
    ensures RowsOf(v, expected, expected.Keys, r)
    ensures Counted(Labels(v, expected, CellsOf(expected, expected.Keys)), counts)
  {
    r, counts := Rows(map[], {}), map[];
    var todo := expected.Keys;
    assert forall b :: Counting.Bucket(Labels(v, expected, {}), b) == {};
    assert CellsOf(expected, {}) == {};
    while todo != {}
      invariant todo <= expected.Keys && RowsOf(v, expected, expected.Keys - todo, r)
      invariant Counted(Labels(v, expected, CellsOf(expected, expected.Keys - todo)), counts)
      decreases todo
    {
      var key :| key in todo;
      ghost var done := expected.Keys - todo;
      var row, covered, c := RowFor(w, badSources, dirty, expected, key, counts, CellsOf(expected, done), v);
      RowAdded(v, expected, done, r, key, row, covered);
      assert done + {key} == expected.Keys - (todo - {key});
      assert CellsOf(expected, done + {key}) == CellsOf(expected, done) + CellsOf(expected, {key});
      r, counts := Rows(r.rows[key := row], if covered then r.covered + {key} else r.covered), c;
      todo := todo - {key};
    }
    assert expected.Keys - {} == expected.Keys;
  }

  /** `assemble`. */
  method Assemble(inv: Inventory, artifacts: seq<Artifact>, c: Checkout) returns (b: Build)
    ensures IsBuild(Judge(inv, Inputs(artifacts), c), ExpectedOf(Production(inv.entries)), b)
  {
    var inputs, production := Inputs(artifacts), Production(inv.entries);
    ghost var j := Judge(inv, inputs, c);
    var expected := ExpectedRegions(production);
    var w := GatherInputs(Target(expected, inv.revision), inputs);
    var audit := AuditEntries(c, w.statuses.Keys, inputs, production);
    var r, counts := RegionRows(w, audit.badSources, c.dirty, expected, j.evidenced);
    assert r.covered == CoveredKeys(j.evidenced, expected);
    var reasons := HeaderReasons(inv, c) + w.reasons + audit.reasons;
    b := Build(reasons == {} && |expected| > 0 && |r.covered| == |expected|, |r.covered|, |expected|, reasons, counts, r.rows);
  }

  /** The remediation counts of a build add up to the declared variants over all expected regions. */
  lemma RemediationAddsUp(j: Verdict, expected: map<string, Expected>, b: Build)
    requires IsBuild(j, expected, b)
    ensures Count(b.remediation, TestGap) + Count(b.remediation, InstrumentationGap) + Count(b.remediation, GeneratedVariantGap)
            + Count(b.remediation, MismatchBucket) + Count(b.remediation, NoBucket) == |CellsOf(expected, expected.Keys)|
  {
    var cells := CellsOf(expected, expected.Keys);
    var labels := Labels(j.evidenced, expected, cells);
    BucketsPartition(labels);
    assert labels.Keys == cells;
    assert |labels| == |labels.Keys|;
  }
}
