/** What the rows, the remediation counts and the reasons of a build say. */
module CompositeRows {
  import opened Text
  import opened Composite
  import opened Counting
  import opened CompositeAssemble
  import opened CompositeLaws

  // ---------- rows ----------

  /** The place of a state in the list that decides a row. */
  function Rank(s: RegionState): nat {
    match s
    case SourceMismatch => 0
    case MissingArtifact => 1
    case Stale => 2
    case Unmeasured => 3
    case Covered => 4
    case Uncovered => 5
  }

  lemma RowStateFirst(states: set<RegionState>)
    requires states != {}
    ensures RowState(states) in states && forall s :: s in states ==> Rank(RowState(states)) <= Rank(s)
  {
    var some :| some in states;
    forall s | s in states ensures Rank(RowState(states)) <= Rank(s) {
      match s case SourceMismatch => case MissingArtifact => case Stale => case Unmeasured => case Covered => case Uncovered =>
    }
    match some case SourceMismatch => case MissingArtifact => case Stale => case Unmeasured => case Covered => case Uncovered =>
  }

  /** A row shows the first listed state that one of its variants has. */
  lemma RowMeaning(j: Verdict, expected: map<string, Expected>, b: Build, key: string)
    requires IsBuild(j, expected, b) && key in b.rows
    ensures exists n :: 0 <= n < |b.rows[key].variants| && b.rows[key].variants[n].state == b.rows[key].state
    ensures forall n :: 0 <= n < |b.rows[key].variants| ==> Rank(b.rows[key].state) <= Rank(b.rows[key].variants[n].state)
  {
    RowOfVariants(j.evidenced, expected[key], key, b.rows[key]);
  }

  /** A row lists the variants its entry declares, in order, or the one variant "default". */
  lemma RowVariants(j: Verdict, expected: map<string, Expected>, b: Build, key: string)
    requires IsBuild(j, expected, b) && key in b.rows
    ensures var e, vs := expected[key].entry, b.rows[key].variants;
            && b.rows[key].expected == expected[key]
            && (if e.variants == [] then |vs| == 1 && vs[0].variant == "default"
                else |vs| == |e.variants| && forall n :: 0 <= n < |vs| ==> vs[n].variant == e.variants[n])
  {
    assert IsRow(j.evidenced, expected[key], key, b.rows[key]);
    forall n | 0 <= n < |b.rows[key].variants| ensures b.rows[key].variants[n].variant == Variants(expected[key].entry)[n] {
      assert IsVariant(j.evidenced, expected[key], key, Variants(expected[key].entry)[n], b.rows[key].variants[n]);
    }
  }

  lemma RowOfVariants(v: Evidenced, x: Expected, key: string, row: Row)
    requires IsRow(v, x, key, row)
    ensures exists n :: 0 <= n < |row.variants| && row.variants[n].state == row.state
    ensures forall n :: 0 <= n < |row.variants| ==> Rank(row.state) <= Rank(row.variants[n].state)
  {
    var vs, states := Variants(x.entry), StatesOf(v, x, key);
    forall n | 0 <= n < |vs| ensures row.variants[n].state == StateOf(v, x, key, vs[n]) && row.variants[n].state in states {
      assert IsVariant(v, x, key, vs[n], row.variants[n]);
      assert vs[n] in vs;
    }
    assert row.variants[0].state in states;
    RowStateFirst(states);
    var variant :| variant in vs && StateOf(v, x, key, variant) == row.state;
    var n :| 0 <= n < |vs| && vs[n] == variant;
    assert row.variants[n].state == row.state;
  }

  // ---------- remediation ----------

  /** The variants over all rows whose state is one of these. */
  ghost function VariantsIn(rows: map<string, Row>, states: set<RegionState>): set<Cell> {
    set key, n | key in rows && 0 <= n < |rows[key].variants| && rows[key].variants[n].state in states :: Cell(key, n)
  }

  /** The labels of the cells are the buckets of the states the rows show. */
  ghost predicate LabelsShow(labels: map<Cell, Bucket>, rows: map<string, Row>) {
    && (forall c :: c in labels <==> c.key in rows && c.index < |rows[c.key].variants|)
    && (forall c :: c in labels ==> labels[c] == BucketOf(rows[c.key].variants[c.index].state))
  }

  lemma BucketCells(labels: map<Cell, Bucket>, rows: map<string, Row>, bucket: Bucket)
    requires LabelsShow(labels, rows)
    ensures Counting.Bucket(labels, bucket) == VariantsIn(rows, StatesFor(bucket))
  {
    forall c | c in labels ensures labels[c] == bucket <==> rows[c.key].variants[c.index].state in StatesFor(bucket) {
      BucketStates(rows[c.key].variants[c.index].state, bucket);
    }
  }

  lemma LabelsOfBuild(j: Verdict, expected: map<string, Expected>, b: Build)
    requires IsBuild(j, expected, b)
    ensures LabelsShow(Labels(j.evidenced, expected, CellsOf(expected, expected.Keys)), b.rows)
  {
    CellStates(j, expected, b);
  }

  /** The states each remediation count names. */
  function StatesFor(bucket: Bucket): set<RegionState> {
    match bucket
    case TestGap => {Uncovered}
    case InstrumentationGap => {Unmeasured, Stale}
    case GeneratedVariantGap => {MissingArtifact}
    case MismatchBucket => {SourceMismatch}
    case NoBucket => {Covered}
  }

  lemma BucketStates(s: RegionState, bucket: Bucket)
    ensures BucketOf(s) == bucket <==> s in StatesFor(bucket)
  {
    match s case SourceMismatch => case MissingArtifact => case Stale => case Unmeasured => case Covered => case Uncovered =>
  }

  lemma CellStates(j: Verdict, expected: map<string, Expected>, b: Build)
    requires IsBuild(j, expected, b)
    ensures forall key, n :: key in expected && 0 <= n < |Variants(expected[key].entry)| ==>
              n < |b.rows[key].variants| && b.rows[key].variants[n].state == StateOf(j.evidenced, expected[key], key, Variants(expected[key].entry)[n])
    ensures forall key :: key in expected ==> |b.rows[key].variants| == |Variants(expected[key].entry)|
  {
    forall key, n | key in expected && 0 <= n < |Variants(expected[key].entry)|
      ensures n < |b.rows[key].variants| && b.rows[key].variants[n].state == StateOf(j.evidenced, expected[key], key, Variants(expected[key].entry)[n])
    {
      assert IsRow(j.evidenced, expected[key], key, b.rows[key]);
      assert IsVariant(j.evidenced, expected[key], key, Variants(expected[key].entry)[n], b.rows[key].variants[n]);
    }
    forall key | key in expected ensures |b.rows[key].variants| == |Variants(expected[key].entry)| {
      assert IsRow(j.evidenced, expected[key], key, b.rows[key]);
    }
  }

  /** Each remediation count is the number of variants in the states it names. */
  lemma RemediationMeaning(j: Verdict, expected: map<string, Expected>, b: Build, bucket: Bucket)
    requires IsBuild(j, expected, b)
    ensures Count(b.remediation, bucket) == |VariantsIn(b.rows, StatesFor(bucket))|
  {
    LabelsOfBuild(j, expected, b);
    BucketCells(Labels(j.evidenced, expected, CellsOf(expected, expected.Keys)), b.rows, bucket);
  }

  // ---------- reasons ----------

  lemma OwnReasonMembers(t: Target, i: Input, r: Reason)
    ensures r in Own(t, i).reasons <==>
              r in DescriptorReasons(t, i) || (Allowed(t, i) && exists c :: c in i.claims && r in ClaimEffects(t, i.slot, c).reasons)
  {
    if Allowed(t, i) {
      ClaimMembers(t, i.slot, i.claims, AReason(r));
    }
  }

  lemma {:induction false} AuditReasonMembers(c: Checkout, slots: set<Slot>, inputs: seq<Input>, es: seq<Entry>, r: Reason)
    ensures r in AuditAll(c, slots, inputs, es).reasons <==> exists e :: e in es && r in EntryReasons(c, slots, inputs, e)
  {
    if es != [] {
      AuditReasonMembers(c, slots, inputs, es[..|es| - 1], r);
      assert forall e :: e in es <==> e in es[..|es| - 1] || e == es[|es| - 1];
    }
  }

  /** What one artifact is blamed for. */
  ghost predicate Blames(t: Target, i: Input, r: Reason) {
    match r
    case StaleRevision(slot) => i.slot == slot && i.revision.Some? && i.revision.value != t.revision
    case NotIngested(slot, status) => i.slot == slot && i.status == status && !status.Ingested?
    case NotOwned(slot) => i.slot == slot && !exists key :: key in t.expected && OwnedBy(t.expected[key], slot)
    case WrongFormat(format, slot) =>
      i.slot == slot && i.format == format
      && !exists key :: key in t.expected && OwnedBy(t.expected[key], slot) && format in t.expected[key].entry.formats
    case NoAlias(slot) => i.slot == slot && Allowed(t, i) && exists c :: c in i.claims && c.source.None?
    case Unowned(key) => Allowed(t, i) && key !in t.expected && exists c :: c in i.claims && c.source.Some? && c.key == key
    case HashMismatch(source) =>
      Allowed(t, i) && exists c :: c in i.claims && c.source == Some(source) && c.key in t.expected && c.hash.Some?
                                   && c.hash.value != t.expected[c.key].entry.hash
    case _ => false
  }

  /** What one production entry is blamed for. */
  ghost predicate Lacks(c: Checkout, inputs: seq<Input>, e: Entry, r: Reason) {
    match r
    case HashMismatch(source) => e.source == source && e.path in c.disk && c.disk[e.path] != e.hash
    case SourceMissing(path) => e.path == path && path !in c.disk
    case UnsupportedLanguage(source, language) => e.source == source && e.language == language && language.OtherLanguage?
    case MissingVariant(slot) =>
      slot.component == e.component && slot.variant in Variants(e) && !exists i :: i in inputs && i.slot == slot
    case FormatUnused(format, source) =>
      && e.source == source && format in e.formats && (exists i :: i in inputs && i.slot.component == e.component)
      && !exists i :: i in inputs && i.slot.component == e.component && i.language == e.language && i.format == format
    case _ => false
  }

  /** Every reason there can be, and what it takes. */
  ghost predicate Justified(inv: Inventory, inputs: seq<Input>, c: Checkout, r: Reason) {
    || (r.NoProduction? && !exists e :: e in inv.entries && e.production)
    || (r.RevisionMismatch? && c.revision != Some(inv.revision))
    || (r.DirtyCheckout? && c.dirty)
    || (r.DuplicateSlot? && Repeated(inputs, r.slot))
    || (exists i :: i in inputs && Blames(TargetOf(inv), i, r))
    || (exists e :: e in inv.entries && e.production && Lacks(c, inputs, e, r))
  }

  lemma BlamesMeaning(t: Target, i: Input, r: Reason)
    ensures r in Own(t, i).reasons <==> Blames(t, i, r)
  {
    OwnReasonMembers(t, i, r);
  }

  lemma LacksMeaning(t: Target, c: Checkout, inputs: seq<Input>, e: Entry, r: Reason)
    ensures r in EntryReasons(c, SlotsOf(inputs), inputs, e) <==> Lacks(c, inputs, e, r)
  {
    if r.FormatUnused? {
      assert ComponentPresent(SlotsOf(inputs), e.component) <==> exists i :: i in inputs && i.slot.component == e.component by {
        if i :| i in inputs && i.slot.component == e.component {
          assert i.slot in SlotsOf(inputs);
        }
      }
    }
  }

  /** The reasons are exactly the justified ones. */
  lemma ReasonsMeaning(inv: Inventory, inputs: seq<Input>, c: Checkout, r: Reason)
    ensures r in Judge(inv, inputs, c).reasons <==> Justified(inv, inputs, c, r)
  {
    var t, es := TargetOf(inv), Production(inv.entries);
    GatherMembers(t, inputs, AReason(r));
    StatusSlots(t, inputs);
    AuditReasonMembers(c, SlotsOf(inputs), inputs, es, r);
    forall i | i in inputs ensures Has(Own(t, i), AReason(r)) <==> Blames(t, i, r) {
      BlamesMeaning(t, i, r);
    }
    forall e | e in es ensures r in EntryReasons(c, SlotsOf(inputs), inputs, e) <==> Lacks(c, inputs, e, r) {
      LacksMeaning(t, c, inputs, e, r);
    }
    HeaderMeaning(inv, c, r);
  }

  lemma HeaderMeaning(inv: Inventory, c: Checkout, r: Reason)
    ensures r in HeaderReasons(inv, c) <==>
              || (r.NoProduction? && !exists e :: e in inv.entries && e.production)
              || (r.RevisionMismatch? && c.revision != Some(inv.revision))
              || (r.DirtyCheckout? && c.dirty)
  {
    assert Production(inv.entries) == [] <==> !exists e :: e in inv.entries && e.production by {
      if Production(inv.entries) != [] {
        assert Production(inv.entries)[0] in Production(inv.entries);
      }
    }
  }

  // ---------- hits ----------

  /** Accepted evidence of the slot counts h for the region. */
  ghost predicate Counts(t: Target, inputs: seq<Input>, slot: Slot, key: string, h: int) {
    exists i :: i in inputs && i.slot == slot && InputCounts(t, i, key, h)
  }

  predicate InputCounts(t: Target, i: Input, key: string, h: int) {
    Allowed(t, i) && exists c :: c in i.claims && CleanClaim(t, c) && c.key == key && c.hits == h
  }

  lemma SeenCounts(t: Target, inputs: seq<Input>, slot: Slot, key: string, h: int)
    ensures (exists s :: s in Gather(t, inputs).effects.seen && s.slot == slot && s.key == key && s.hits == h)
       <==> Counts(t, inputs, slot, key, h)
  {
    if s :| s in Gather(t, inputs).effects.seen && s.slot == slot && s.key == key && s.hits == h {
      GatherMembers(t, inputs, ASeen(s));
      var i :| i in inputs && Has(Own(t, i), ASeen(s));
      OwnSeen(t, i, s);
      assert InputCounts(t, i, key, h);
    }
    if i :| i in inputs && i.slot == slot && InputCounts(t, i, key, h) {
      var c :| c in i.claims && CleanClaim(t, c) && c.key == key && c.hits == h;
      var s := Seen(slot, key, c.covered, h);
      OwnSeen(t, i, s);
      assert Has(Own(t, i), ASeen(s));
      GatherMembers(t, inputs, ASeen(s));
    }
  }

  /** A measured variant shows the largest count of its slot's accepted evidence, never below 0. */
  lemma HitsMeaning(t: Target, inputs: seq<Input>, v: Evidenced, x: Expected, key: string, variant: string, s: VariantState)
    requires IsVariant(v, x, key, variant, s) && v.seen == Gather(t, inputs).effects.seen
    ensures var slot := Slot(x.entry.component, variant);
            if s.state.Covered? || s.state.Uncovered? then
              && s.hits >= 0 && (forall h :: Counts(t, inputs, slot, key, h) ==> h <= s.hits)
              && (s.hits > 0 ==> Counts(t, inputs, slot, key, s.hits))
            else s.hits == 0
  {
    var slot := Slot(x.entry.component, variant);
    if s.state.Covered? || s.state.Uncovered? {
      forall h | Counts(t, inputs, slot, key, h) ensures h <= s.hits {
        SeenCounts(t, inputs, slot, key, h);
        var w :| w in v.seen && w.slot == slot && w.key == key && w.hits == h;
        assert CompositeAssemble.About(w, (slot, key));
      }
      if s.hits > 0 {
        var w :| w in v.seen && CompositeAssemble.About(w, (slot, key)) && w.hits == s.hits;
        SeenCounts(t, inputs, slot, key, s.hits);
      }
    }
  }
}
