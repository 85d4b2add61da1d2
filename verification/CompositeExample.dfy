/** A complete composite that the reader refuses. */
module CompositeExample {
  import opened Text
  import opened Composite
  import opened CompositeAssemble
  import opened CompositeLaws
  import opened CompositeReader

  /** One Rust source with one region, required on two variants. */
  predicate TwoVariants(e: Entry, r: Region) {
    && e.production && e.language.Rust? && e.regions == [r]
    && |e.formats| == 1 && |e.variants| == 2 && e.variants[0] != e.variants[1]
  }

  /** The run of the first variant covers the region. */
  function Loud(e: Entry, key: string): Input
    requires |e.variants| == 2 && |e.formats| == 1
  {
    Input(Slot(e.component, e.variants[0]), Rust, e.formats[0], None, Ingested, [Claim(Some(e.source), key, true, 1, None)])
  }

  /** The run of the second variant was ingested but reports no regions. */
  function Silent(e: Entry): Input
    requires |e.variants| == 2 && |e.formats| == 1
  {
    Input(Slot(e.component, e.variants[1]), Rust, e.formats[0], None, Ingested, [])
  }

  lemma OneRegion(inv: Inventory, e: Entry, r: Region, key: string)
    requires inv.entries == [e] && e.production && e.regions == [r] && key == KeyOf(e.source, r)
    ensures Production(inv.entries) == [e]
    ensures TargetOf(inv) == Target(map[key := Expected(e, r)], inv.revision)
  {
    assert Production([e][1..]) == [];
    var ps := EntryPairs(e);
    assert [e][..0] == [] && AllPairs([e]) == [] + ps;
    assert ps == [Keyed(key, Expected(e, r))];
    assert FromPairs(ps) == FromPairs(ps[..0])[key := Expected(e, r)];
    assert AllPairs([e]) == ps;
  }

  lemma RunsClean(t: Target, e: Entry, r: Region, key: string)
    requires TwoVariants(e, r) && t.expected == map[key := Expected(e, r)]
    ensures CleanInput(t, Loud(e, key)) && CleanInput(t, Silent(e))
    ensures OwnedBy(Expected(e, r), Loud(e, key).slot) && Covers(t, Loud(e, key), key)
  {
    var loud, silent := Loud(e, key), Silent(e);
    assert e.variants[0] in e.variants && e.variants[1] in e.variants && e.formats[0] in e.formats;
    assert key in t.expected && OwnedBy(t.expected[key], loud.slot) && OwnedBy(t.expected[key], silent.slot);
    assert Allowed(t, loud) && Allowed(t, silent);
    assert loud.claims[0] in loud.claims && CleanClaim(t, loud.claims[0]);
  }

  predicate IsRuns(e: Entry, key: string, runs: seq<Input>) {
    |e.variants| == 2 && |e.formats| == 1 && |runs| == 2 && runs[0] == Loud(e, key) && runs[1] == Silent(e)
  }

  lemma RunsServe(c: Checkout, e: Entry, r: Region, key: string, runs: seq<Input>)
    requires TwoVariants(e, r) && SourceOk(c, e) && IsRuns(e, key, runs)
    ensures Served(c, SlotsOf(runs), runs, e) && Distinct(runs)
  {
    assert runs[0] in runs && runs[1] in runs;
    forall v | v in Variants(e) ensures exists i :: i in runs && i.slot == Slot(e.component, v) {
      assert v == e.variants[0] || v == e.variants[1];
    }
    forall f | f in e.formats ensures FormatUsed(runs, e, f) {
      assert f == e.formats[0];
    }
  }

  /** The two runs, and a checkout that matches an inventory of this one entry. */
  ghost predicate Setting(inv: Inventory, e: Entry, r: Region, runs: seq<Input>, c: Checkout, key: string) {
    && TwoVariants(e, r) && IsRuns(e, key, runs)
    && SourceOk(c, e) && c.revision == Some(inv.revision) && !c.dirty
    && Production(inv.entries) == [e] && TargetOf(inv).expected == map[key := Expected(e, r)]
  }

  lemma RunsEvidence(t: Target, e: Entry, r: Region, key: string, runs: seq<Input>)
    requires TwoVariants(e, r) && IsRuns(e, key, runs) && t.expected == map[key := Expected(e, r)]
    ensures forall i :: i in runs ==> CleanInput(t, i)
    ensures exists i :: i in runs && OwnedBy(Expected(e, r), i.slot) && Covers(t, i, key)
  {
    RunsClean(t, e, r, key);
    assert runs[0] in runs;
  }

  lemma RunsComplete(inv: Inventory, e: Entry, r: Region, runs: seq<Input>, c: Checkout, key: string)
    requires Setting(inv, e, r, runs, c, key)
    ensures Complete(inv, runs, c)
  {
    RunsServe(c, e, r, key, runs);
    RunsEvidence(TargetOf(inv), e, r, key, runs);
    FullFrom(inv, runs, c, e, r, key);
    CompleteIff(inv, runs, c);
  }

  lemma RunsUnreadable(inv: Inventory, e: Entry, r: Region, runs: seq<Input>, c: Checkout, key: string, b: Build)
    requires Setting(inv, e, r, runs, c, key) && Complete(inv, runs, c)
    requires IsBuild(Judge(inv, runs, c), TargetOf(inv).expected, b)
    ensures !Read(b.rows, b.total, b.covered).Decoded?
  {
    RunsSilent(e, r, key, runs);
    SilenceSpoils(inv, runs, c, b, key, e.variants[1]);
  }

  lemma FullFrom(inv: Inventory, runs: seq<Input>, c: Checkout, e: Entry, r: Region, key: string)
    requires Production(inv.entries) == [e] && TargetOf(inv).expected == map[key := Expected(e, r)]
    requires c.revision == Some(inv.revision) && !c.dirty && Served(c, SlotsOf(runs), runs, e) && Distinct(runs)
    requires forall i :: i in runs ==> CleanInput(TargetOf(inv), i)
    requires exists i :: i in runs && OwnedBy(Expected(e, r), i.slot) && Covers(TargetOf(inv), i, key)
    ensures FullEvidence(inv, runs, c)
  {
    assert key in TargetOf(inv).expected.Keys;
    assert CoveredBySomeone(TargetOf(inv), runs, key);
  }

  /** One declared variant that says nothing about one region spoils a complete composite. */
  lemma SilenceSpoils(inv: Inventory, inputs: seq<Input>, c: Checkout, b: Build, key: string, variant: string)
    requires Complete(inv, inputs, c) && IsBuild(Judge(inv, inputs, c), TargetOf(inv).expected, b)
    requires key in TargetOf(inv).expected && variant in Variants(TargetOf(inv).expected[key].entry)
    requires forall i :: i in inputs && i.slot == Slot(TargetOf(inv).expected[key].entry.component, variant) ==> !Names(i, key)
    ensures !Read(b.rows, b.total, b.covered).Decoded?
  {
    CompleteReadableIff(inv, inputs, c, b);
    assert !SpokenFor(inputs, TargetOf(inv).expected[key], key);
  }

  lemma RunsSilent(e: Entry, r: Region, key: string, runs: seq<Input>)
    requires TwoVariants(e, r) && IsRuns(e, key, runs)
    ensures e.variants[1] in Variants(e)
    ensures forall i :: i in runs && i.slot == Slot(e.component, e.variants[1]) ==> !Names(i, key)
  {
  }

  /** The composite is complete, and its snapshot cannot be read back. */
  lemma CompleteButUnreadable(inv: Inventory, e: Entry, r: Region, runs: seq<Input>, c: Checkout, key: string, b: Build)
    requires inv.entries == [e] && TwoVariants(e, r) && key == KeyOf(e.source, r) && IsRuns(e, key, runs)
    requires SourceOk(c, e) && c.revision == Some(inv.revision) && !c.dirty
    requires IsBuild(Judge(inv, runs, c), TargetOf(inv).expected, b)
    ensures Complete(inv, runs, c) && !Read(b.rows, b.total, b.covered).Decoded?
  {
    OneRegion(inv, e, r, key);
    RunsComplete(inv, e, r, runs, c, key);
    RunsUnreadable(inv, e, r, runs, c, key, b);
  }
}
