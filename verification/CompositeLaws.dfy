/** What "complete" and "covered" really mean. */
module CompositeLaws {
  import opened Text
  import opened Composite
  import opened Counting

  // ---------- what the input loop collected ----------

  datatype Item = AReason(r: Reason) | AMismatch(slot: Slot, key: string) | ASeen(s: Seen)

  predicate Has(e: Effects, x: Item) {
    match x
    case AReason(r) => r in e.reasons
    case AMismatch(slot, key) => (slot, key) in e.mismatches
    case ASeen(s) => s in e.seen
  }

  lemma {:induction false} ClaimMembers(t: Target, slot: Slot, cs: seq<Claim>, x: Item)
    ensures Has(AllClaims(t, slot, cs), x) <==> exists c :: c in cs && Has(ClaimEffects(t, slot, c), x)
  {
    if cs != [] {
      var rest, last := cs[..|cs| - 1], cs[|cs| - 1];
      ClaimMembers(t, slot, rest, x);
      assert forall c :: c in cs <==> c in rest || c == last;
      assert Has(AllClaims(t, slot, cs), x) <==> Has(AllClaims(t, slot, rest), x) || Has(ClaimEffects(t, slot, last), x);
    }
  }

  /** What one input contributes, whatever the other inputs are. */
  function Own(t: Target, i: Input): Effects {
    Join(Effects(DescriptorReasons(t, i), {}, {}), InputEffects(t, i))
  }

  ghost predicate Repeated(inputs: seq<Input>, s: Slot) {
    exists a, b :: 0 <= a < b < |inputs| && inputs[a].slot == s && inputs[b].slot == s
  }

  ghost predicate Distinct(inputs: seq<Input>) {
    forall a, b :: 0 <= a < b < |inputs| ==> inputs[a].slot != inputs[b].slot
  }

  lemma {:induction false} SlotMembers(t: Target, inputs: seq<Input>, s: Slot)
    ensures s in Gather(t, inputs).statuses <==> exists i :: i in inputs && i.slot == s
  {
    if inputs != [] {
      var rest, last := inputs[..|inputs| - 1], inputs[|inputs| - 1];
      SlotMembers(t, rest, s);
      assert forall i :: i in inputs <==> i in rest || i == last;
    }
  }

  function SlotsOf(inputs: seq<Input>): set<Slot> { set i | i in inputs :: i.slot }

  lemma StatusSlots(t: Target, inputs: seq<Input>)
    ensures Gather(t, inputs).statuses.Keys == SlotsOf(inputs)
  {
    forall s ensures s in Gather(t, inputs).statuses <==> s in SlotsOf(inputs) {
      SlotMembers(t, inputs, s);
    }
  }

  lemma {:induction false} StatusOf(t: Target, inputs: seq<Input>, i: Input)
    requires Distinct(inputs) && i in inputs
    ensures i.slot in Gather(t, inputs).statuses && Gather(t, inputs).statuses[i.slot] == FinalStatus(t, i)
  {
    var n := |inputs| - 1;
    var rest, last := inputs[..n], inputs[n];
    if i != last {
      assert i in rest;
      var a :| 0 <= a < n && inputs[a] == i;
      assert inputs[a].slot != last.slot;
      StatusOf(t, rest, i);
    }
  }

  lemma RepeatedLast(inputs: seq<Input>, s: Slot)
    requires inputs != []
    ensures Repeated(inputs, s) <==>
              || Repeated(inputs[..|inputs| - 1], s)
              || (inputs[|inputs| - 1].slot == s && exists i :: i in inputs[..|inputs| - 1] && i.slot == s)
  {
    var n := |inputs| - 1;
    var rest := inputs[..n];
    if Repeated(rest, s) {
      var a, b :| 0 <= a < b < |rest| && rest[a].slot == s && rest[b].slot == s;
      assert inputs[a].slot == s && inputs[b].slot == s;
    }
    if inputs[n].slot == s && exists i :: i in rest && i.slot == s {
      var i :| i in rest && i.slot == s;
      var a :| 0 <= a < n && rest[a] == i;
      assert inputs[a].slot == s;
    }
    if Repeated(inputs, s) {
      var a, b :| 0 <= a < b < |inputs| && inputs[a].slot == s && inputs[b].slot == s;
      assert rest[a] in rest && rest[a].slot == s;
      if b < n {
        assert rest[b].slot == s;
      }
    }
  }

  predicate IsRepeat(x: Item) { x.AReason? && x.r.DuplicateSlot? }

  lemma AddMembers(t: Target, g: Gathered, i: Input, x: Item)
    ensures Has(Add(t, g, i).effects, x) <==>
              Has(g.effects, x) || Has(Own(t, i), x) || (i.slot in g.statuses && x == AReason(DuplicateSlot(i.slot)))
  {
  }

  /** The loop's collection is the sum of what each input contributes, plus repeated slots. */
  lemma {:induction false} GatherMembers(t: Target, inputs: seq<Input>, x: Item)
    ensures Has(Gather(t, inputs).effects, x) <==>
              || (exists i :: i in inputs && Has(Own(t, i), x))
              || (IsRepeat(x) && Repeated(inputs, x.r.slot))
  {
    if inputs != [] {
      var rest, last := inputs[..|inputs| - 1], inputs[|inputs| - 1];
      GatherMembers(t, rest, x);
      AddMembers(t, Gather(t, rest), last, x);
      assert forall i :: i in inputs <==> i in rest || i == last;
      SlotMembers(t, rest, last.slot);
      if IsRepeat(x) {
        RepeatedLast(inputs, x.r.slot);
      }
    }
  }

  // ---------- clean inputs ----------

  /** The claim names an inventory region and agrees with its source hash. */
  predicate CleanClaim(t: Target, c: Claim) {
    c.source.Some? && c.key in t.expected && HashOk(t, c)
  }

  /** An ingested artifact of the inventory's revision, in a format its regions accept, all
      of whose evidence names inventory regions of the recorded source. */
  predicate CleanInput(t: Target, i: Input) {
    && i.status.Ingested? && RevisionOk(t, i) && Allowed(t, i)
    && forall c :: c in i.claims ==> CleanClaim(t, c)
  }

  lemma OwnReasons(t: Target, i: Input)
    ensures Own(t, i).reasons == {} <==> CleanInput(t, i)
  {
    if Allowed(t, i) {
      assert Owned(t, i.slot);
      if exists c :: c in i.claims && !CleanClaim(t, c) {
        var c :| c in i.claims && !CleanClaim(t, c);
        var r :| r in ClaimEffects(t, i.slot, c).reasons;
        ClaimMembers(t, i.slot, i.claims, AReason(r));
        assert r in Own(t, i).reasons;
      }
      if exists r :: r in InputEffects(t, i).reasons {
        var r :| r in InputEffects(t, i).reasons;
        ClaimMembers(t, i.slot, i.claims, AReason(r));
      }
    } else {
      assert WrongFormat(i.format, i.slot) in Own(t, i).reasons;
    }
  }

  lemma GatherReasons(t: Target, inputs: seq<Input>)
    ensures Gather(t, inputs).effects.reasons == {} <==> (forall i :: i in inputs ==> CleanInput(t, i)) && Distinct(inputs)
  {
    var reasons := Gather(t, inputs).effects.reasons;
    if reasons == {} {
      forall i | i in inputs ensures CleanInput(t, i) {
        OwnReasons(t, i);
        if r :| r in Own(t, i).reasons {
          GatherMembers(t, inputs, AReason(r));
        }
      }
      forall a, b | 0 <= a < b < |inputs| ensures inputs[a].slot != inputs[b].slot {
        GatherMembers(t, inputs, AReason(DuplicateSlot(inputs[a].slot)));
      }
    } else {
      var r :| r in reasons;
      GatherMembers(t, inputs, AReason(r));
      if i :| i in inputs && Has(Own(t, i), AReason(r)) {
        OwnReasons(t, i);
      }
    }
  }

  /** A clean collection has no mismatches and only ingested descriptors. */
  lemma CleanGather(t: Target, inputs: seq<Input>)
    requires (forall i :: i in inputs ==> CleanInput(t, i)) && Distinct(inputs)
    ensures Gather(t, inputs).effects.mismatches == {}
    ensures forall s :: s in Gather(t, inputs).statuses ==> Gather(t, inputs).statuses[s].Ingested?
  {
    forall m | m in Gather(t, inputs).effects.mismatches ensures false {
      GatherMembers(t, inputs, AMismatch(m.0, m.1));
      var i :| i in inputs && Has(Own(t, i), AMismatch(m.0, m.1));
      ClaimMembers(t, i.slot, i.claims, AMismatch(m.0, m.1));
    }
    forall s | s in Gather(t, inputs).statuses ensures Gather(t, inputs).statuses[s].Ingested? {
      SlotMembers(t, inputs, s);
      var i :| i in inputs && i.slot == s;
      StatusOf(t, inputs, i);
    }
  }

  // ---------- clean entries ----------

  /** The entry's source is on disk as recorded, its language is supported, every declared
      variant has an artifact and every declared format is used. */
  predicate Served(c: Checkout, slots: set<Slot>, inputs: seq<Input>, e: Entry) {
    && Supported(e.language) && SourceOk(c, e)
    && (forall v :: v in Variants(e) ==> Slot(e.component, v) in slots)
    && (forall f :: f in e.formats ==> FormatUsed(inputs, e, f))
  }

  lemma EntryReasonsClean(c: Checkout, slots: set<Slot>, inputs: seq<Input>, e: Entry)
    ensures EntryReasons(c, slots, inputs, e) == {} <==> Served(c, slots, inputs, e)
  {
    var reasons := EntryReasons(c, slots, inputs, e);
    if reasons == {} {
      assert Supported(e.language) by { assert UnsupportedLanguage(e.source, e.language) !in reasons; }
      assert SourceOk(c, e) by { assert HashMismatch(e.source) !in reasons && SourceMissing(e.path) !in reasons; }
      forall v | v in Variants(e) ensures Slot(e.component, v) in slots {
        assert MissingVariant(Slot(e.component, v)) !in reasons;
      }
      assert ComponentPresent(slots, e.component) by {
        assert Variants(e)[0] in Variants(e);
        assert Slot(e.component, Variants(e)[0]) in slots;
      }
      forall f | f in e.formats ensures FormatUsed(inputs, e, f) {
        assert FormatUnused(f, e.source) !in reasons;
      }
    }
  }

  lemma {:induction false} AuditMembers(c: Checkout, slots: set<Slot>, inputs: seq<Input>, es: seq<Entry>)
    ensures AuditAll(c, slots, inputs, es).reasons == {} <==> forall e :: e in es ==> Served(c, slots, inputs, e)
    ensures forall s :: s in AuditAll(c, slots, inputs, es).badSources <==> exists e :: e in es && e.source == s && !SourceOk(c, e)
  {
    if es != [] {
      var rest, last := es[..|es| - 1], es[|es| - 1];
      AuditMembers(c, slots, inputs, rest);
      EntryReasonsClean(c, slots, inputs, last);
      assert forall e :: e in es <==> e in rest || e == last;
      var a, b := AuditAll(c, slots, inputs, rest), AuditOne(c, slots, inputs, last);
      assert a.reasons + b.reasons == {} <==> a.reasons == {} && b.reasons == {};
    }
  }

  // ---------- coverage ----------

  /** Input `i` carries accepted evidence that `key` was covered. */
  predicate Covers(t: Target, i: Input, key: string) {
    Allowed(t, i) && exists c :: c in i.claims && CleanClaim(t, c) && c.key == key && c.covered
  }

  /** Input `i` carries accepted evidence about `key`, covered or not. */
  predicate Mentions(t: Target, i: Input, key: string) {
    Allowed(t, i) && exists c :: c in i.claims && CleanClaim(t, c) && c.key == key
  }

  /** Some evidence of the input names `key` with another source hash. */
  predicate Contradicts(t: Target, i: Input, key: string) {
    Allowed(t, i) && exists c :: c in i.claims && c.source.Some? && c.key == key && key in t.expected && !HashOk(t, c)
  }

  lemma OwnSeen(t: Target, i: Input, s: Seen)
    ensures s in Own(t, i).seen <==>
              Allowed(t, i) && s.slot == i.slot
              && exists c :: c in i.claims && CleanClaim(t, c) && c.key == s.key && c.covered == s.covered && c.hits == s.hits
  {
    if Allowed(t, i) {
      ClaimMembers(t, i.slot, i.claims, ASeen(s));
      assert s in Own(t, i).seen <==> Has(AllClaims(t, i.slot, i.claims), ASeen(s));
    }
  }

  lemma SeenCovers(t: Target, inputs: seq<Input>, slot: Slot, key: string)
    ensures (exists s :: s in Gather(t, inputs).effects.seen && s.slot == slot && s.key == key && s.covered)
       <==> exists i :: i in inputs && i.slot == slot && Covers(t, i, key)
  {
    if s :| s in Gather(t, inputs).effects.seen && s.slot == slot && s.key == key && s.covered {
      GatherMembers(t, inputs, ASeen(s));
      var i :| i in inputs && Has(Own(t, i), ASeen(s));
      OwnSeen(t, i, s);
      assert Covers(t, i, key);
    }
    if i :| i in inputs && i.slot == slot && Covers(t, i, key) {
      var c :| c in i.claims && CleanClaim(t, c) && c.key == key && c.covered;
      var s := Seen(slot, key, true, c.hits);
      OwnSeen(t, i, s);
      assert Has(Own(t, i), ASeen(s));
      GatherMembers(t, inputs, ASeen(s));
    }
  }

  lemma SeenMentions(t: Target, inputs: seq<Input>, slot: Slot, key: string)
    ensures (exists s :: s in Gather(t, inputs).effects.seen && s.slot == slot && s.key == key)
       <==> exists i :: i in inputs && i.slot == slot && Mentions(t, i, key)
  {
    if s :| s in Gather(t, inputs).effects.seen && s.slot == slot && s.key == key {
      GatherMembers(t, inputs, ASeen(s));
      var i :| i in inputs && Has(Own(t, i), ASeen(s));
      OwnSeen(t, i, s);
      assert Mentions(t, i, key);
    }
    if i :| i in inputs && i.slot == slot && Mentions(t, i, key) {
      var c :| c in i.claims && CleanClaim(t, c) && c.key == key;
      var s := Seen(slot, key, c.covered, c.hits);
      OwnSeen(t, i, s);
      assert Has(Own(t, i), ASeen(s));
      GatherMembers(t, inputs, ASeen(s));
    }
  }

  lemma OwnMismatch(t: Target, i: Input, slot: Slot, key: string)
    ensures (slot, key) in Own(t, i).mismatches <==> i.slot == slot && Contradicts(t, i, key)
  {
    var x := AMismatch(slot, key);
    if Allowed(t, i) {
      ClaimMembers(t, i.slot, i.claims, x);
      assert (slot, key) in Own(t, i).mismatches <==> Has(AllClaims(t, i.slot, i.claims), x);
    }
  }

  lemma MismatchContradicts(t: Target, inputs: seq<Input>, slot: Slot, key: string)
    ensures (slot, key) in Gather(t, inputs).effects.mismatches
       <==> exists i :: i in inputs && i.slot == slot && Contradicts(t, i, key)
  {
    GatherMembers(t, inputs, AMismatch(slot, key));
    forall i | i in inputs ensures Has(Own(t, i), AMismatch(slot, key)) <==> i.slot == slot && Contradicts(t, i, key) {
      OwnMismatch(t, i, slot, key);
    }
  }

  /** Nothing in a dirty checkout is covered. */
  lemma DirtyCoversNothing(v: Evidenced, expected: map<string, Expected>)
    requires v.dirty
    ensures CoveredKeys(v, expected) == {}
  {
  }

  lemma StateCovered(v: Evidenced, x: Expected, key: string, variant: string)
    ensures var slot := Slot(x.entry.component, variant);
            StateOf(v, x, key, variant).Covered? <==>
              && !Mismatched(v, slot, x.entry.source, key) && !v.dirty
              && slot in v.statuses && v.statuses[slot].Ingested? && CoveredAt(v, slot, key)
  {
  }

  /** Every production entry of the source is on disk as recorded. */
  ghost predicate SourcesOk(inv: Inventory, c: Checkout, source: string) {
    forall e :: e in Production(inv.entries) && e.source == source ==> SourceOk(c, e)
  }

  lemma BadSources(inv: Inventory, inputs: seq<Input>, c: Checkout, source: string)
    ensures source in Judge(inv, inputs, c).evidenced.badSources <==> !SourcesOk(inv, c, source)
  {
    AuditMembers(c, Gather(TargetOf(inv), inputs).statuses.Keys, inputs, Production(inv.entries));
  }

  lemma RegionCoveredIff(t: Target, inputs: seq<Input>, v: Evidenced, x: Expected, key: string)
    requires Distinct(inputs) && v.statuses == Gather(t, inputs).statuses
    requires v.seen == Gather(t, inputs).effects.seen && v.mismatches == Gather(t, inputs).effects.mismatches
    ensures RegionCovered(v, x, key) <==>
              !v.dirty && x.entry.source !in v.badSources && exists i :: i in inputs && OwnedBy(x, i.slot) && Good(t, i, key)
  {
    if variant :| variant in Variants(x.entry) && StateOf(v, x, key, variant).Covered? {
      VariantCovered(t, inputs, v, x, key, variant);
    }
    if i :| i in inputs && OwnedBy(x, i.slot) && Good(t, i, key) {
      assert i.slot == Slot(x.entry.component, i.slot.variant);
      VariantCovered(t, inputs, v, x, key, i.slot.variant);
    }
  }

  /** With one artifact per slot, a region counts as covered exactly when the checkout is
      clean, its source is on disk as recorded, and some artifact of its own component and
      of a declared variant (ingested, of the inventory's revision, in an accepted format)
      carries hash-consistent evidence that covers it and none that contradicts its hash. */
  lemma CoveredIff(inv: Inventory, inputs: seq<Input>, c: Checkout, key: string)
    requires Distinct(inputs)
    ensures var t := TargetOf(inv);
            key in CoveredKeys(Judge(inv, inputs, c).evidenced, t.expected) <==>
              && key in t.expected && !c.dirty && SourcesOk(inv, c, t.expected[key].entry.source)
              && exists i :: i in inputs && OwnedBy(t.expected[key], i.slot) && Good(t, i, key)
  {
    var t := TargetOf(inv);
    if key in t.expected {
      RegionCoveredIff(t, inputs, Judge(inv, inputs, c).evidenced, t.expected[key], key);
      BadSources(inv, inputs, c, t.expected[key].entry.source);
    }
  }

  /** An ingested artifact of the inventory's revision with accepted evidence that covers the
      region and none that contradicts its hash. */
  predicate Good(t: Target, i: Input, key: string) {
    i.status.Ingested? && RevisionOk(t, i) && Covers(t, i, key) && !Contradicts(t, i, key)
  }

  lemma VariantCovered(t: Target, inputs: seq<Input>, v: Evidenced, x: Expected, key: string, variant: string)
    requires Distinct(inputs) && v.statuses == Gather(t, inputs).statuses
    requires v.seen == Gather(t, inputs).effects.seen && v.mismatches == Gather(t, inputs).effects.mismatches
    ensures StateOf(v, x, key, variant).Covered? <==>
              && !v.dirty && x.entry.source !in v.badSources
              && exists i :: i in inputs && i.slot == Slot(x.entry.component, variant) && Good(t, i, key)
  {
    var slot := Slot(x.entry.component, variant);
    StateCovered(v, x, key, variant);
    SlotMembers(t, inputs, slot);
    SeenCovers(t, inputs, slot, key);
    MismatchContradicts(t, inputs, slot, key);
    forall i | i in inputs && i.slot == slot ensures v.statuses[slot] == FinalStatus(t, i) {
      StatusOf(t, inputs, i);
    }
    if i :| i in inputs && i.slot == slot && Covers(t, i, key) {
      forall j | j in inputs && j.slot == slot ensures j == i {
        SlotUnique(inputs, i, j);
      }
    }
  }

  lemma SlotUnique(inputs: seq<Input>, i: Input, j: Input)
    requires Distinct(inputs) && i in inputs && j in inputs && i.slot == j.slot
    ensures i == j
  {
    var a :| 0 <= a < |inputs| && inputs[a] == i;
    var b :| 0 <= b < |inputs| && inputs[b] == j;
    assert inputs[a].slot == inputs[b].slot;
  }

  // ---------- completeness ----------

  /** A declared variant of the region's own component covers it. */
  ghost predicate CoveredBySomeone(t: Target, inputs: seq<Input>, key: string)
    requires key in t.expected
  {
    exists i :: i in inputs && OwnedBy(t.expected[key], i.slot) && Covers(t, i, key)
  }

  ghost predicate CleanAssembly(inv: Inventory, inputs: seq<Input>, c: Checkout) {
    && Production(inv.entries) != [] && c.revision == Some(inv.revision) && !c.dirty
    && (forall i :: i in inputs ==> CleanInput(TargetOf(inv), i)) && Distinct(inputs)
    && (forall e :: e in Production(inv.entries) ==> Served(c, SlotsOf(inputs), inputs, e))
  }

  /** `complete`, said without any loop: the checkout is clean and at the inventory revision;
      every artifact is clean and no slot has two; every production entry is served; and
      every region of the nonempty inventory is covered by evidence from a declared
      variant of its own component. */
  ghost predicate FullEvidence(inv: Inventory, inputs: seq<Input>, c: Checkout) {
    && CleanAssembly(inv, inputs, c)
    && TargetOf(inv).expected.Keys != {}
    && forall key :: key in TargetOf(inv).expected ==> CoveredBySomeone(TargetOf(inv), inputs, key)
  }

  lemma ReasonsEmpty(inv: Inventory, inputs: seq<Input>, c: Checkout)
    ensures Judge(inv, inputs, c).reasons == {} <==> CleanAssembly(inv, inputs, c)
  {
    var t, es := TargetOf(inv), Production(inv.entries);
    GatherReasons(t, inputs);
    AuditMembers(c, Gather(t, inputs).statuses.Keys, inputs, es);
    StatusSlots(t, inputs);
    var h, g, a := HeaderReasons(inv, c), Gather(t, inputs).effects.reasons,
                   AuditAll(c, Gather(t, inputs).statuses.Keys, inputs, es).reasons;
    assert h + g + a == {} <==> h == {} && g == {} && a == {};
  }

  lemma CleanNeverContradicts(t: Target, i: Input, key: string)
    requires CleanInput(t, i)
    ensures !Contradicts(t, i, key)
  {
  }

  lemma CleanCovered(inv: Inventory, inputs: seq<Input>, c: Checkout, key: string)
    requires CleanAssembly(inv, inputs, c) && key in TargetOf(inv).expected
    ensures key in CoveredKeys(Judge(inv, inputs, c).evidenced, TargetOf(inv).expected) <==> CoveredBySomeone(TargetOf(inv), inputs, key)
  {
    var t := TargetOf(inv);
    CoveredIff(inv, inputs, c, key);
    forall i | i in inputs ensures !Contradicts(t, i, key) {
      CleanNeverContradicts(t, i, key);
    }
    forall e | e in Production(inv.entries) ensures SourceOk(c, e) {
      assert Served(c, SlotsOf(inputs), inputs, e);
    }
  }

  lemma FullCount(v: Evidenced, expected: map<string, Expected>)
    ensures |expected| > 0 && |CoveredKeys(v, expected)| == |expected|
       <==> expected.Keys != {} && forall key :: key in expected ==> key in CoveredKeys(v, expected)
  {
    Inside(CoveredKeys(v, expected), expected.Keys);
    assert |expected| == |expected.Keys|;
  }

  /** A composite is complete exactly when the evidence is full. */
  lemma CompleteIff(inv: Inventory, inputs: seq<Input>, c: Checkout)
    ensures Complete(inv, inputs, c) <==> FullEvidence(inv, inputs, c)
  {
    CompleteParts(inv, inputs, c);
    ReasonsEmpty(inv, inputs, c);
    if CleanAssembly(inv, inputs, c) {
      AllCovered(inv, inputs, c);
    }
  }

  lemma CompleteParts(inv: Inventory, inputs: seq<Input>, c: Checkout)
    ensures Complete(inv, inputs, c)
       <==> && Judge(inv, inputs, c).reasons == {} && TargetOf(inv).expected.Keys != {}
            && forall key :: key in TargetOf(inv).expected ==> key in CoveredKeys(Judge(inv, inputs, c).evidenced, TargetOf(inv).expected)
  {
    FullCount(Judge(inv, inputs, c).evidenced, TargetOf(inv).expected);
  }

  lemma AllCovered(inv: Inventory, inputs: seq<Input>, c: Checkout)
    requires CleanAssembly(inv, inputs, c)
    ensures (forall key :: key in TargetOf(inv).expected ==> key in CoveredKeys(Judge(inv, inputs, c).evidenced, TargetOf(inv).expected))
       <==> (forall key :: key in TargetOf(inv).expected ==> CoveredBySomeone(TargetOf(inv), inputs, key))
  {
    forall key | key in TargetOf(inv).expected
      ensures key in CoveredKeys(Judge(inv, inputs, c).evidenced, TargetOf(inv).expected) <==> CoveredBySomeone(TargetOf(inv), inputs, key)
    {
      CleanCovered(inv, inputs, c, key);
    }
  }
}
