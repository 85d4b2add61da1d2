/** Order, growth and size: how the assembled evidence depends on its inputs. */
module CompositeOrder {
  import opened Composite
  import opened CompositeLaws
  import opened CompositeAssemble
  import opened CompositeBuild
  import opened Ordering

  // ---------- order ----------

  function SlotCount(inputs: seq<Input>, s: Slot): nat {
    if inputs == [] then 0
    else SlotCount(inputs[..|inputs| - 1], s) + if inputs[|inputs| - 1].slot == s then 1 else 0
  }

  lemma {:induction false} CountConcat(a: seq<Input>, b: seq<Input>, s: Slot)
    ensures SlotCount(a + b, s) == SlotCount(a, s) + SlotCount(b, s)
  {
    if b == [] {
      assert a + b == a;
    } else {
      assert (a + b)[..|a + b| - 1] == a + b[..|b| - 1] && (a + b)[|a + b| - 1] == b[|b| - 1];
      CountConcat(a, b[..|b| - 1], s);
    }
  }

  lemma {:induction false} CountPermutes(a: seq<Input>, b: seq<Input>, s: Slot)
    requires multiset(a) == multiset(b)
    ensures SlotCount(a, s) == SlotCount(b, s)
    decreases |a|
  {
    if a == [] {
      assert |multiset(b)| == 0;
    } else {
      var left, right := TakeOut(a, b);
      CountPermutes(a[..|a| - 1], left + right, s);
      CountConcat(left + [a[|a| - 1]], right, s);
      CountConcat(left, right, s);
    }
  }

  lemma {:induction false} CountMeaning(inputs: seq<Input>, s: Slot)
    ensures SlotCount(inputs, s) >= 1 <==> exists i :: i in inputs && i.slot == s
    ensures SlotCount(inputs, s) >= 2 <==> Repeated(inputs, s)
  {
    if inputs != [] {
      var rest, last := inputs[..|inputs| - 1], inputs[|inputs| - 1];
      CountMeaning(rest, s);
      RepeatedLast(inputs, s);
      assert forall i :: i in inputs <==> i in rest || i == last;
    }
  }

  lemma SameEffects(t: Target, a: seq<Input>, b: seq<Input>)
    requires forall i :: i in a <==> i in b
    requires forall s :: Repeated(a, s) <==> Repeated(b, s)
    ensures Gather(t, a).effects == Gather(t, b).effects
  {
    forall x: Item ensures Has(Gather(t, a).effects, x) <==> Has(Gather(t, b).effects, x) {
      GatherMembers(t, a, x);
      GatherMembers(t, b, x);
    }
    SameItems(Gather(t, a).effects, Gather(t, b).effects);
  }

  lemma SameItems(e: Effects, f: Effects)
    requires forall x: Item :: Has(e, x) <==> Has(f, x)
    ensures e == f
  {
    assert forall r :: r in e.reasons <==> Has(e, AReason(r));
    assert forall r :: r in f.reasons <==> Has(f, AReason(r));
    assert forall m :: m in e.mismatches <==> Has(e, AMismatch(m.0, m.1));
    assert forall m :: m in f.mismatches <==> Has(f, AMismatch(m.0, m.1));
    assert forall s :: s in e.seen <==> Has(e, ASeen(s));
    assert forall s :: s in f.seen <==> Has(f, ASeen(s));
    assert e.reasons == f.reasons && e.mismatches == f.mismatches && e.seen == f.seen;
  }

  lemma {:induction false} SameAudit(c: Checkout, slots: set<Slot>, a: seq<Input>, b: seq<Input>, es: seq<Entry>)
    requires forall i :: i in a <==> i in b
    ensures AuditAll(c, slots, a, es) == AuditAll(c, slots, b, es)
  {
    if es != [] {
      SameAudit(c, slots, a, b, es[..|es| - 1]);
      var e := es[|es| - 1];
      assert forall f :: FormatUsed(a, e, f) <==> FormatUsed(b, e, f);
      assert EntryReasons(c, slots, a, e) == EntryReasons(c, slots, b, e);
    }
  }

  // ---------- the state of a variant, read off the inputs ----------

  /** The priority chain of one variant, over what it asks. */
  function Chain(mismatched: bool, status: Status, dirty: bool, covered: bool, mentioned: bool): RegionState {
    if mismatched then SourceMismatch
    else if status.Missing? then MissingArtifact
    else if status.SkippedStale? || (status.Ingested? && dirty) then Stale
    else if !status.Ingested? then Unmeasured
    else if covered then Covered
    else if mentioned then Uncovered
    else Unmeasured
  }

  function StatusIn(statuses: map<Slot, Status>, slot: Slot): Status {
    if slot in statuses then statuses[slot] else Missing
  }

  lemma StateChain(v: Evidenced, x: Expected, key: string, variant: string)
    ensures var slot := Slot(x.entry.component, variant);
            StateOf(v, x, key, variant) == Chain(Mismatched(v, slot, x.entry.source, key), StatusIn(v.statuses, slot), v.dirty,
                                                 CoveredAt(v, slot, key), SeenAt(v, slot, key))
  {
  }

  /** The state of a variant if its slot had the given status. Evidence counts in whatever
      order it came; only the status of a slot is a matter of order. */
  ghost function StateGiven(inv: Inventory, inputs: seq<Input>, c: Checkout, key: string, variant: string, status: Status): RegionState
    requires key in TargetOf(inv).expected
  {
    var t, x := TargetOf(inv), TargetOf(inv).expected[key];
    var slot := Slot(x.entry.component, variant);
    Chain(!SourcesOk(inv, c, x.entry.source) || Contradicted(t, inputs, slot, key), status, c.dirty,
          SomeoneCovers(t, inputs, slot, key), SomeoneMentions(t, inputs, slot, key))
  }

  ghost predicate Contradicted(t: Target, inputs: seq<Input>, slot: Slot, key: string) {
    exists i :: i in inputs && i.slot == slot && Contradicts(t, i, key)
  }

  ghost predicate SomeoneCovers(t: Target, inputs: seq<Input>, slot: Slot, key: string) {
    exists i :: i in inputs && i.slot == slot && Covers(t, i, key)
  }

  ghost predicate SomeoneMentions(t: Target, inputs: seq<Input>, slot: Slot, key: string) {
    exists i :: i in inputs && i.slot == slot && Mentions(t, i, key)
  }

  lemma SameEvidence(t: Target, a: seq<Input>, b: seq<Input>, slot: Slot, key: string)
    requires forall i :: i in a <==> i in b
    ensures Contradicted(t, a, slot, key) == Contradicted(t, b, slot, key)
    ensures SomeoneCovers(t, a, slot, key) == SomeoneCovers(t, b, slot, key)
    ensures SomeoneMentions(t, a, slot, key) == SomeoneMentions(t, b, slot, key)
  {
  }

  lemma StateMeaning(inv: Inventory, inputs: seq<Input>, c: Checkout, key: string, variant: string)
    requires key in TargetOf(inv).expected
    ensures StateOf(Judge(inv, inputs, c).evidenced, TargetOf(inv).expected[key], key, variant)
         == StateGiven(inv, inputs, c, key, variant,
              StatusIn(Gather(TargetOf(inv), inputs).statuses, Slot(TargetOf(inv).expected[key].entry.component, variant)))
  {
    var t, v := TargetOf(inv), Judge(inv, inputs, c).evidenced;
    var x := t.expected[key];
    var slot := Slot(x.entry.component, variant);
    StateChain(v, x, key, variant);
    BadSources(inv, inputs, c, x.entry.source);
    MismatchContradicts(t, inputs, slot, key);
    SeenCovers(t, inputs, slot, key);
    SeenMentions(t, inputs, slot, key);
  }

  lemma SameGiven(inv: Inventory, a: seq<Input>, b: seq<Input>, c: Checkout, key: string, variant: string, status: Status)
    requires key in TargetOf(inv).expected && forall i :: i in a <==> i in b
    ensures StateGiven(inv, a, c, key, variant, status) == StateGiven(inv, b, c, key, variant, status)
  {
    SameEvidence(TargetOf(inv), a, b, Slot(TargetOf(inv).expected[key].entry.component, variant), key);
  }

  lemma {:induction false} StatusFrom(t: Target, inputs: seq<Input>, slot: Slot) returns (i: Input)
    requires slot in Gather(t, inputs).statuses
    ensures i in inputs && i.slot == slot && Gather(t, inputs).statuses[slot] == FinalStatus(t, i)
  {
    var rest, last := inputs[..|inputs| - 1], inputs[|inputs| - 1];
    if last.slot == slot {
      i := last;
    } else {
      i := StatusFrom(t, rest, slot);
    }
  }

  // ---------- when the order does not matter ----------

  /** What the assembly returns. */
  ghost function Built(inv: Inventory, inputs: seq<Input>, c: Checkout): Build {
    BuildOf(Judge(inv, inputs, c), TargetOf(inv).expected)
  }

  /** Whichever artifact of a slot decides its status, every region of the slot is in one state. */
  ghost predicate Settled(inv: Inventory, inputs: seq<Input>, c: Checkout) {
    forall key, variant, i, j ::
      key in TargetOf(inv).expected && variant in Variants(TargetOf(inv).expected[key].entry) && i in inputs && j in inputs
      && i.slot == Slot(TargetOf(inv).expected[key].entry.component, variant) && j.slot == i.slot
      ==> (StateGiven(inv, inputs, c, key, variant, FinalStatus(TargetOf(inv), i))
           == StateGiven(inv, inputs, c, key, variant, FinalStatus(TargetOf(inv), j)))
  }

  lemma SettledState(inv: Inventory, a: seq<Input>, b: seq<Input>, c: Checkout, key: string, variant: string)
    requires Settled(inv, a, c) && forall i :: i in a <==> i in b
    requires key in TargetOf(inv).expected && variant in Variants(TargetOf(inv).expected[key].entry)
    ensures var x := TargetOf(inv).expected[key];
            StateOf(Judge(inv, a, c).evidenced, x, key, variant) == StateOf(Judge(inv, b, c).evidenced, x, key, variant)
  {
    var t := TargetOf(inv);
    var slot := Slot(t.expected[key].entry.component, variant);
    StateMeaning(inv, a, c, key, variant);
    StateMeaning(inv, b, c, key, variant);
    SlotMembers(t, a, slot);
    SlotMembers(t, b, slot);
    SameGiven(inv, a, b, c, key, variant, StatusIn(Gather(t, b).statuses, slot));
    if slot in Gather(t, a).statuses {
      var i := StatusFrom(t, a, slot);
      var j := StatusFrom(t, b, slot);
    }
  }

  lemma SameReasons(inv: Inventory, a: seq<Input>, b: seq<Input>, c: Checkout)
    requires multiset(a) == multiset(b)
    ensures forall i :: i in a <==> i in b
    ensures Judge(inv, a, c).reasons == Judge(inv, b, c).reasons
    ensures Judge(inv, a, c).evidenced.seen == Judge(inv, b, c).evidenced.seen
  {
    assert forall i :: i in a <==> i in multiset(a);
    assert forall i :: i in b <==> i in multiset(b);
    forall s ensures Repeated(a, s) <==> Repeated(b, s) {
      CountPermutes(a, b, s);
      CountMeaning(a, s);
      CountMeaning(b, s);
    }
    SameEffects(TargetOf(inv), a, b);
    StatusSlots(TargetOf(inv), a);
    StatusSlots(TargetOf(inv), b);
    assert SlotsOf(a) == SlotsOf(b);
    SameAudit(c, SlotsOf(a), a, b, Production(inv.entries));
  }

  lemma SettledBuild(inv: Inventory, a: seq<Input>, b: seq<Input>, c: Checkout)
    requires Settled(inv, a, c) && multiset(a) == multiset(b)
    ensures Built(inv, a, c) == Built(inv, b, c)
  {
    SameReasons(inv, a, b, c);
    var v, w, expected := Judge(inv, a, c).evidenced, Judge(inv, b, c).evidenced, TargetOf(inv).expected;
    forall key | key in expected ensures SameStates(v, w, expected[key], key) {
      forall variant | variant in Variants(expected[key].entry)
        ensures StateOf(v, expected[key], key, variant) == StateOf(w, expected[key], key, variant)
      {
        SettledState(inv, a, b, c, key, variant);
      }
    }
    SameBuild(Judge(inv, a, c).reasons, v, w, expected);
  }

  lemma ToEnd(inputs: seq<Input>, i: Input) returns (other: seq<Input>)
    requires i in inputs
    ensures multiset(other) == multiset(inputs) && other != [] && other[|other| - 1] == i
  {
    var n :| 0 <= n < |inputs| && inputs[n] == i;
    other := inputs[..n] + inputs[n + 1..] + [i];
    assert inputs == inputs[..n] + [i] + inputs[n + 1..];
  }

  /** With artifact i last, the variant is in the state that i's status gives it. */
  lemma LastDecides(inv: Inventory, inputs: seq<Input>, other: seq<Input>, c: Checkout, key: string, variant: string)
    requires multiset(other) == multiset(inputs) && other != [] && key in TargetOf(inv).expected
    requires other[|other| - 1].slot == Slot(TargetOf(inv).expected[key].entry.component, variant)
    ensures StateOf(Judge(inv, other, c).evidenced, TargetOf(inv).expected[key], key, variant)
         == StateGiven(inv, inputs, c, key, variant, FinalStatus(TargetOf(inv), other[|other| - 1]))
  {
    SameReasons(inv, inputs, other, c);
    StateMeaning(inv, other, c, key, variant);
    SameGiven(inv, inputs, other, c, key, variant, FinalStatus(TargetOf(inv), other[|other| - 1]));
  }

  lemma Unsettled(inv: Inventory, inputs: seq<Input>, c: Checkout, key: string, variant: string, i: Input, j: Input)
    requires key in TargetOf(inv).expected && variant in Variants(TargetOf(inv).expected[key].entry) && i in inputs && j in inputs
    requires i.slot == Slot(TargetOf(inv).expected[key].entry.component, variant) && j.slot == i.slot
    requires StateGiven(inv, inputs, c, key, variant, FinalStatus(TargetOf(inv), i))
          != StateGiven(inv, inputs, c, key, variant, FinalStatus(TargetOf(inv), j))
    ensures exists other :: multiset(other) == multiset(inputs) && Built(inv, other, c).rows != Built(inv, inputs, c).rows
  {
    var a := ToEnd(inputs, i);
    var b := ToEnd(inputs, j);
    LastDecides(inv, inputs, a, c, key, variant);
    LastDecides(inv, inputs, b, c, key, variant);
    OtherBuild(Judge(inv, a, c), Judge(inv, b, c), TargetOf(inv).expected, key, variant);
    assert Built(inv, a, c).rows != Built(inv, inputs, c).rows || Built(inv, b, c).rows != Built(inv, inputs, c).rows;
  }

  /** Every order of the inputs gives one build if and only if, for every region and declared
      variant, all artifacts of the variant's slot would leave the region in one state. */
  lemma OrderFreeIff(inv: Inventory, inputs: seq<Input>, c: Checkout)
    ensures (forall other :: multiset(other) == multiset(inputs) ==> Built(inv, other, c) == Built(inv, inputs, c))
       <==> Settled(inv, inputs, c)
  {
    if Settled(inv, inputs, c) {
      forall other | multiset(other) == multiset(inputs) ensures Built(inv, other, c) == Built(inv, inputs, c) {
        SettledBuild(inv, inputs, other, c);
      }
    } else {
      var key, variant, i, j :| key in TargetOf(inv).expected && variant in Variants(TargetOf(inv).expected[key].entry)
        && i in inputs && j in inputs && i.slot == Slot(TargetOf(inv).expected[key].entry.component, variant) && j.slot == i.slot
        && StateGiven(inv, inputs, c, key, variant, FinalStatus(TargetOf(inv), i))
        != StateGiven(inv, inputs, c, key, variant, FinalStatus(TargetOf(inv), j));
      Unsettled(inv, inputs, c, key, variant, i, j);
    }
  }

  /** Without repeated descriptors the build does not depend on the order of the inputs. */
  lemma OrderFree(inv: Inventory, a: seq<Input>, b: seq<Input>, c: Checkout)
    requires Distinct(a) && multiset(a) == multiset(b)
    ensures Built(inv, a, c) == Built(inv, b, c)
    ensures Complete(inv, a, c) <==> Complete(inv, b, c)
  {
    forall i, j | i in a && j in a && i.slot == j.slot ensures i == j {
      SlotUnique(a, i, j);
    }
    SettledBuild(inv, a, b, c);
    assert Complete(inv, a, c) == Built(inv, a, c).complete && Complete(inv, b, c) == Built(inv, b, c).complete;
  }

  // ---------- a repeated descriptor ----------

  lemma StatusOne(t: Target, a: Input)
    ensures Gather(t, [a]).statuses == map[a.slot := FinalStatus(t, a)]
  {
    assert [a][..0] == [];
  }

  lemma StatusPair(t: Target, a: Input, b: Input)
    requires a.slot == b.slot
    ensures Gather(t, [a] + [b]).statuses == map[b.slot := FinalStatus(t, b)]
  {
    StatusOne(t, a);
    assert ([a] + [b])[..1] == [a];
  }

  /** An artifact of another revision covers the region, a clean one of the same slot does not
      contradict it. */
  ghost predicate StaleAndClean(inv: Inventory, c: Checkout, stale: Input, clean: Input, key: string) {
    var t := TargetOf(inv);
    && key in t.expected && OwnedBy(t.expected[key], clean.slot) && stale.slot == clean.slot
    && !RevisionOk(t, stale) && CleanInput(t, clean) && Covers(t, stale, key) && !Contradicts(t, stale, key)
    && !c.dirty && SourcesOk(inv, c, t.expected[key].entry.source)
  }

  lemma GivenCovered(inv: Inventory, inputs: seq<Input>, c: Checkout, key: string, variant: string, i: Input)
    requires key in TargetOf(inv).expected && !c.dirty && SourcesOk(inv, c, TargetOf(inv).expected[key].entry.source)
    requires i in inputs && i.slot == Slot(TargetOf(inv).expected[key].entry.component, variant) && Covers(TargetOf(inv), i, key)
    requires forall j :: j in inputs ==> !Contradicts(TargetOf(inv), j, key)
    ensures StateGiven(inv, inputs, c, key, variant, Ingested) == Covered
  {
  }

  lemma PairGiven(inv: Inventory, c: Checkout, stale: Input, clean: Input, key: string)
    requires StaleAndClean(inv, c, stale, clean, key)
    ensures StateGiven(inv, [stale] + [clean], c, key, clean.slot.variant, Ingested) == Covered
  {
    CleanNeverContradicts(TargetOf(inv), clean, key);
    GivenCovered(inv, [stale] + [clean], c, key, clean.slot.variant, stale);
  }

  lemma StaleThenClean(inv: Inventory, c: Checkout, stale: Input, clean: Input, key: string)
    requires StaleAndClean(inv, c, stale, clean, key)
    ensures key in CoveredKeys(Judge(inv, [stale] + [clean], c).evidenced, TargetOf(inv).expected)
  {
    PairGiven(inv, c, stale, clean, key);
    StatusPair(TargetOf(inv), stale, clean);
    StateMeaning(inv, [stale] + [clean], c, key, clean.slot.variant);
  }

  lemma NoneIngested(v: Evidenced, expected: map<string, Expected>)
    requires forall s :: s in v.statuses ==> !v.statuses[s].Ingested?
    ensures CoveredKeys(v, expected) == {}
  {
  }

  lemma CleanThenStale(inv: Inventory, c: Checkout, stale: Input, clean: Input)
    requires stale.slot == clean.slot && !RevisionOk(TargetOf(inv), stale)
    ensures CoveredKeys(Judge(inv, [clean] + [stale], c).evidenced, TargetOf(inv).expected) == {}
  {
    StatusPair(TargetOf(inv), clean, stale);
    assert !FinalStatus(TargetOf(inv), stale).Ingested?;
    NoneIngested(Judge(inv, [clean] + [stale], c).evidenced, TargetOf(inv).expected);
  }

  /** With a repeated descriptor the order matters: the last status wins, so the evidence of
      an artifact of another revision counts as covered when a clean artifact of the same
      slot follows it, and nothing counts when the clean one precedes it. */
  lemma RepeatedOrderMatters(inv: Inventory, c: Checkout, stale: Input, clean: Input, key: string)
    requires StaleAndClean(inv, c, stale, clean, key)
    ensures Built(inv, [stale] + [clean], c).covered >= 1 && Built(inv, [clean] + [stale], c).covered == 0
  {
    StaleThenClean(inv, c, stale, clean, key);
    CleanThenStale(inv, c, stale, clean);
    assert CoveredKeys(Judge(inv, [stale] + [clean], c).evidenced, TargetOf(inv).expected) != {};
  }

  // ---------- growth ----------

  /** The same artifact with more evidence regions, none of which contradicts a source hash. */
  ghost predicate MoreEvidence(t: Target, a: Input, b: Input) {
    && b == a.(claims := b.claims)
    && (forall x :: x in a.claims ==> x in b.claims)
    && (forall x :: x in b.claims && x !in a.claims && x.source.Some? && x.key in t.expected ==> HashOk(t, x))
  }

  ghost predicate Alike(t: Target, i: Input, j: Input) {
    i.slot == j.slot && FinalStatus(t, i) == FinalStatus(t, j)
  }

  lemma {:induction false} AlikeStatuses(t: Target, a: seq<Input>, b: seq<Input>)
    requires |a| == |b| && forall k :: 0 <= k < |a| ==> Alike(t, a[k], b[k])
    ensures Gather(t, a).statuses == Gather(t, b).statuses
  {
    if a != [] {
      AlikeStatuses(t, a[..|a| - 1], b[..|b| - 1]);
      assert Alike(t, a[|a| - 1], b[|b| - 1]);
    }
  }

  lemma GrowStatuses(t: Target, inputs: seq<Input>, n: nat, b: Input)
    requires n < |inputs| && MoreEvidence(t, inputs[n], b)
    ensures Gather(t, inputs[n := b]).statuses == Gather(t, inputs).statuses
  {
    SameFinal(t, inputs[n], b);
    AlikeStatuses(t, inputs[n := b], inputs);
  }

  lemma SameFinal(t: Target, a: Input, b: Input)
    requires b == a.(claims := b.claims)
    ensures FinalStatus(t, a) == FinalStatus(t, b)
  {
    assert Allowed(t, a) == Allowed(t, b);
  }

  lemma GrowMember(inputs: seq<Input>, n: nat, b: Input, i: Input)
    requires n < |inputs| && i in inputs
    ensures i in inputs[n := b] || i == inputs[n]
    ensures b in inputs[n := b]
  {
    assert inputs[n := b][n] == b;
    var k :| 0 <= k < |inputs| && inputs[k] == i;
    assert k != n ==> inputs[n := b][k] == i;
  }

  lemma GrowCovers(t: Target, inputs: seq<Input>, n: nat, b: Input, slot: Slot, key: string)
    requires n < |inputs| && MoreEvidence(t, inputs[n], b)
    requires exists i :: i in inputs && i.slot == slot && Covers(t, i, key)
    ensures exists i :: i in inputs[n := b] && i.slot == slot && Covers(t, i, key)
  {
    var i :| i in inputs && i.slot == slot && Covers(t, i, key);
    GrowMember(inputs, n, b, i);
    if i == inputs[n] {
      assert Allowed(t, b) == Allowed(t, i);
      assert Covers(t, b, key);
    }
  }

  lemma GrowContradicts(t: Target, inputs: seq<Input>, n: nat, b: Input, slot: Slot, key: string)
    requires n < |inputs| && MoreEvidence(t, inputs[n], b)
    requires exists i :: i in inputs[n := b] && i.slot == slot && Contradicts(t, i, key)
    ensures exists i :: i in inputs && i.slot == slot && Contradicts(t, i, key)
  {
    var i :| i in inputs[n := b] && i.slot == slot && Contradicts(t, i, key);
    if i == b {
      assert Allowed(t, b) == Allowed(t, inputs[n]);
      assert inputs[n] in inputs && Contradicts(t, inputs[n], key);
    } else {
      var k :| 0 <= k < |inputs| && inputs[n := b][k] == i;
      assert inputs[k] == i;
    }
  }

  /** Adding hash-consistent observations to an artifact never uncovers a region, repeated
      descriptors or not. */
  lemma MoreEvidenceNeverUncovers(inv: Inventory, inputs: seq<Input>, c: Checkout, n: nat, b: Input)
    requires n < |inputs| && MoreEvidence(TargetOf(inv), inputs[n], b)
    ensures CoveredKeys(Judge(inv, inputs, c).evidenced, TargetOf(inv).expected)
         <= CoveredKeys(Judge(inv, inputs[n := b], c).evidenced, TargetOf(inv).expected)
  {
    var t, grown := TargetOf(inv), inputs[n := b];
    var v, w := Judge(inv, inputs, c).evidenced, Judge(inv, grown, c).evidenced;
    GrowStatuses(t, inputs, n, b);
    AuditMembers(c, v.statuses.Keys, inputs, Production(inv.entries));
    AuditMembers(c, v.statuses.Keys, grown, Production(inv.entries));
    assert v.badSources == w.badSources;
    forall key | key in CoveredKeys(v, t.expected) ensures key in CoveredKeys(w, t.expected) {
      var x := t.expected[key];
      var variant :| variant in Variants(x.entry) && StateOf(v, x, key, variant).Covered?;
      GrowState(t, inputs, n, b, v, w, x, key, variant);
    }
  }

  lemma GrowState(t: Target, inputs: seq<Input>, n: nat, b: Input, v: Evidenced, w: Evidenced,
                  x: Expected, key: string, variant: string)
    requires n < |inputs| && MoreEvidence(t, inputs[n], b)
    requires var g := Gather(t, inputs); v.seen == g.effects.seen && v.mismatches == g.effects.mismatches
    requires var g := Gather(t, inputs[n := b]); w.seen == g.effects.seen && w.mismatches == g.effects.mismatches
    requires v.statuses == w.statuses && v.badSources == w.badSources && v.dirty == w.dirty
    requires StateOf(v, x, key, variant).Covered?
    ensures StateOf(w, x, key, variant).Covered?
  {
    var slot := Slot(x.entry.component, variant);
    StateCovered(v, x, key, variant);
    StateCovered(w, x, key, variant);
    SeenCovers(t, inputs, slot, key);
    SeenCovers(t, inputs[n := b], slot, key);
    GrowCovers(t, inputs, n, b, slot, key);
    MismatchContradicts(t, inputs, slot, key);
    MismatchContradicts(t, inputs[n := b], slot, key);
    if (slot, key) in w.mismatches {
      GrowContradicts(t, inputs, n, b, slot, key);
    }
  }
}
