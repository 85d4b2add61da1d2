/** Coverage and completeness, said of the artifacts and their evidence as they arrive. */
module CompositeArtifacts {
  import opened Text
  import opened Composite
  import opened Counting
  import opened CompositeAssemble
  import opened CompositeLaws
  import opened CompositeSize

  // ---------- which source a piece of evidence is about ----------

  /** The last alias of the path names the source. */
  predicate LastAlias(aliases: seq<Alias>, path: string, source: string) {
    exists n :: 0 <= n < |aliases| && aliases[n].source == source && IsLast(aliases, n, path)
  }

  predicate IsLast(aliases: seq<Alias>, n: nat, path: string)
    requires n < |aliases|
  {
    aliases[n].path == path && forall m :: n < m < |aliases| ==> aliases[m].path != path
  }

  /** Evidence names its source itself, or leaves it to the aliases of its artifact. */
  predicate SpeaksOf(a: Artifact, e: Evidence, source: string) {
    e.source == Some(source) || (e.source.None? && LastAlias(a.aliases, e.path, source))
  }

  /** Evidence about the region of this key. */
  ghost predicate Concerns(a: Artifact, e: Evidence, key: string) {
    exists source :: SpeaksOf(a, e, source) && key == KeyOf(source, e.region)
  }

  lemma {:induction false} AliasMeaning(aliases: seq<Alias>, path: string, source: string)
    ensures AliasOf(aliases, path) == Some(source) <==> LastAlias(aliases, path, source)
  {
    if aliases != [] {
      var n := |aliases| - 1;
      AliasMeaning(aliases[..n], path, source);
      if aliases[n].path == path {
        assert aliases[n].source == source ==> IsLast(aliases, n, path);
      } else {
        if m :| 0 <= m < n && aliases[..n][m].source == source && IsLast(aliases[..n], m, path) {
          assert IsLast(aliases, m, path);
        }
        if m :| 0 <= m < |aliases| && aliases[m].source == source && IsLast(aliases, m, path) {
          assert IsLast(aliases[..n], m, path);
        }
      }
    }
  }

  /** What becomes of one piece of evidence: its source, the key of its region in that source,
      and its coverage, hits and hash unchanged. */
  lemma ClaimMeaning(a: Artifact, e: Evidence, source: string)
    ensures var c := Resolve(a.aliases, e);
            && (c.source == Some(source) <==> SpeaksOf(a, e, source))
            && (SpeaksOf(a, e, source) ==> c.key == KeyOf(source, e.region))
            && c.covered == e.covered && c.hits == e.hits && c.hash == e.hash
  {
    AliasMeaning(a.aliases, e.path, source);
  }

  // ---------- one artifact ----------

  ghost predicate Accepts(t: Target, a: Artifact) {
    exists key :: key in t.expected && OwnedBy(t.expected[key], a.slot) && a.format in t.expected[key].entry.formats
  }

  predicate OfRevision(t: Target, a: Artifact) { a.revision.Some? ==> a.revision.value == t.revision }

  /** The evidence carries no other hash than the inventory's. */
  predicate SameHash(t: Target, e: Evidence, key: string)
    requires key in t.expected
  {
    e.hash.Some? ==> e.hash.value == t.expected[key].entry.hash
  }

  ghost predicate Shows(t: Target, a: Artifact, e: Evidence, key: string) {
    e in a.regions && Concerns(a, e, key) && key in t.expected && SameHash(t, e, key)
  }

  ghost predicate CoversRegion(t: Target, a: Artifact, key: string) {
    Accepts(t, a) && exists e :: Shows(t, a, e, key) && e.covered
  }

  ghost predicate ContradictsRegion(t: Target, a: Artifact, key: string) {
    Accepts(t, a) && exists e :: e in a.regions && Concerns(a, e, key) && key in t.expected && !SameHash(t, e, key)
  }

  /** All evidence is about expected regions of the recorded sources. */
  ghost predicate CleanArtifact(t: Target, a: Artifact) {
    && a.status.Ingested? && OfRevision(t, a) && Accepts(t, a)
    && forall e :: e in a.regions ==> exists key :: Shows(t, a, e, key)
  }

  lemma InputClaims(a: Artifact, c: Claim)
    ensures c in InputOf(a).claims <==> exists e :: e in a.regions && c == Resolve(a.aliases, e)
  {
    var cs := InputOf(a).claims;
    if e :| e in a.regions && c == Resolve(a.aliases, e) {
      var n :| 0 <= n < |a.regions| && a.regions[n] == e;
      assert cs[n] == c;
    }
  }

  lemma InputFields(a: Artifact)
    ensures var i := InputOf(a);
            i.slot == a.slot && i.language == a.language && i.format == a.format && i.revision == a.revision && i.status == a.status
  {
  }

  /** A clean claim of a key is evidence that shows the key. */
  lemma CleanEvidence(t: Target, a: Artifact, e: Evidence, key: string)
    requires e in a.regions
    ensures var c := Resolve(a.aliases, e);
            && (CleanClaim(t, c) && c.key == key <==> Shows(t, a, e, key))
            && (c.source.Some? && c.key == key <==> Concerns(a, e, key))
  {
    var c := Resolve(a.aliases, e);
    if c.source.Some? {
      ClaimMeaning(a, e, c.source.value);
    }
    if source :| SpeaksOf(a, e, source) && key == KeyOf(source, e.region) {
      ClaimMeaning(a, e, source);
    }
  }

  lemma CoversMeaning(t: Target, a: Artifact, key: string)
    ensures Covers(t, InputOf(a), key) <==> CoversRegion(t, a, key)
  {
    var i := InputOf(a);
    if c :| c in i.claims && CleanClaim(t, c) && c.key == key && c.covered {
      InputClaims(a, c);
      var e :| e in a.regions && c == Resolve(a.aliases, e);
      CleanEvidence(t, a, e, key);
    }
    if e :| Shows(t, a, e, key) && e.covered {
      CleanEvidence(t, a, e, key);
      InputClaims(a, Resolve(a.aliases, e));
    }
  }

  lemma ContradictsMeaning(t: Target, a: Artifact, key: string)
    ensures Contradicts(t, InputOf(a), key) <==> ContradictsRegion(t, a, key)
  {
    var i := InputOf(a);
    if c :| c in i.claims && c.source.Some? && c.key == key && key in t.expected && !HashOk(t, c) {
      InputClaims(a, c);
      var e :| e in a.regions && c == Resolve(a.aliases, e);
      CleanEvidence(t, a, e, key);
    }
    if e :| e in a.regions && Concerns(a, e, key) && key in t.expected && !SameHash(t, e, key) {
      CleanEvidence(t, a, e, key);
      InputClaims(a, Resolve(a.aliases, e));
    }
  }

  lemma CleanMeaning(t: Target, a: Artifact)
    ensures CleanInput(t, InputOf(a)) <==> CleanArtifact(t, a)
  {
    forall e | e in a.regions ensures CleanClaim(t, Resolve(a.aliases, e)) <==> exists key :: Shows(t, a, e, key) {
      CleanEvidence(t, a, e, Resolve(a.aliases, e).key);
      if key :| Shows(t, a, e, key) {
        CleanEvidence(t, a, e, key);
      }
    }
    forall c | c in InputOf(a).claims ensures exists e :: e in a.regions && c == Resolve(a.aliases, e) {
      InputClaims(a, c);
    }
    forall e | e in a.regions ensures Resolve(a.aliases, e) in InputOf(a).claims {
      InputClaims(a, Resolve(a.aliases, e));
    }
  }

  // ---------- which artifacts take part ----------

  lemma {:induction false} InputMembers(artifacts: seq<Artifact>, i: Input)
    ensures i in Inputs(artifacts) <==> exists a :: a in artifacts && a.coverage && i == InputOf(a)
  {
    if artifacts != [] {
      InputMembers(artifacts[1..], i);
      assert artifacts == [artifacts[0]] + artifacts[1..];
    }
  }

  /** No two coverage artifacts of one component and variant. */
  predicate OnePerSlot(artifacts: seq<Artifact>) {
    forall m, n :: 0 <= m < n < |artifacts| && artifacts[m].coverage && artifacts[n].coverage ==> artifacts[m].slot != artifacts[n].slot
  }

  lemma DistinctCons(i: Input, rest: seq<Input>)
    ensures Distinct([i] + rest) <==> Distinct(rest) && forall j :: j in rest ==> j.slot != i.slot
  {
    var all := [i] + rest;
    assert forall n :: 0 < n < |all| ==> all[n] == rest[n - 1];
    if Distinct(all) {
      forall m, n | 0 <= m < n < |rest| ensures rest[m].slot != rest[n].slot {
        assert all[m + 1].slot != all[n + 1].slot;
      }
      forall j | j in rest ensures j.slot != i.slot {
        var n :| 0 <= n < |rest| && rest[n] == j;
        assert all[0].slot != all[n + 1].slot;
      }
    }
  }

  lemma OneCons(a: Artifact, rest: seq<Artifact>)
    ensures OnePerSlot([a] + rest) <==> OnePerSlot(rest) && (a.coverage ==> forall b :: b in rest && b.coverage ==> b.slot != a.slot)
  {
    var all := [a] + rest;
    assert forall n :: 0 < n < |all| ==> all[n] == rest[n - 1];
    if OnePerSlot(all) {
      forall m, n | 0 <= m < n < |rest| && rest[m].coverage && rest[n].coverage ensures rest[m].slot != rest[n].slot {
        assert all[m + 1].slot != all[n + 1].slot;
      }
      forall b | b in rest && b.coverage && a.coverage ensures b.slot != a.slot {
        var n :| 0 <= n < |rest| && rest[n] == b;
        assert all[0].slot != all[n + 1].slot;
      }
    }
  }

  lemma {:induction false} DistinctMeaning(artifacts: seq<Artifact>)
    ensures Distinct(Inputs(artifacts)) <==> OnePerSlot(artifacts)
  {
    if artifacts != [] {
      var a, rest := artifacts[0], artifacts[1..];
      assert artifacts == [a] + rest;
      DistinctMeaning(rest);
      OneCons(a, rest);
      if a.coverage {
        DistinctCons(InputOf(a), Inputs(rest));
        forall b | b in rest && b.coverage ensures InputOf(b) in Inputs(rest) {
          InputMembers(rest, InputOf(b));
        }
        forall j | j in Inputs(rest) ensures exists b :: b in rest && b.coverage && j == InputOf(b) {
          InputMembers(rest, j);
        }
      }
    }
  }

  // ---------- the expected regions ----------

  /** The expected keys are the keys of the production regions, each with such an entry and region. */
  lemma ExpectedMeaning(inv: Inventory, key: string)
    ensures key in TargetOf(inv).expected <==>
              exists e, r :: e in inv.entries && e.production && r in e.regions && key == KeyOf(e.source, r)
    ensures key in TargetOf(inv).expected ==>
              var x := TargetOf(inv).expected[key];
              x.entry in inv.entries && x.entry.production && x.region in x.entry.regions && key == KeyOf(x.entry.source, x.region)
  {
    var es := Production(inv.entries);
    PairKeys(AllPairs(es), key);
    if key in ExpectedOf(es) {
      PairOrigin(es, Keyed(key, ExpectedOf(es)[key]));
    }
    if e, r :| e in inv.entries && e.production && r in e.regions && key == KeyOf(e.source, r) {
      PairListed(es, e, r);
    }
  }

  lemma {:induction false} PairListed(es: seq<Entry>, e: Entry, r: Region)
    requires e in es && r in e.regions
    ensures Keyed(KeyOf(e.source, r), Expected(e, r)) in AllPairs(es)
  {
    var rest, last := es[..|es| - 1], es[|es| - 1];
    if e == last {
      var j :| 0 <= j < |e.regions| && e.regions[j] == r;
      assert EntryPairs(e)[j] == Keyed(KeyOf(e.source, r), Expected(e, r));
    } else {
      assert e in rest;
      PairListed(rest, e, r);
    }
  }

  // ---------- what the assembly returns ----------

  /** The build that `assemble` returns for these artifacts. */
  ghost predicate IsAssembly(inv: Inventory, artifacts: seq<Artifact>, c: Checkout, b: Build) {
    IsBuild(Judge(inv, Inputs(artifacts), c), TargetOf(inv).expected, b)
  }

  /** Some variant of the region is reported as covered. */
  predicate ReportedCovered(b: Build, key: string) {
    key in b.rows && exists n :: 0 <= n < |b.rows[key].variants| && b.rows[key].variants[n].state.Covered?
  }

  lemma ReportedMeaning(j: Verdict, expected: map<string, Expected>, b: Build, key: string)
    requires IsBuild(j, expected, b)
    ensures ReportedCovered(b, key) <==> key in CoveredKeys(j.evidenced, expected)
  {
    if key in expected {
      var x, row := expected[key], b.rows[key];
      assert IsRow(j.evidenced, x, key, row);
      forall n | 0 <= n < |row.variants| ensures row.variants[n].state == StateOf(j.evidenced, x, key, Variants(x.entry)[n]) {
        assert IsVariant(j.evidenced, x, key, Variants(x.entry)[n], row.variants[n]);
      }
      if variant :| variant in Variants(x.entry) && StateOf(j.evidenced, x, key, variant).Covered? {
        var n :| 0 <= n < |Variants(x.entry)| && Variants(x.entry)[n] == variant;
        assert row.variants[n].state.Covered?;
      }
      if n :| 0 <= n < |row.variants| && row.variants[n].state.Covered? {
        assert Variants(x.entry)[n] in Variants(x.entry);
      }
    }
  }

  /** The reported number is the number of regions reported as covered. */
  lemma CoveredCount(inv: Inventory, artifacts: seq<Artifact>, c: Checkout, b: Build)
    requires IsAssembly(inv, artifacts, c, b)
    ensures b.covered == |set key | key in b.rows && ReportedCovered(b, key)|
    ensures b.total == |b.rows|
  {
    var j, expected := Judge(inv, Inputs(artifacts), c), TargetOf(inv).expected;
    forall key ensures ReportedCovered(b, key) <==> key in CoveredKeys(j.evidenced, expected) {
      ReportedMeaning(j, expected, b, key);
    }
    assert (set key | key in b.rows && ReportedCovered(b, key)) == CoveredKeys(j.evidenced, expected);
    assert |b.rows| == |b.rows.Keys| && |expected| == |expected.Keys|;
  }

  /** A good artifact for a region. */
  ghost predicate Proves(t: Target, a: Artifact, key: string)
    requires key in t.expected
  {
    && a.coverage && OwnedBy(t.expected[key], a.slot) && a.status.Ingested? && OfRevision(t, a)
    && CoversRegion(t, a, key) && !ContradictsRegion(t, a, key)
  }

  lemma GoodMeaning(t: Target, artifacts: seq<Artifact>, key: string)
    requires key in t.expected
    ensures (exists i :: i in Inputs(artifacts) && OwnedBy(t.expected[key], i.slot) && Good(t, i, key))
       <==> exists a :: a in artifacts && Proves(t, a, key)
  {
    forall a | a in artifacts && a.coverage
      ensures OwnedBy(t.expected[key], InputOf(a).slot) && Good(t, InputOf(a), key) <==> Proves(t, a, key)
      ensures InputOf(a) in Inputs(artifacts)
    {
      CoversMeaning(t, a, key);
      ContradictsMeaning(t, a, key);
      InputMembers(artifacts, InputOf(a));
    }
    if i :| i in Inputs(artifacts) && OwnedBy(t.expected[key], i.slot) && Good(t, i, key) {
      InputMembers(artifacts, i);
    }
  }

  /** With one coverage artifact per slot, a region is reported as covered exactly when it is
      expected, the checkout is clean, its sources are on disk as recorded, and some ingested
      coverage artifact of its component and of a declared variant, of the inventory's revision
      and in an accepted format, has evidence that covers it, by its own source or by the last
      alias of its path, and none that contradicts its hash. */
  lemma ReportedIff(inv: Inventory, artifacts: seq<Artifact>, c: Checkout, b: Build, key: string)
    requires IsAssembly(inv, artifacts, c, b) && OnePerSlot(artifacts)
    ensures ReportedCovered(b, key) <==>
              && key in TargetOf(inv).expected && !c.dirty && SourcesOk(inv, c, TargetOf(inv).expected[key].entry.source)
              && exists a :: a in artifacts && Proves(TargetOf(inv), a, key)
  {
    ReportedMeaning(Judge(inv, Inputs(artifacts), c), TargetOf(inv).expected, b, key);
    DistinctMeaning(artifacts);
    CoveredIff(inv, Inputs(artifacts), c, key);
    if key in TargetOf(inv).expected {
      GoodMeaning(TargetOf(inv), artifacts, key);
    }
  }

  // ---------- complete ----------

  /** The entry is on disk as recorded and in a supported language, each of its variants has a
      coverage artifact, and each of its formats is used by one of its component and language. */
  ghost predicate EntryServed(c: Checkout, artifacts: seq<Artifact>, e: Entry) {
    && Supported(e.language) && SourceOk(c, e)
    && (forall v :: v in Variants(e) ==> exists a :: a in artifacts && a.coverage && a.slot == Slot(e.component, v))
    && (forall f :: f in e.formats ==>
          exists a :: a in artifacts && a.coverage && a.slot.component == e.component && a.language == e.language && a.format == f)
  }

  lemma ServedMeaning(c: Checkout, artifacts: seq<Artifact>, e: Entry)
    ensures Served(c, SlotsOf(Inputs(artifacts)), Inputs(artifacts), e) <==> EntryServed(c, artifacts, e)
  {
    var inputs := Inputs(artifacts);
    forall a | a in artifacts && a.coverage ensures InputOf(a) in inputs {
      InputMembers(artifacts, InputOf(a));
    }
    forall i | i in inputs ensures exists a :: a in artifacts && a.coverage && i == InputOf(a) {
      InputMembers(artifacts, i);
    }
    forall v | v in Variants(e)
      ensures Slot(e.component, v) in SlotsOf(inputs) <==> exists a :: a in artifacts && a.coverage && a.slot == Slot(e.component, v)
    {
      if a :| a in artifacts && a.coverage && a.slot == Slot(e.component, v) {
        assert InputOf(a) in inputs && InputOf(a).slot == a.slot;
      }
    }
    forall f | f in e.formats
      ensures FormatUsed(inputs, e, f) <==>
              exists a :: a in artifacts && a.coverage && a.slot.component == e.component && a.language == e.language && a.format == f
    {
      if a :| a in artifacts && a.coverage && a.slot.component == e.component && a.language == e.language && a.format == f {
        assert InputOf(a) in inputs;
      }
    }
  }

  /** A clean checkout at the inventory's revision, clean coverage artifacts, one per slot, and
      every production entry served. */
  ghost predicate CleanArtifacts(inv: Inventory, artifacts: seq<Artifact>, c: Checkout) {
    && c.revision == Some(inv.revision) && !c.dirty
    && (forall a :: a in artifacts && a.coverage ==> CleanArtifact(TargetOf(inv), a)) && OnePerSlot(artifacts)
    && (forall e :: e in inv.entries && e.production ==> EntryServed(c, artifacts, e))
  }

  /** Some coverage artifact of the region's component and of a declared variant covers it. */
  ghost predicate ArtifactCovers(t: Target, artifacts: seq<Artifact>, key: string) {
    key in t.expected && exists a :: a in artifacts && a.coverage && OwnedBy(t.expected[key], a.slot) && CoversRegion(t, a, key)
  }

  /** Everything the design asks of a complete composite. */
  ghost predicate FullArtifacts(inv: Inventory, artifacts: seq<Artifact>, c: Checkout) {
    CleanArtifacts(inv, artifacts, c) && HasRegion(inv) && EveryRegionCovered(inv, artifacts)
  }

  predicate HasRegion(inv: Inventory) { exists e :: e in inv.entries && e.production && e.regions != [] }

  /** Every region of every production entry is covered. */
  ghost predicate EveryRegionCovered(inv: Inventory, artifacts: seq<Artifact>) {
    forall e, r :: e in inv.entries && e.production && r in e.regions ==>
      ArtifactCovers(TargetOf(inv), artifacts, KeyOf(e.source, r))
  }

  lemma CleanAll(inv: Inventory, artifacts: seq<Artifact>)
    ensures (forall i :: i in Inputs(artifacts) ==> CleanInput(TargetOf(inv), i))
       <==> (forall a :: a in artifacts && a.coverage ==> CleanArtifact(TargetOf(inv), a))
  {
    var t := TargetOf(inv);
    forall a | a in artifacts && a.coverage
      ensures InputOf(a) in Inputs(artifacts) && (CleanInput(t, InputOf(a)) <==> CleanArtifact(t, a))
    {
      InputMembers(artifacts, InputOf(a));
      CleanMeaning(t, a);
    }
    forall i | i in Inputs(artifacts) ensures exists a :: a in artifacts && a.coverage && i == InputOf(a) {
      InputMembers(artifacts, i);
    }
  }

  lemma SomeoneMeaning(t: Target, artifacts: seq<Artifact>, key: string)
    requires key in t.expected
    ensures CoveredBySomeone(t, Inputs(artifacts), key) <==> ArtifactCovers(t, artifacts, key)
  {
    forall a | a in artifacts && a.coverage
      ensures InputOf(a) in Inputs(artifacts) && (Covers(t, InputOf(a), key) <==> CoversRegion(t, a, key))
    {
      InputMembers(artifacts, InputOf(a));
      CoversMeaning(t, a, key);
    }
    if i :| i in Inputs(artifacts) && OwnedBy(t.expected[key], i.slot) && Covers(t, i, key) {
      InputMembers(artifacts, i);
    }
  }

  /** An expected region comes from a production entry, so there is one. */
  lemma SomeEntry(inv: Inventory)
    requires exists key :: key in TargetOf(inv).expected
    ensures Production(inv.entries) != []
  {
    var key :| key in TargetOf(inv).expected;
    ExpectedMeaning(inv, key);
  }

  lemma AssemblyClean(inv: Inventory, artifacts: seq<Artifact>, c: Checkout)
    requires exists key :: key in TargetOf(inv).expected
    ensures CleanAssembly(inv, Inputs(artifacts), c) <==> CleanArtifacts(inv, artifacts, c)
  {
    SomeEntry(inv);
    CleanAll(inv, artifacts);
    DistinctMeaning(artifacts);
    forall e | e in Production(inv.entries)
      ensures Served(c, SlotsOf(Inputs(artifacts)), Inputs(artifacts), e) <==> EntryServed(c, artifacts, e)
    {
      ServedMeaning(c, artifacts, e);
    }
  }

  lemma SomeRegion(inv: Inventory)
    ensures (exists key :: key in TargetOf(inv).expected) <==> HasRegion(inv)
  {
    if key :| key in TargetOf(inv).expected {
      ExpectedMeaning(inv, key);
    }
    if e :| e in inv.entries && e.production && e.regions != [] {
      assert e.regions[0] in e.regions;
      ExpectedMeaning(inv, KeyOf(e.source, e.regions[0]));
    }
  }

  ghost predicate EveryKeyCovered(inv: Inventory, inputs: seq<Input>) {
    forall key :: key in TargetOf(inv).expected ==> CoveredBySomeone(TargetOf(inv), inputs, key)
  }

  lemma RegionForward(inv: Inventory, artifacts: seq<Artifact>, e: Entry, r: Region)
    requires EveryKeyCovered(inv, Inputs(artifacts)) && e in inv.entries && e.production && r in e.regions
    ensures ArtifactCovers(TargetOf(inv), artifacts, KeyOf(e.source, r))
  {
    ExpectedMeaning(inv, KeyOf(e.source, r));
    SomeoneMeaning(TargetOf(inv), artifacts, KeyOf(e.source, r));
  }

  lemma RegionBackward(inv: Inventory, artifacts: seq<Artifact>, key: string)
    requires EveryRegionCovered(inv, artifacts) && key in TargetOf(inv).expected
    ensures CoveredBySomeone(TargetOf(inv), Inputs(artifacts), key)
  {
    ExpectedMeaning(inv, key);
    SomeoneMeaning(TargetOf(inv), artifacts, key);
  }

  lemma RegionsMeaning(inv: Inventory, artifacts: seq<Artifact>)
    ensures EveryKeyCovered(inv, Inputs(artifacts)) <==> EveryRegionCovered(inv, artifacts)
  {
    if EveryKeyCovered(inv, Inputs(artifacts)) {
      forall e, r | e in inv.entries && e.production && r in e.regions
        ensures ArtifactCovers(TargetOf(inv), artifacts, KeyOf(e.source, r))
      {
        RegionForward(inv, artifacts, e, r);
      }
    }
    if EveryRegionCovered(inv, artifacts) {
      forall key | key in TargetOf(inv).expected ensures CoveredBySomeone(TargetOf(inv), Inputs(artifacts), key) {
        RegionBackward(inv, artifacts, key);
      }
    }
  }

  lemma FullSplit(inv: Inventory, inputs: seq<Input>, c: Checkout)
    ensures FullEvidence(inv, inputs, c)
       <==> CleanAssembly(inv, inputs, c) && (exists key :: key in TargetOf(inv).expected) && EveryKeyCovered(inv, inputs)
  {
    assert TargetOf(inv).expected.Keys != {} <==> exists key :: key in TargetOf(inv).expected;
  }

  lemma FullMeaning(inv: Inventory, artifacts: seq<Artifact>, c: Checkout)
    ensures FullEvidence(inv, Inputs(artifacts), c) <==> FullArtifacts(inv, artifacts, c)
  {
    FullSplit(inv, Inputs(artifacts), c);
    SomeRegion(inv);
    RegionsMeaning(inv, artifacts);
    if exists key :: key in TargetOf(inv).expected {
      AssemblyClean(inv, artifacts, c);
    }
  }

  lemma CompleteFlag(inv: Inventory, inputs: seq<Input>, c: Checkout, b: Build)
    requires IsBuild(Judge(inv, inputs, c), TargetOf(inv).expected, b)
    ensures b.complete == Complete(inv, inputs, c)
  {
  }

  /** The assembly reports `complete` exactly when the artifacts are full evidence. */
  lemma CompleteFromArtifacts(inv: Inventory, artifacts: seq<Artifact>, c: Checkout, b: Build)
    requires IsAssembly(inv, artifacts, c, b)
    ensures b.complete <==> FullArtifacts(inv, artifacts, c)
  {
    CompleteFlag(inv, Inputs(artifacts), c, b);
    CompleteIff(inv, Inputs(artifacts), c);
    FullMeaning(inv, artifacts, c);
  }
}
