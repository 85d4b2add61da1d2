/** What the batch-by-batch comparison amounts to. */
module IncrementalLaws {
  import opened Text
  import opened Measurements
  import opened Incremental
  import opened Counting

  // ---------- acceptance ----------

  predicate BaselineOk(base: Measurement, k: Metric) {
    base.tests != TestsFailed && DetailMatches(base, k)
  }

  /** A batch that passes every check that does not involve other batches. */
  predicate Admissible(base: Measurement, b: Loaded, k: Metric) {
    b.Loaded? && Reject(base, b.m, k, None).None?
  }

  predicate SameBuild(a: Loaded, b: Loaded) {
    a.Loaded? && b.Loaded? ==> !Differ(a.m.buildId, b.m.buildId)
  }

  lemma RejectSplits(base: Measurement, m: Measurement, k: Metric, known: Option<string>)
    ensures Reject(base, m, k, known).None? <==> Admissible(base, Loaded(m), k) && !Differ(known, m.buildId)
  {
  }

  /** From batch i on, every batch passes alone, fits the known build, and fits every other. */
  ghost predicate AllPass(base: Measurement, bs: seq<Loaded>, i: nat, k: Metric, known: Option<string>) {
    && (forall j :: i <= j < |bs| ==> Admissible(base, bs[j], k) && !Differ(known, bs[j].m.buildId))
    && (forall j, l :: i <= j < |bs| && i <= l < |bs| ==> SameBuild(bs[j], bs[l]))
  }

  lemma AllPassStep(base: Measurement, bs: seq<Loaded>, i: nat, k: Metric, known: Option<string>)
    requires i < |bs| && bs[i].Loaded?
    ensures AllPass(base, bs, i, k, known)
       <==> Admissible(base, bs[i], k) && !Differ(known, bs[i].m.buildId) && AllPass(base, bs, i + 1, k, Latch(known, bs[i].m))
  {
  }

  lemma {:induction false} ScanPasses(base: Measurement, bs: seq<Loaded>, i: nat, k: Metric, known: Option<string>)
    requires i <= |bs|
    ensures ScanFrom(base, bs, i, k, known).Passed? <==> AllPass(base, bs, i, k, known)
    decreases |bs| - i
  {
    if i < |bs| && bs[i].Loaded? {
      RejectSplits(base, bs[i].m, k, known);
      ScanPasses(base, bs, i + 1, k, Latch(known, bs[i].m));
      AllPassStep(base, bs, i, k, known);
    }
  }

  lemma {:induction false} ScanLast(base: Measurement, bs: seq<Loaded>, last: Measurement, i: nat, k: Metric, known: Option<string>)
    requires i <= |bs| && known == LatchAll(base.buildId, bs[..i])
    ensures ScanFrom(base, bs + [Loaded(last)], i, k, known).Passed?
       <==> ScanFrom(base, bs, i, k, known).Passed? && Reject(base, last, k, LatchAll(base.buildId, bs)).None?
    decreases |bs| - i
  {
    var all := bs + [Loaded(last)];
    if i == |bs| {
      assert bs[..i] == bs && all[i] == Loaded(last);
      assert ScanFrom(base, all, i + 1, k, Latch(known, last)) == Passed;
    } else {
      assert all[i] == bs[i];
      if bs[i].Loaded? {
        assert bs[..i + 1][..i] == bs[..i];
        ScanLast(base, bs, last, i + 1, k, Latch(known, bs[i].m));
      }
    }
  }

  /** Acceptance, said without any loop or latch. */
  ghost predicate Accepts(base: Measurement, all: seq<Loaded>, k: Metric) {
    && BaselineOk(base, k)
    && (forall b :: b in all ==> Admissible(base, b, k))
    && (forall a, b :: a in [Loaded(base)] + all && b in [Loaded(base)] + all ==> SameBuild(a, b))
  }

  /** A combined result exists exactly when the baseline passes its own guards, every batch
      loads and passes on its own, and all known build ids agree, although the loop only
      ever compares with the first one it saw. */
  lemma AcceptedIff(base: Measurement, previous: seq<Loaded>, current: Measurement, k: Metric)
    ensures Compare(base, previous, current, k).Combined? <==> Accepts(base, previous + [Loaded(current)], k)
  {
    CombinedIff(base, previous, current, k);
    ScanPasses(base, previous + [Loaded(current)], 0, k, base.buildId);
    BuildsIff(base, previous + [Loaded(current)], k);
  }

  /** The current batch is scanned like one more earlier batch. */
  lemma CombinedIff(base: Measurement, previous: seq<Loaded>, current: Measurement, k: Metric)
    ensures Compare(base, previous, current, k).Combined?
       <==> BaselineOk(base, k) && ScanFrom(base, previous + [Loaded(current)], 0, k, base.buildId).Passed?
  {
    ScanLast(base, previous, current, 0, k, base.buildId);
  }

  lemma BuildsIff(base: Measurement, all: seq<Loaded>, k: Metric)
    ensures AllPass(base, all, 0, k, base.buildId)
       <==> && (forall b :: b in all ==> Admissible(base, b, k))
            && (forall a, b :: a in [Loaded(base)] + all && b in [Loaded(base)] + all ==> SameBuild(a, b))
  {
    var whole := [Loaded(base)] + all;
    if (forall b :: b in all ==> Admissible(base, b, k)) && (forall a, b :: a in whole && b in whole ==> SameBuild(a, b)) {
      forall j | 0 <= j < |all| ensures Admissible(base, all[j], k) && !Differ(base.buildId, all[j].m.buildId) {
        assert all[j] in all && all[j] in whole && Loaded(base) in whole;
        assert SameBuild(Loaded(base), all[j]);
      }
      forall j, l | 0 <= j < |all| && 0 <= l < |all| ensures SameBuild(all[j], all[l]) {
        assert all[j] in whole && all[l] in whole;
      }
    }
  }

  // ---------- the union ----------

  lemma {:induction false} UnionMember(base: Measurement, bs: seq<Loaded>, k: Metric, x: string)
    ensures x in Union(base, bs, k) <==>
              x in CoveredKeys(base, k) || exists b :: b in bs && b.Loaded? && x in CoveredKeys(b.m, k)
  {
    if bs != [] {
      var rest, last := bs[..|bs| - 1], bs[|bs| - 1];
      UnionMember(base, rest, k, x);
      assert bs == rest + [last];
      assert forall b :: b in bs <==> b in rest || b == last;
    }
  }

  lemma UnionByMembers(base: Measurement, p: seq<Loaded>, q: seq<Loaded>, k: Metric)
    requires forall b :: b in p ==> b in q
    ensures Union(base, p, k) <= Union(base, q, k)
  {
    forall x | x in Union(base, p, k) ensures x in Union(base, q, k) {
      UnionMember(base, p, k, x);
      UnionMember(base, q, k, x);
    }
  }

  lemma CoveredWithin(m: Measurement, k: Metric)
    ensures CoveredKeys(m, k) <= InventoryKeys(m, k)
  {
  }

  /** In an accepted comparison nothing leaves the baseline inventory. */
  lemma UnionWithin(base: Measurement, bs: seq<Loaded>, k: Metric)
    requires forall b :: b in bs ==> Admissible(base, b, k)
    ensures Union(base, bs, k) <= InventoryKeys(base, k)
  {
    forall x | x in Union(base, bs, k) ensures x in InventoryKeys(base, k) {
      UnionMember(base, bs, k, x);
      CoveredWithin(base, k);
      if x !in CoveredKeys(base, k) {
        var b :| b in bs && b.Loaded? && x in CoveredKeys(b.m, k);
        CoveredWithin(b.m, k);
      }
    }
  }

  /** The result depends on the earlier batches only as a set: their order and repetitions
      change neither whether there is a result nor any number in it. */
  lemma PreviousIsASet(base: Measurement, p: seq<Loaded>, q: seq<Loaded>, current: Measurement, k: Metric)
    requires forall b :: b in p <==> b in q
    ensures Compare(base, p, current, k).Combined? <==> Compare(base, q, current, k).Combined?
    ensures Compare(base, p, current, k).Combined? ==> Compare(base, p, current, k) == Compare(base, q, current, k)
  {
    AcceptedIff(base, p, current, k);
    AcceptedIff(base, q, current, k);
    AcceptsByMembers(base, p + [Loaded(current)], q + [Loaded(current)], k);
    UnionByMembers(base, p, q, k);
    UnionByMembers(base, q, p, k);
    VerifiedByMembers(base, p);
    VerifiedByMembers(base, q);
    assert Union(base, p, k) == Union(base, q, k);
    assert AllVerified(base, p) == AllVerified(base, q);
    if Compare(base, p, current, k).Combined? {
      CombinedMeaning(base, p, current, k);
      CombinedMeaning(base, q, current, k);
    }
  }

  lemma AcceptsByMembers(base: Measurement, p: seq<Loaded>, q: seq<Loaded>, k: Metric)
    requires forall b :: b in p <==> b in q
    ensures Accepts(base, p, k) <==> Accepts(base, q, k)
  {
    assert forall b :: b in [Loaded(base)] + p <==> b in [Loaded(base)] + q;
  }

  lemma VerifiedByMembers(base: Measurement, bs: seq<Loaded>)
    ensures AllVerified(base, bs) <==> forall b :: b in bs && b.Loaded? ==> Verified(base, b.m)
  {
    if AllVerified(base, bs) {
      forall b | b in bs && b.Loaded? ensures Verified(base, b.m) {
        var i :| 0 <= i < |bs| && bs[i] == b;
      }
    }
  }

  // ---------- laws of an accepted comparison ----------

  /** A combined result is set arithmetic inside the nonempty baseline inventory. */
  lemma CombinedMeaning(base: Measurement, p: seq<Loaded>, c: Measurement, k: Metric)
    requires Compare(base, p, c, k).Combined?
    ensures Compare(base, p, c, k).value == Sets(InventoryKeys(base, k), Union(base, p, k), CoveredKeys(c, k),
                                                 AllVerified(base, p) && Verified(base, c))
    ensures Within(Compare(base, p, c, k).value)
  {
    CombinedAdmits(base, p, c, k);
    UnionWithin(base, p, k);
    CoveredWithin(c, k);
  }

  lemma CombinedAdmits(base: Measurement, p: seq<Loaded>, c: Measurement, k: Metric)
    requires Compare(base, p, c, k).Combined?
    ensures BaselineOk(base, k) && Admissible(base, Loaded(c), k) && forall b :: b in p ==> Admissible(base, b, k)
  {
    AcceptedIff(base, p, c, k);
    var all := p + [Loaded(c)];
    assert forall b :: b in p ==> b in all;
    assert Loaded(c) in all;
  }

  predicate Within(s: Sets) {
    s.keys != {} && s.accepted <= s.keys && s.batch <= s.keys
  }

  lemma Balance(s: Sets)
    requires Within(s)
    ensures var r := Numbers(s);
            && r.combined.covered == r.accepted.covered + r.newlyCovered
            && r.accepted.missing == r.combined.missing + r.newlyCovered
            && r.accepted.covered + r.accepted.missing == r.accepted.total == r.combined.total == |s.keys| > 0
            && r.batchCovered == r.newlyCovered + r.alreadyCovered
  {
    var gained := s.batch - s.accepted;
    Apart(s.accepted + s.batch, s.accepted, gained);
    Apart(s.keys - s.accepted, s.keys - (s.accepted + s.batch), gained);
    Apart(s.keys, s.accepted, s.keys - s.accepted);
    Apart(s.batch, gained, s.batch * s.accepted);
  }

  /** Nothing is lost or invented: covered and missing always make up the nonempty baseline
      inventory, and the batch moves exactly its newly covered keys from one to the other. */
  lemma Conservation(base: Measurement, p: seq<Loaded>, c: Measurement, k: Metric)
    requires Compare(base, p, c, k).Combined?
    ensures var r := Numbers(Compare(base, p, c, k).value);
            && r.combined.covered == r.accepted.covered + r.newlyCovered
            && r.accepted.missing == r.combined.missing + r.newlyCovered
            && r.accepted.covered + r.accepted.missing == r.accepted.total == r.combined.total
            && r.accepted.total == |InventoryKeys(base, k)| > 0
            && r.batchCovered == r.newlyCovered + r.alreadyCovered
  {
    CombinedMeaning(base, p, c, k);
    Balance(Compare(base, p, c, k).value);
  }

  /** Chained calls telescope: what one call reports as combined, the next reports as accepted. */
  lemma Telescope(base: Measurement, p: seq<Loaded>, c: Measurement, d: Measurement, k: Metric)
    requires Compare(base, p, c, k).Combined? && Compare(base, p + [Loaded(c)], d, k).Combined?
    ensures Numbers(Compare(base, p + [Loaded(c)], d, k).value).accepted == Numbers(Compare(base, p, c, k).value).combined
  {
    CombinedMeaning(base, p, c, k);
    CombinedMeaning(base, p + [Loaded(c)], d, k);
    assert (p + [Loaded(c)])[..|p|] == p;
  }

  /** A batch that was already accepted gains nothing. */
  lemma RepeatGainsNothing(base: Measurement, p: seq<Loaded>, c: Measurement, k: Metric)
    requires Loaded(c) in p && Compare(base, p, c, k).Combined?
    ensures var r := Numbers(Compare(base, p, c, k).value);
            r.newlyCovered == 0 && r.gained == {} && r.combined == r.accepted
  {
    CombinedMeaning(base, p, c, k);
    UnionHolds(base, p, c, k);
    assert Union(base, p, k) + CoveredKeys(c, k) == Union(base, p, k);
  }

  lemma UnionHolds(base: Measurement, p: seq<Loaded>, c: Measurement, k: Metric)
    requires Loaded(c) in p
    ensures CoveredKeys(c, k) <= Union(base, p, k)
  {
    forall x | x in CoveredKeys(c, k) ensures x in Union(base, p, k) {
      UnionMember(base, p, k, x);
    }
  }

  /** More earlier evidence never raises the gain of a batch. */
  lemma GainShrinks(base: Measurement, p: seq<Loaded>, q: seq<Loaded>, c: Measurement, k: Metric)
    requires forall b :: b in p ==> b in q
    requires Compare(base, p, c, k).Combined? && Compare(base, q, c, k).Combined?
    ensures var r, t := Numbers(Compare(base, p, c, k).value), Numbers(Compare(base, q, c, k).value);
            t.gained <= r.gained && t.newlyCovered <= r.newlyCovered
  {
    CombinedMeaning(base, p, c, k);
    CombinedMeaning(base, q, c, k);
    UnionByMembers(base, p, q, k);
    Inside(CoveredKeys(c, k) - Union(base, q, k), CoveredKeys(c, k) - Union(base, p, k));
  }

  function Loads(cs: seq<Measurement>): seq<Loaded> {
    seq(|cs|, i requires 0 <= i < |cs| => Loaded(cs[i]))
  }

  lemma LoadsLast(cs: seq<Measurement>)
    requires cs != []
    ensures Loads(cs) == Loads(cs[..|cs| - 1]) + [Loaded(cs[|cs| - 1])]
  {
  }

  /** Call i of a chain, with all earlier measurements as earlier batches, gives a result. */
  predicate CallCombines(base: Measurement, cs: seq<Measurement>, i: nat, k: Metric)
    requires i < |cs|
  {
    Compare(base, Loads(cs[..i]), cs[i], k).Combined?
  }

  predicate ChainCombines(base: Measurement, cs: seq<Measurement>, k: Metric) {
    forall i: nat :: i < |cs| ==> CallCombines(base, cs, i, k)
  }

  lemma ChainFront(base: Measurement, cs: seq<Measurement>, k: Metric)
    requires cs != [] && ChainCombines(base, cs, k)
    ensures ChainCombines(base, cs[..|cs| - 1], k) && CallCombines(base, cs, |cs| - 1, k)
  {
    var n := |cs| - 1;
    forall i: nat | i < n ensures CallCombines(base, cs[..n], i, k) {
      assert CallCombines(base, cs, i, k) && cs[..n][..i] == cs[..i];
    }
  }

  /** The gains reported one call at a time. */
  function TotalGain(base: Measurement, cs: seq<Measurement>, k: Metric): nat
    requires ChainCombines(base, cs, k)
  {
    if cs == [] then 0
    else
      ChainFront(base, cs, k);
      var n := |cs| - 1;
      TotalGain(base, cs[..n], k) + Numbers(Compare(base, Loads(cs[..n]), cs[n], k).value).newlyCovered
  }

  /** Over a whole chain of separate calls the reported gains add up to the growth of the union. */
  lemma {:induction false} GainsAddUp(base: Measurement, cs: seq<Measurement>, k: Metric)
    requires ChainCombines(base, cs, k)
    ensures |Union(base, Loads(cs), k)| == |CoveredKeys(base, k)| + TotalGain(base, cs, k)
  {
    if cs != [] {
      var n := |cs| - 1;
      ChainFront(base, cs, k);
      GainsAddUp(base, cs[..n], k);
      UnionGrows(base, Loads(cs[..n]), cs[n], k);
      LoadsLast(cs);
    }
  }

  lemma UnionGrows(base: Measurement, p: seq<Loaded>, c: Measurement, k: Metric)
    requires Compare(base, p, c, k).Combined?
    ensures |Union(base, p + [Loaded(c)], k)| == |Union(base, p, k)| + Numbers(Compare(base, p, c, k).value).newlyCovered
  {
    assert (p + [Loaded(c)])[..|p|] == p;
    CombinedMeaning(base, p, c, k);
    Balance(Compare(base, p, c, k).value);
  }

  // ---------- receipts ----------

  /** In a verified result, every file measured by any two of the reports carries one receipt
      hash, and that hash is the checkout's digest. */
  lemma VerifiedReceiptsAgree(base: Measurement, p: seq<Loaded>, c: Measurement, k: Metric,
                              disk: string -> OnDisk, a: Measurement, b: Measurement, file: string)
    requires Compare(base, p, c, k).Combined? && Compare(base, p, c, k).value.verified
    requires forall x :: x in [Loaded(base)] + p + [Loaded(c)] && x.Loaded? ==> CheckedAgainst(x.m, disk)
    requires Loaded(a) in [Loaded(base)] + p + [Loaded(c)] && Loaded(b) in [Loaded(base)] + p + [Loaded(c)]
    requires file in a.files && file in b.files
    ensures file in a.hashes && file in b.hashes && a.hashes[file] == b.hashes[file]
    ensures disk(file) == Digest(a.hashes[file])
    ensures a.buildId == b.buildId && a.tests == b.tests == TestsPassed
  {
    CombinedMeaning(base, p, c, k);
    VerifiedByMembers(base, p);
    assert Verified(base, c);
    assert Loaded(a) == Loaded(base) || Loaded(a) in p || Loaded(a) == Loaded(c);
    assert Loaded(b) == Loaded(base) || Loaded(b) in p || Loaded(b) == Loaded(c);
    MatchPinsFile(a, disk, file);
    MatchPinsFile(b, disk, file);
  }
}
