/** The answer of an incremental comparison, read off the rows and receipts of the reports. */
module IncrementalAnswer {
  import opened Text
  import opened Keys
  import opened Measurements
  import opened Counting
  import opened Incremental
  import opened IncrementalLaws

  // ---------- keys, read off the rows ----------

  /** The key of a row: its identity, or else path, span and arm; never its symbol. */
  predicate KeyedAs(o: Observation, x: string) {
    o.identity == Some(x) || (o.identity.None? && x == o.path + ":" + SpanText(o.span) + ":" + o.arm)
  }

  ghost predicate HasKey(m: Measurement, k: Metric, x: string) {
    exists r :: r in m.rows && m.rows[r].kind == k && KeyedAs(m.rows[r], x)
  }

  ghost predicate CoversKey(m: Measurement, k: Metric, x: string) {
    exists r :: r in m.rows && m.rows[r].kind == k && KeyedAs(m.rows[r], x) && m.rows[r].hits > 0
  }

  ghost predicate MeasuresKey(m: Measurement, k: Metric, x: string) {
    exists r :: r in m.rows && m.rows[r].kind == k && KeyedAs(m.rows[r], x) && m.rows[r].hits >= 0
  }

  lemma KeyedOnce(o: Observation, x: string)
    ensures KeyedAs(o, x) <==> x == InventoryKey(o)
  {
  }

  lemma EntryOf(m: Measurement, k: Metric, r: string)
    requires r in m.rows && m.rows[r].kind == k
    ensures Entry(InventoryKey(m.rows[r]), m.rows[r]) in Entries(m, k)
  {
  }

  lemma KeysMeaning(m: Measurement, k: Metric, x: string)
    ensures x in InventoryKeys(m, k) <==> HasKey(m, k, x)
    ensures x in CoveredKeys(m, k) <==> CoversKey(m, k, x)
    ensures x in MeasuredKeys(m, k) <==> MeasuresKey(m, k, x)
  {
    forall r | r in m.rows && m.rows[r].kind == k ensures KeyedAs(m.rows[r], x) <==> x == InventoryKey(m.rows[r]) {
      KeyedOnce(m.rows[r], x);
    }
    if HasKey(m, k, x) {
      var r :| r in m.rows && m.rows[r].kind == k && KeyedAs(m.rows[r], x);
      EntryOf(m, k, r);
    }
    if CoversKey(m, k, x) {
      var r :| r in m.rows && m.rows[r].kind == k && KeyedAs(m.rows[r], x) && m.rows[r].hits > 0;
      EntryOf(m, k, r);
    }
    if MeasuresKey(m, k, x) {
      var r :| r in m.rows && m.rows[r].kind == k && KeyedAs(m.rows[r], x) && m.rows[r].hits >= 0;
      EntryOf(m, k, r);
    }
  }

  /** Two native rows share a coordinate exactly when path, span and arm agree: generic
      instantiations of one function are one coordinate. */
  lemma OneCoordinate(a: Observation, b: Observation, x: string)
    requires a.identity.None? && b.identity.None? && ':' !in a.arm && ':' !in b.arm && KeyedAs(a, x)
    ensures KeyedAs(b, x) <==> a.path == b.path && a.span == b.span && a.arm == b.arm
  {
    CoordinateKeyInjective(a.path, a.span, a.arm, b.path, b.span, b.arm);
  }

  // ---------- a combined answer ----------

  ghost predicate CoveredBefore(base: Measurement, previous: seq<Loaded>, k: Metric, x: string) {
    CoversKey(base, k, x) || exists b :: b in previous && b.Loaded? && CoversKey(b.m, k, x)
  }

  /** Receipts match the checkout, one build, passing tests, on both sides. */
  predicate Trusted(base: Measurement, m: Measurement) {
    && base.source.MatchesReceipt? && m.source.MatchesReceipt? && base.buildId == m.buildId
    && base.tests.TestsPassed? && m.tests.TestsPassed?
  }

  ghost predicate AllTrusted(base: Measurement, previous: seq<Loaded>, current: Measurement) {
    Trusted(base, current) && forall b :: b in previous && b.Loaded? ==> Trusted(base, b.m)
  }

  lemma BeforeMeaning(base: Measurement, previous: seq<Loaded>, k: Metric, x: string)
    ensures x in Union(base, previous, k) <==> CoveredBefore(base, previous, k, x)
  {
    UnionMember(base, previous, k, x);
    KeysMeaning(base, k, x);
    forall b | b in previous && b.Loaded? ensures x in CoveredKeys(b.m, k) <==> CoversKey(b.m, k, x) {
      KeysMeaning(b.m, k, x);
    }
  }

  lemma TrustMeaning(base: Measurement, previous: seq<Loaded>, current: Measurement)
    ensures AllVerified(base, previous) && Verified(base, current) <==> AllTrusted(base, previous, current)
  {
    if AllTrusted(base, previous, current) {
      forall i | 0 <= i < |previous| && previous[i].Loaded? ensures Verified(base, previous[i].m) {
        assert previous[i] in previous;
      }
    }
    VerifiedByMembers(base, previous);
  }

  /** What the answer must be for given sets of keys. */
  ghost predicate Answers(r: Increment, keys: set<string>, accepted: set<string>, batch: set<string>, trusted: bool) {
    && r.accepted.covered == |accepted| && r.accepted.covered + r.accepted.missing == r.accepted.total == |keys|
    && r.combined.covered == |accepted + batch| && r.combined.covered + r.combined.missing == r.combined.total == |keys|
    && r.batchCovered == |batch| && r.newlyCovered == |r.gained| && r.alreadyCovered == |batch| - |r.gained|
    && (forall x :: x in r.gained <==> x in batch && x !in accepted)
    && (forall x :: x in r.remaining <==> x in keys && x !in batch && x !in accepted)
    && (r.verified <==> trusted)
    && (r.status.Limited? <==> !trusted)
    && (r.status.Improved? <==> trusted && exists x :: x in batch && x !in accepted)
    && (r.status.NoGain? <==> trusted && forall x :: x in batch ==> x in accepted)
  }

  lemma NumbersAnswer(s: Sets)
    requires Within(s)
    ensures Answers(Numbers(s), s.keys, s.accepted, s.batch, s.verified)
  {
    var gained := s.batch - s.accepted;
    Inside(s.accepted, s.keys);
    Inside(s.accepted + s.batch, s.keys);
    Inside(gained, s.batch);
    assert s.batch - gained == s.batch * s.accepted;
    assert gained == {} <==> forall x :: x in s.batch ==> x in s.accepted;
  }

  /** The baseline's keys, those covered before the batch, and those the batch covers. */
  ghost predicate KeySets(base: Measurement, previous: seq<Loaded>, current: Measurement, k: Metric,
                          keys: set<string>, accepted: set<string>, batch: set<string>) {
    && (forall x :: x in keys <==> HasKey(base, k, x))
    && (forall x :: x in accepted <==> CoveredBefore(base, previous, k, x))
    && (forall x :: x in batch <==> CoversKey(current, k, x))
  }

  /** Every number, set and word of a combined answer, from the rows and receipts: `improved`
      exactly when everything is trusted and some key that the batch covers was covered by
      neither the baseline nor an earlier batch; `no_gain` exactly when everything is trusted
      and there is no such key; `limited` exactly when something is not trusted. */
  lemma CombinedAnswer(base: Measurement, previous: seq<Loaded>, current: Measurement, k: Metric,
                       keys: set<string>, accepted: set<string>, batch: set<string>)
    requires Report(Compare(base, previous, current, k)).Combined?
    requires KeySets(base, previous, current, k, keys, accepted, batch)
    ensures Answers(Report(Compare(base, previous, current, k)).value, keys, accepted, batch, AllTrusted(base, previous, current))
  {
    SameSets(base, previous, current, k, keys, accepted, batch);
    SetsAnswer(Report(Compare(base, previous, current, k)).value, Sets(keys, accepted, batch, AllTrusted(base, previous, current)));
  }

  lemma SetsAnswer(r: Increment, s: Sets)
    requires r == Numbers(s) && Within(s)
    ensures Answers(r, s.keys, s.accepted, s.batch, s.verified)
  {
    NumbersAnswer(s);
  }

  lemma SameSets(base: Measurement, previous: seq<Loaded>, current: Measurement, k: Metric,
                 keys: set<string>, accepted: set<string>, batch: set<string>)
    requires Compare(base, previous, current, k).Combined?
    requires KeySets(base, previous, current, k, keys, accepted, batch)
    ensures Compare(base, previous, current, k).value == Sets(keys, accepted, batch, AllTrusted(base, previous, current))
    ensures Within(Compare(base, previous, current, k).value)
  {
    CombinedMeaning(base, previous, current, k);
    TrustMeaning(base, previous, current);
    ModelSets(base, previous, current, k);
    OneKeySet(base, previous, current, k, keys, accepted, batch,
              InventoryKeys(base, k), Union(base, previous, k), CoveredKeys(current, k));
  }

  lemma OneKeySet(base: Measurement, previous: seq<Loaded>, current: Measurement, k: Metric,
                  a: set<string>, b: set<string>, c: set<string>, x: set<string>, y: set<string>, z: set<string>)
    requires KeySets(base, previous, current, k, a, b, c) && KeySets(base, previous, current, k, x, y, z)
    ensures a == x && b == y && c == z
  {
  }

  lemma ModelSets(base: Measurement, previous: seq<Loaded>, current: Measurement, k: Metric)
    ensures KeySets(base, previous, current, k, InventoryKeys(base, k), Union(base, previous, k), CoveredKeys(current, k))
  {
    forall x ensures (x in InventoryKeys(base, k) <==> HasKey(base, k, x))
                     && (x in Union(base, previous, k) <==> CoveredBefore(base, previous, k, x))
                     && (x in CoveredKeys(current, k) <==> CoversKey(current, k, x))
    {
      KeysMeaning(base, k, x);
      KeysMeaning(current, k, x);
      BeforeMeaning(base, previous, k, x);
    }
  }

  // ---------- a refused answer ----------

  /** The build id of the first report that has one, among the baseline and the first j batches. */
  ghost predicate KnownBuild(base: Measurement, bs: seq<Loaded>, j: nat, id: string)
    requires j <= |bs|
  {
    || base.buildId == Some(id)
    || (base.buildId.None? && exists i :: 0 <= i < j && FirstWith(bs, i, id))
  }

  predicate FirstWith(bs: seq<Loaded>, i: nat, id: string)
    requires i < |bs|
  {
    bs[i].Loaded? && bs[i].m.buildId == Some(id) && forall l :: 0 <= l < i ==> bs[l].Loaded? ==> bs[l].m.buildId.None?
  }

  lemma {:induction false} LatchMeaning(base: Measurement, bs: seq<Loaded>, j: nat, id: string)
    requires j <= |bs|
    ensures LatchAll(base.buildId, bs[..j]) == Some(id) <==> KnownBuild(base, bs, j, id)
    ensures LatchAll(base.buildId, bs[..j]).None? <==>
              base.buildId.None? && forall l :: 0 <= l < j ==> bs[l].Loaded? ==> bs[l].m.buildId.None?
  {
    if j > 0 {
      LatchMeaning(base, bs, j - 1, id);
      assert bs[..j][..j - 1] == bs[..j - 1];
      assert KnownBuild(base, bs, j, id) <==>
        KnownBuild(base, bs, j - 1, id) || (base.buildId.None? && FirstWith(bs, j - 1, id));
    }
  }

  predicate BadTests(m: Measurement) { m.tests.TestsFailed? }

  /** Another format, changed sources, another build than the baseline's or than the first
      known one, or another hash than the baseline's for a file the report measures. */
  ghost predicate BadIdentity(base: Measurement, bs: seq<Loaded>, j: nat, m: Measurement)
    requires j <= |bs|
  {
    || m.format != base.format || base.source.ChangedOrMissing? || m.source.ChangedOrMissing?
    || (base.buildId.Some? && m.buildId.Some? && base.buildId != m.buildId)
    || (exists f :: f in m.files && f in base.hashes && f in m.hashes && base.hashes[f] != m.hashes[f])
    || (m.buildId.Some? && exists id :: KnownBuild(base, bs, j, id) && id != m.buildId.value)
  }

  /** No rows, a key that no row measured, or other counts than the report states. */
  ghost predicate BadDetail(m: Measurement, k: Metric) {
    || (!exists x :: HasKey(m, k, x))
    || (exists x :: HasKey(m, k, x) && !MeasuresKey(m, k, x))
    || |InventoryKeys(m, k)| != Stated(m, k).total || |CoveredKeys(m, k)| != Stated(m, k).covered
  }

  /** The counts the report itself states for the metric. */
  function Stated(m: Measurement, k: Metric): Counts {
    if k == Regions then m.regions else if k == Branches then m.branches else m.lines
  }

  ghost predicate BadKeys(base: Measurement, m: Measurement, k: Metric) {
    exists x :: HasKey(m, k, x) && !HasKey(base, k, x)
  }

  /** The first check that a report fails, in the order of the checks. */
  ghost predicate FailsFirst(base: Measurement, bs: seq<Loaded>, j: nat, m: Measurement, k: Metric, why: Rejection)
    requires j <= |bs|
  {
    match why
    case FailedTests => BadTests(m)
    case IdentityDiffers => !BadTests(m) && BadIdentity(base, bs, j, m)
    case DetailIncomplete => !BadTests(m) && !BadIdentity(base, bs, j, m) && BadDetail(m, k)
    case OutsideInventory => !BadTests(m) && !BadIdentity(base, bs, j, m) && !BadDetail(m, k) && BadKeys(base, m, k)
  }

  ghost predicate Passes(base: Measurement, bs: seq<Loaded>, j: nat, m: Measurement, k: Metric)
    requires j <= |bs|
  {
    !BadTests(m) && !BadIdentity(base, bs, j, m) && !BadDetail(m, k) && !BadKeys(base, m, k)
  }

  lemma IdentityMeaning(base: Measurement, bs: seq<Loaded>, j: nat, m: Measurement)
    requires j <= |bs|
    ensures base.format != m.format || Conflict(base, m) || Differ(LatchAll(base.buildId, bs[..j]), m.buildId)
       <==> BadIdentity(base, bs, j, m)
  {
    var known := LatchAll(base.buildId, bs[..j]);
    if known.Some? {
      LatchMeaning(base, bs, j, known.value);
    }
    forall id ensures known == Some(id) <==> KnownBuild(base, bs, j, id) {
      LatchMeaning(base, bs, j, id);
    }
  }

  lemma StatedCounts(m: Measurement, k: Metric)
    ensures m.Reported(k) == Stated(m, k)
  {
  }

  lemma DetailMeaning(m: Measurement, k: Metric)
    ensures DetailMatches(m, k) <==> !BadDetail(m, k)
  {
    StatedCounts(m, k);
    forall x ensures (x in InventoryKeys(m, k) <==> HasKey(m, k, x)) && (x in MeasuredKeys(m, k) <==> MeasuresKey(m, k, x)) {
      KeysMeaning(m, k, x);
    }
    assert MeasuredKeys(m, k) <= InventoryKeys(m, k);
    assert InventoryKeys(m, k) == {} <==> !exists x :: x in InventoryKeys(m, k);
    assert InventoryKeys(m, k) == MeasuredKeys(m, k) <==> forall x :: x in InventoryKeys(m, k) ==> x in MeasuredKeys(m, k);
  }

  lemma KeysWithin(base: Measurement, m: Measurement, k: Metric)
    ensures InventoryKeys(m, k) <= InventoryKeys(base, k) <==> !BadKeys(base, m, k)
  {
    forall x ensures (x in InventoryKeys(m, k) <==> HasKey(m, k, x)) && (x in InventoryKeys(base, k) <==> HasKey(base, k, x)) {
      KeysMeaning(m, k, x);
      KeysMeaning(base, k, x);
    }
  }

  lemma RejectMeaning(base: Measurement, bs: seq<Loaded>, j: nat, m: Measurement, k: Metric)
    requires j <= |bs|
    ensures var r := Reject(base, m, k, LatchAll(base.buildId, bs[..j]));
            (r.None? <==> Passes(base, bs, j, m, k)) && (r.Some? ==> FailsFirst(base, bs, j, m, k, r.value))
  {
    IdentityMeaning(base, bs, j, m);
    DetailMeaning(m, k);
    KeysWithin(base, m, k);
  }

  /** Batch j and all before it load and pass every check. */
  ghost predicate PassUpTo(base: Measurement, bs: seq<Loaded>, n: nat, k: Metric)
    requires n <= |bs|
  {
    forall j :: 0 <= j < n ==> bs[j].Loaded? && Passes(base, bs, j, bs[j].m, k)
  }

  ghost predicate ScanSays(base: Measurement, bs: seq<Loaded>, k: Metric, s: Scan) {
    match s
    case Passed => PassUpTo(base, bs, |bs|, k)
    case Unread(at) => at < |bs| && PassUpTo(base, bs, at, k) && bs[at].Unloadable?
    case Turned(at, why) => at < |bs| && PassUpTo(base, bs, at, k) && bs[at].Loaded? && FailsFirst(base, bs, at, bs[at].m, k, why)
  }

  lemma {:induction false} ScanMeaning(base: Measurement, bs: seq<Loaded>, i: nat, k: Metric)
    requires i <= |bs| && PassUpTo(base, bs, i, k)
    ensures ScanSays(base, bs, k, ScanFrom(base, bs, i, k, LatchAll(base.buildId, bs[..i])))
    decreases |bs| - i
  {
    if i < |bs| && bs[i].Loaded? {
      var known := LatchAll(base.buildId, bs[..i]);
      RejectMeaning(base, bs, i, bs[i].m, k);
      if Reject(base, bs[i].m, k, known).None? {
        assert bs[..i + 1][..i] == bs[..i];
        assert LatchAll(base.buildId, bs[..i + 1]) == Latch(known, bs[i].m);
        ScanMeaning(base, bs, i + 1, k);
      }
    }
  }

  /** What every answer says about the reports: the baseline's own fault, the first report that
      does not load, the first report that fails and its first failing check, or a result when
      nothing fails. */
  ghost predicate Explains(base: Measurement, previous: seq<Loaded>, current: Measurement, k: Metric, a: Answer<Increment>) {
    match a
    case BaselineRefused(why) =>
      if BadTests(base) then why == FailedTests else why == DetailIncomplete && BadDetail(base, k)
    case LoadError(at) =>
      !BadTests(base) && !BadDetail(base, k) && at < |previous| && PassUpTo(base, previous, at, k) && previous[at].Unloadable?
    case Refused(at, why) =>
      && !BadTests(base) && !BadDetail(base, k) && at <= |previous| && PassUpTo(base, previous, at, k)
      && (at < |previous| ==> previous[at].Loaded?)
      && FailsFirst(base, previous, at, if at < |previous| then previous[at].m else current, k, why)
    case Combined(_) =>
      && !BadTests(base) && !BadDetail(base, k) && PassUpTo(base, previous, |previous|, k)
      && Passes(base, previous, |previous|, current, k)
  }

  /** The answer is explained by the reports. */
  lemma AnswerExplained(base: Measurement, previous: seq<Loaded>, current: Measurement, k: Metric)
    ensures Explains(base, previous, current, k, Report(Compare(base, previous, current, k)))
  {
    DetailMeaning(base, k);
    assert previous[..0] == [] && previous[..|previous|] == previous;
    ScanMeaning(base, previous, 0, k);
    RejectMeaning(base, previous, |previous|, current, k);
  }

  lemma FirstOnly(base: Measurement, bs: seq<Loaded>, j: nat, m: Measurement, k: Metric, why: Rejection)
    requires j <= |bs| && FailsFirst(base, bs, j, m, k, why)
    ensures !Passes(base, bs, j, m, k)
    ensures forall other :: FailsFirst(base, bs, j, m, k, other) ==> other == why
  {
  }

  lemma RefusedOnce(base: Measurement, previous: seq<Loaded>, current: Measurement, k: Metric, a: Answer<Increment>, b: Answer<Increment>)
    requires Explains(base, previous, current, k, a) && Explains(base, previous, current, k, b)
    requires a.Refused? && b.Refused? && a.at <= b.at
    ensures a == b
  {
    FirstOnly(base, previous, a.at, if a.at < |previous| then previous[a.at].m else current, k, a.why);
  }

  /** A refused answer excludes every other kind. */
  lemma RefusedAlone(base: Measurement, previous: seq<Loaded>, current: Measurement, k: Metric, a: Answer<Increment>, b: Answer<Increment>)
    requires Explains(base, previous, current, k, a) && Explains(base, previous, current, k, b) && a.Refused?
    ensures b.Refused?
  {
    FirstOnly(base, previous, a.at, if a.at < |previous| then previous[a.at].m else current, k, a.why);
  }

  lemma LoadErrorOnce(base: Measurement, previous: seq<Loaded>, current: Measurement, k: Metric, a: Answer<Increment>, b: Answer<Increment>)
    requires Explains(base, previous, current, k, a) && Explains(base, previous, current, k, b) && a.LoadError? && !b.Refused?
    ensures a == b
  {
  }

  /** No other answer is explained, so the explanation decides the answer. */
  lemma ExplainedOnce(base: Measurement, previous: seq<Loaded>, current: Measurement, k: Metric, a: Answer<Increment>, b: Answer<Increment>)
    requires Explains(base, previous, current, k, a) && Explains(base, previous, current, k, b)
    ensures a == b || (a.Combined? && b.Combined?)
  {
    if a.Refused? || b.Refused? {
      if a.Refused? { RefusedAlone(base, previous, current, k, a, b); } else { RefusedAlone(base, previous, current, k, b, a); }
      if a.at <= b.at { RefusedOnce(base, previous, current, k, a, b); } else { RefusedOnce(base, previous, current, k, b, a); }
    } else if a.LoadError? {
      LoadErrorOnce(base, previous, current, k, a, b);
    } else if b.LoadError? {
      LoadErrorOnce(base, previous, current, k, b, a);
    }
  }
}
