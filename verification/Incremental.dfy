/** Incremental comparison (src/query_incremental.rs): earlier batches are folded into a
    baseline inventory one at a time, then the current batch is weighed against the result. */
module Incremental {
  import opened Text
  import opened Keys
  import opened Measurements
  import opened Counting

  // ---------- inventory ----------

  /** Generic instantiations at one source coordinate share one key. */
  function InventoryKey(o: Observation): string {
    if o.identity.Some? then o.identity.value else CoordinateKey(o.path, o.span, o.arm)
  }

  /** One observation of the selected metric under its inventory key. */
  datatype Entry = Entry(key: string, row: Observation)

  function Entries(m: Measurement, k: Metric): set<Entry> {
    set r | r in m.rows && m.rows[r].kind == k :: Entry(InventoryKey(m.rows[r]), m.rows[r])
  }

  function KeysOf(es: set<Entry>): set<string> { set e | e in es :: e.key }
  function CoveredOf(es: set<Entry>): set<string> { set e | e in es && e.row.hits > 0 :: e.key }
  function MeasuredOf(es: set<Entry>): set<string> { set e | e in es && e.row.hits >= 0 :: e.key }

  /** The fixed denominator of a measurement. */
  function InventoryKeys(m: Measurement, k: Metric): set<string> { KeysOf(Entries(m, k)) }

  function CoveredKeys(m: Measurement, k: Metric): set<string> { CoveredOf(Entries(m, k)) }

  /** Keys that some observation measured at all; a negative count means "not measured". */
  function MeasuredKeys(m: Measurement, k: Metric): set<string> { MeasuredOf(Entries(m, k)) }

  /** One row per key; its hits are the maximum over the key's entries. */
  ghost predicate Coalesced(es: set<Entry>, rows: map<string, Observation>) {
    && (forall e :: e in es ==> e.key in rows && e.row.hits <= rows[e.key].hits)
    && (forall x :: x in rows ==> exists e :: e in es && e.key == x && e.row.hits == rows[x].hits)
  }

  /** A new key takes the row, a known key keeps its row with the larger count. */
  function Merge(rows: map<string, Observation>, e: Entry): map<string, Observation> {
    if e.key !in rows then rows[e.key := e.row]
    else if rows[e.key].hits < e.row.hits then rows[e.key := rows[e.key].(hits := e.row.hits)]
    else rows
  }

  lemma MergeCoalesces(es: set<Entry>, rows: map<string, Observation>, e: Entry)
    requires Coalesced(es, rows)
    ensures Coalesced(es + {e}, Merge(rows, e))
  {
    var rows' := Merge(rows, e);
    forall x | x in rows'
      ensures exists f :: f in es + {e} && f.key == x && f.row.hits == rows'[x].hits
    {
      if x in rows && rows'[x].hits == rows[x].hits {
        var f :| f in es && f.key == x && f.row.hits == rows[x].hits;
        assert f in es + {e};
      } else {
        assert e in es + {e};
      }
    }
  }

  lemma CoalescedMeaning(es: set<Entry>, rows: map<string, Observation>)
    requires Coalesced(es, rows)
    ensures rows.Keys == KeysOf(es)
    ensures Covered(rows) == CoveredOf(es)
    ensures (forall x :: x in rows ==> rows[x].hits >= 0) <==> KeysOf(es) == MeasuredOf(es)
  {
    forall x | x in rows
      ensures x in KeysOf(es)
      ensures x in CoveredOf(es) <==> rows[x].hits > 0
      ensures x in MeasuredOf(es) <==> rows[x].hits >= 0
    {
      var e :| e in es && e.key == x && e.row.hits == rows[x].hits;
    }
    assert MeasuredOf(es) <= KeysOf(es);
  }

  /** What the rest of the algorithm reads off a row map. */
  datatype View = View(keys: set<string>, covered: set<string>, measured: bool)

  function ViewOf(rows: map<string, Observation>): View {
    View(rows.Keys, Covered(rows), forall x :: x in rows.Keys ==> rows[x].hits >= 0)
  }

  function Inventoried(m: Measurement, k: Metric): View {
    View(InventoryKeys(m, k), CoveredKeys(m, k), InventoryKeys(m, k) == MeasuredKeys(m, k))
  }

  /** `inventory`: the rows are met in an arbitrary order. */
  method Inventory(m: Measurement, k: Metric) returns (rows: map<string, Observation>)
    ensures ViewOf(rows) == Inventoried(m, k)
  {
    rows := CoalesceAll(Entries(m, k));
    CoalescedMeaning(Entries(m, k), rows);
  }

  method CoalesceAll(es: set<Entry>) returns (rows: map<string, Observation>)
    ensures Coalesced(es, rows)
  {
    rows := map[];
    var todo := es;
    while todo != {}
      invariant todo <= es && Coalesced(es - todo, rows)
      decreases todo
    {
      var e :| e in todo;
      MergeCoalesces(es - todo, rows, e);
      assert es - todo + {e} == es - (todo - {e});
      rows, todo := Merge(rows, e), todo - {e};
    }
    assert es - {} == es;
  }

  function Covered(rows: map<string, Observation>): set<string> {
    set x | x in rows && rows[x].hits > 0
  }

  // ---------- guards ----------

  /** `detail_matches`, over the coalesced keys. */
  predicate DetailMatches(m: Measurement, k: Metric) {
    && InventoryKeys(m, k) != {}
    && InventoryKeys(m, k) == MeasuredKeys(m, k)
    && |InventoryKeys(m, k)| == m.Reported(k).total
    && |CoveredKeys(m, k)| == m.Reported(k).covered
  }

  predicate Differ(a: Option<string>, b: Option<string>) {
    a.Some? && b.Some? && a.value != b.value
  }

  /** `conflict`: hashes are compared for the batch's files, against the baseline only. */
  predicate Conflict(base: Measurement, batch: Measurement) {
    || base.source == ChangedOrMissing
    || batch.source == ChangedOrMissing
    || Differ(base.buildId, batch.buildId)
    || exists f :: f in batch.files && f in base.hashes && f in batch.hashes && base.hashes[f] != batch.hashes[f]
  }

  /** `verified`. */
  predicate Verified(base: Measurement, batch: Measurement) {
    && base.source == MatchesReceipt && batch.source == MatchesReceipt
    && base.buildId == batch.buildId
    && base.tests == TestsPassed && batch.tests == TestsPassed
  }

  datatype Rejection = FailedTests | IdentityDiffers | DetailIncomplete | OutsideInventory

  /** `reject`, with the inventory keys standing for the rows' keys. */
  function Reject(base: Measurement, batch: Measurement, k: Metric, known: Option<string>): Option<Rejection> {
    if batch.tests == TestsFailed then Some(FailedTests)
    else if base.format != batch.format || Conflict(base, batch) || Differ(known, batch.buildId) then Some(IdentityDiffers)
    else if !DetailMatches(batch, k) then Some(DetailIncomplete)
    else if !(InventoryKeys(batch, k) <= InventoryKeys(base, k)) then Some(OutsideInventory)
    else None
  }

  /** The first build id seen is kept. */
  function Latch(known: Option<string>, m: Measurement): Option<string> {
    if known.None? then m.buildId else known
  }

  // ---------- the answer ----------

  /** A report reference either loads or does not. */
  datatype Loaded = Unloadable | Loaded(m: Measurement)

  datatype Tally = Tally(covered: nat, total: nat, missing: nat)

  datatype Status = Limited | NoGain | Improved

  /** The reported numbers and key sets. */
  datatype Increment = Increment(accepted: Tally, batchCovered: nat, newlyCovered: nat, alreadyCovered: nat,
                                 combined: Tally, gained: set<string>, remaining: set<string>,
                                 verified: bool, status: Status)

  /** What an accepted comparison is about: the baseline inventory, the keys covered by the
      baseline and the earlier batches, and the keys the current batch covers. */
  datatype Sets = Sets(keys: set<string>, accepted: set<string>, batch: set<string>, verified: bool)

  datatype Answer<T> =
    | BaselineRefused(why: Rejection)
    | LoadError(at: nat)
    | Refused(at: nat, why: Rejection)
    | Combined(value: T)

  datatype Scan = Unread(at: nat) | Turned(at: nat, why: Rejection) | Passed

  /** The guard loop from batch `i` on, carrying the latched build id. */
  function ScanFrom(base: Measurement, batches: seq<Loaded>, i: nat, k: Metric, known: Option<string>): Scan
    requires i <= |batches|
    decreases |batches| - i
  {
    if i == |batches| then Passed
    else if batches[i].Unloadable? then Unread(i)
    else
      var m := batches[i].m;
      var r := Reject(base, m, k, known);
      if r.Some? then Turned(i, r.value) else ScanFrom(base, batches, i + 1, k, Latch(known, m))
  }

  /** The latch after a whole list. */
  function LatchAll(known: Option<string>, batches: seq<Loaded>): Option<string> {
    if batches == [] then known
    else
      var rest, last := LatchAll(known, batches[..|batches| - 1]), batches[|batches| - 1];
      if last.Loaded? then Latch(rest, last.m) else rest
  }

  /** Keys covered by the baseline or by a loaded batch: plain set union. */
  function Union(base: Measurement, batches: seq<Loaded>, k: Metric): set<string> {
    if batches == [] then CoveredKeys(base, k)
    else
      var rest, last := Union(base, batches[..|batches| - 1], k), batches[|batches| - 1];
      if last.Loaded? then rest + CoveredKeys(last.m, k) else rest
  }

  predicate AllVerified(base: Measurement, batches: seq<Loaded>) {
    forall i :: 0 <= i < |batches| && batches[i].Loaded? ==> Verified(base, batches[i].m)
  }

  function TallyOf(covered: set<string>, keys: set<string>): Tally {
    Tally(|covered|, |keys|, |keys - covered|)
  }

  /** The numbers of a combined result, as set arithmetic over the baseline's keys. */
  function Numbers(s: Sets): Increment {
    var gained := s.batch - s.accepted;
    Increment(TallyOf(s.accepted, s.keys), |s.batch|, |gained|, |s.batch * s.accepted|,
              TallyOf(s.accepted + s.batch, s.keys), gained, s.keys - (s.accepted + s.batch), s.verified,
              if !s.verified then Limited else if gained == {} then NoGain else Improved)
  }

  function Report(a: Answer<Sets>): Answer<Increment> {
    match a
    case BaselineRefused(why) => BaselineRefused(why)
    case LoadError(at) => LoadError(at)
    case Refused(at, why) => Refused(at, why)
    case Combined(s) => Combined(Numbers(s))
  }

  function BaselineVerdict(base: Measurement, k: Metric): Option<Rejection> {
    if base.tests == TestsFailed then Some(FailedTests)
    else if !DetailMatches(base, k) then Some(DetailIncomplete)
    else None
  }

  function Compare(base: Measurement, previous: seq<Loaded>, current: Measurement, k: Metric): Answer<Sets> {
    var why := BaselineVerdict(base, k);
    if why.Some? then BaselineRefused(why.value)
    else
      match ScanFrom(base, previous, 0, k, base.buildId)
      case Unread(i) => LoadError(i)
      case Turned(i, why) => Refused(i, why)
      case Passed =>
        var r := Reject(base, current, k, LatchAll(base.buildId, previous));
        if r.Some? then Refused(|previous|, r.value)
        else Combined(Sets(InventoryKeys(base, k), Union(base, previous, k), CoveredKeys(current, k),
                           AllVerified(base, previous) && Verified(base, current)))
  }

  // ---------- the loop ----------

  method Admit(base: Measurement, batch: Measurement, rows: map<string, Observation>,
               union: map<string, Observation>, k: Metric, known: Option<string>) returns (r: Option<Rejection>)
    requires ViewOf(rows) == Inventoried(batch, k) && union.Keys == InventoryKeys(base, k)
    ensures r == Reject(base, batch, k, known)
  {
    if batch.tests == TestsFailed {
      return Some(FailedTests);
    }
    if base.format != batch.format || Conflict(base, batch) || Differ(known, batch.buildId) {
      return Some(IdentityDiffers);
    }
    var matches := Detailed(batch, rows, k);
    if !matches {
      return Some(DetailIncomplete);
    }
    if exists key :: key in rows.Keys && key !in union {
      return Some(OutsideInventory);
    }
    return None;
  }

  method Detailed(m: Measurement, rows: map<string, Observation>, k: Metric) returns (b: bool)
    requires ViewOf(rows) == Inventoried(m, k)
    ensures b == DetailMatches(m, k)
  {
    b := rows.Keys != {} && ViewOf(rows).measured
         && |rows.Keys| == m.Reported(k).total && |Covered(rows)| == m.Reported(k).covered;
  }

  /** Every covered row of the batch replaces the row of its key. */
  function Absorb(union: map<string, Observation>, rows: map<string, Observation>): (u: map<string, Observation>)
    requires rows.Keys <= union.Keys && ViewOf(union).measured
    ensures ViewOf(u) == View(union.Keys, Covered(union) + Covered(rows), true)
  {
    var u := map x | x in union :: if x in rows && rows[x].hits > 0 then rows[x] else union[x];
    assert u.Keys == union.Keys && Covered(u) == Covered(union) + Covered(rows);
    u
  }

  /** One earlier batch: refused, or folded into the map. */
  method Take(base: Measurement, batch: Measurement, union: map<string, Observation>, k: Metric, known: Option<string>)
    returns (refused: Option<Rejection>, grown: map<string, Observation>)
    requires union.Keys == InventoryKeys(base, k) && ViewOf(union).measured
    ensures refused == Reject(base, batch, k, known)
    ensures refused.None? ==> ViewOf(grown) == View(union.Keys, Covered(union) + CoveredKeys(batch, k), true)
  {
    grown := union;
    var rows := Inventory(batch, k);
    refused := Admit(base, batch, rows, union, k, known);
    if refused.None? {
      grown := Absorb(union, rows);
    }
  }

  /** Everything the loop over earlier batches carries, or why it stopped. */
  datatype Fold = Stopped(scan: Scan) | Through(union: map<string, Observation>, trusted: bool, known: Option<string>)

  /** The map keeps the baseline's keys while its covered keys run through the union of
      everything read so far; the latch and the trust flag run beside it. */
  ghost predicate Folded(base: Measurement, done: seq<Loaded>, k: Metric, f: Fold) {
    && f.Through?
    && (ViewOf(f.union), f.trusted, f.known)
       == (View(InventoryKeys(base, k), Union(base, done, k), true), AllVerified(base, done), LatchAll(base.buildId, done))
  }

  lemma FoldedStep(base: Measurement, previous: seq<Loaded>, i: nat, k: Metric, f: Fold, grown: map<string, Observation>)
    requires i < |previous| && previous[i].Loaded? && Folded(base, previous[..i], k, f)
    requires ViewOf(grown) == View(f.union.Keys, Covered(f.union) + CoveredKeys(previous[i].m, k), true)
    ensures var m := previous[i].m;
            Folded(base, previous[..i + 1], k, Through(grown, f.trusted && Verified(base, m), Latch(f.known, m)))
  {
    assert previous[..i + 1][..i] == previous[..i];
    VerifiedAppend(base, previous[..i], previous[i].m);
    assert previous[..i] + [Loaded(previous[i].m)] == previous[..i + 1];
  }

  /** The loop over earlier batches. */
  method FoldPrevious(base: Measurement, start: map<string, Observation>, previous: seq<Loaded>, k: Metric) returns (f: Fold)
    requires ViewOf(start) == View(InventoryKeys(base, k), CoveredKeys(base, k), true)
    ensures f.Stopped? ==> !f.scan.Passed? && f.scan == ScanFrom(base, previous, 0, k, base.buildId)
    ensures f.Through? ==> Folded(base, previous, k, f) && ScanFrom(base, previous, 0, k, base.buildId) == Passed
  {
    f := Through(start, true, base.buildId);
    for i := 0 to |previous|
      invariant Folded(base, previous[..i], k, f)
      invariant ScanFrom(base, previous, 0, k, base.buildId) == ScanFrom(base, previous, i, k, f.known)
    {
      if previous[i].Unloadable? {
        return Stopped(Unread(i));
      }
      var batch := previous[i].m;
      var refused, grown := Take(base, batch, f.union, k, f.known);
      if refused.Some? {
        return Stopped(Turned(i, refused.value));
      }
      FoldedStep(base, previous, i, k, f, grown);
      f := Through(grown, f.trusted && Verified(base, batch), Latch(f.known, batch));
    }
    assert previous[..|previous|] == previous;
  }

  method OpenBaseline(base: Measurement, k: Metric) returns (start: map<string, Observation>, why: Option<Rejection>)
    ensures why == BaselineVerdict(base, k)
    ensures why.None? ==> ViewOf(start) == View(InventoryKeys(base, k), CoveredKeys(base, k), true)
  {
    start := Inventory(base, k);
    var matches := Detailed(base, start, k);
    why := if base.tests == TestsFailed then Some(FailedTests) else if !matches then Some(DetailIncomplete) else None;
  }

  /** `compare_incremental` and `combine`. */
  method Combine(base: Measurement, previous: seq<Loaded>, current: Measurement, k: Metric) returns (a: Answer<Increment>)
    ensures a == Report(Compare(base, previous, current, k))
  {
    var start, why := OpenBaseline(base, k);
    if why.Some? {
      return BaselineRefused(why.value);
    }
    var f := FoldPrevious(base, start, previous, k);
    if f.Stopped? {
      return if f.scan.Unread? then LoadError(f.scan.at) else Refused(f.scan.at, f.scan.why);
    }
    a := Finish(base, previous, current, k, f);
  }

  method Finish(base: Measurement, previous: seq<Loaded>, current: Measurement, k: Metric, f: Fold)
    returns (a: Answer<Increment>)
    requires Folded(base, previous, k, f) && BaselineVerdict(base, k).None?
    requires ScanFrom(base, previous, 0, k, base.buildId) == Passed
    ensures a == Report(Compare(base, previous, current, k))
  {
    assert f.union.Keys == ViewOf(f.union).keys && Covered(f.union) == ViewOf(f.union).covered;
    var rows := Inventory(current, k);
    var refused := Admit(base, current, rows, f.union, k, f.known);
    if refused.Some? {
      return Refused(|previous|, refused.value);
    }
    assert ViewOf(rows).covered == Covered(rows);
    ghost var sets := Compare(base, previous, current, k).value;
    a := Conclude(f.union, rows, f.trusted && Verified(base, current), sets);
  }

  method Conclude(union: map<string, Observation>, rows: map<string, Observation>, trusted: bool, ghost sets: Sets)
    returns (a: Answer<Increment>)
    requires rows.Keys <= union.Keys && ViewOf(union).measured
    requires sets == Sets(union.Keys, Covered(union), Covered(rows), trusted)
    ensures a == Report(Combined(sets))
  {
    var increment := Weigh(union, rows, trusted, sets);
    return Combined(increment);
  }

  lemma VerifiedAppend(base: Measurement, batches: seq<Loaded>, last: Measurement)
    ensures AllVerified(base, batches + [Loaded(last)]) == (AllVerified(base, batches) && Verified(base, last))
  {
    var all := batches + [Loaded(last)];
    assert forall i :: 0 <= i < |batches| ==> all[i] == batches[i];
    assert all[|batches|] == Loaded(last);
  }

  /** `totals`: the subtraction cannot underflow. */
  method Totals(rows: map<string, Observation>) returns (t: Tally)
    ensures t == TallyOf(Covered(rows), rows.Keys)
  {
    var covered := |Covered(rows)|;
    Inside(Covered(rows), rows.Keys);
    t := Tally(covered, |rows|, |rows| - covered);
  }

  /** The keys the batch covers and the union does not. */
  method Gain(union: map<string, Observation>, rows: map<string, Observation>) returns (gained: set<string>, already: nat)
    requires rows.Keys <= union.Keys && ViewOf(union).measured
    ensures gained == Covered(rows) - Covered(union)
    ensures already == |Covered(rows) * Covered(union)| == |Covered(rows)| - |gained|
  {
    gained := set x | x in rows && rows[x].hits > 0 && union[x].hits == 0;
    assert gained == Covered(rows) - Covered(union);
    Inside(gained, Covered(rows));
    assert Covered(rows) - gained == Covered(rows) * Covered(union);
    already := |Covered(rows)| - |gained|;
  }

  lemma UncoveredKeys(rows: map<string, Observation>)
    requires forall x :: x in rows ==> rows[x].hits >= 0
    ensures (set x | x in rows && rows[x].hits == 0) == rows.Keys - Covered(rows)
  {
  }

  /** The counts the code takes from the two maps: `union[key]` is always defined, no
      subtraction underflows and the denominator is the unchanged baseline inventory. */
  method Weigh(union: map<string, Observation>, rows: map<string, Observation>, trusted: bool, ghost sets: Sets)
    returns (r: Increment)
    requires rows.Keys <= union.Keys && ViewOf(union).measured
    requires sets == Sets(union.Keys, Covered(union), Covered(rows), trusted)
    ensures r == Numbers(sets)
  {
    var accepted := Totals(union);
    var gained, already := Gain(union, rows);
    var grown := Absorb(union, rows);
    UncoveredKeys(grown);
    var combined := Totals(grown);
    r := Increment(accepted, |Covered(rows)|, |gained|, already, combined, gained,
                   (set x | x in grown && grown[x].hits == 0), trusted,
                   if !trusted then Limited else if |gained| == 0 then NoGain else Improved);
  }
}
